/** The streaming scanner that cuts a long-poll body into provider frames: JSON
    containers, separated by white space and commas, closed by "]]". */
module FrameScanner {
  import opened Octets
  import opened Wrappers

  const MAX_ENVELOPE := 0x40_0000

  const QUOTE: Byte := '"' as int
  const BACKSLASH: Byte := '\\' as int
  const COMMA: Byte := ',' as int
  const LEFT_BRACKET: Byte := '[' as int
  const RIGHT_BRACKET: Byte := ']' as int

  predicate Opens(b: Byte) { b == LEFT_BRACKET || b == '{' as int }

  predicate Closes(b: Byte) { b == RIGHT_BRACKET || b == '}' as int }

  predicate Space(b: Byte) { b == ' ' as int || b == '\t' as int || b == '\r' as int || b == '\n' as int }

  predicate Separator(b: Byte, comma: bool) { Space(b) || (comma && b == COMMA) }

  /** The characters by their codes, and the limit in bytes. */
  lemma CharactersByCode(b: Byte)
    ensures Opens(b) <==> b == 0x5b || b == 0x7b
    ensures Closes(b) <==> b == 0x5d || b == 0x7d
    ensures Separator(b, false) <==> b == 0x20 || b == 0x09 || b == 0x0d || b == 0x0a
    ensures Separator(b, true) <==> b == 0x2c || Separator(b, false)
    ensures QUOTE == 0x22 && BACKSLASH == 0x5c && RIGHT_BRACKET == 0x5d && MAX_ENVELOPE == 4 * 1024 * 1024
  {
  }

  datatype Error = AfterEnd | BadEndMarker | NotAContainer | TooLong | NegativeDepth | Rejected

  /** The consumer may refuse a frame depending on all it has seen. */
  type Consumer = (seq<seq<Byte>>, seq<Byte>) -> bool

  datatype Machine = Machine(
    frame: seq<Byte>, depth: int, inString: bool, escaped: bool, started: bool, closing: bool, ended: bool,
    emitted: seq<seq<Byte>>, error: Option<Error>)

  const Init := Machine([], 0, false, false, false, false, false, [], None)

  function Between(m: Machine, b: Byte): Machine {
    if m.closing then
      if b != RIGHT_BRACKET then m.(error := Some(BadEndMarker)) else m.(closing := false, ended := true)
    else if Separator(b, true) then m
    else if b == RIGHT_BRACKET then m.(closing := true)
    else if !Opens(b) then m.(error := Some(NotAContainer))
    else m.(started := true, depth := 1, frame := [b])
  }

  function InString(m: Machine, b: Byte): Machine {
    if m.escaped then m.(escaped := false)
    else if b == BACKSLASH then m.(escaped := true)
    else if b == QUOTE then m.(inString := false)
    else m
  }

  function CloseOne(accept: Consumer, m: Machine): Machine {
    var depth := m.depth - 1;
    if depth < 0 then m.(depth := depth, error := Some(NegativeDepth))
    else if depth > 0 then m.(depth := depth)
    else if !accept(m.emitted, m.frame) then m.(depth := depth, error := Some(Rejected))
    else m.(depth := depth, emitted := m.emitted + [m.frame], frame := [], started := false)
  }

  function Inside(accept: Consumer, m: Machine, b: Byte): Machine {
    if |m.frame| >= MAX_ENVELOPE then m.(error := Some(TooLong))
    else
      var n := m.(frame := m.frame + [b]);
      if m.inString then InString(n, b)
      else if b == QUOTE then n.(inString := true)
      else if Opens(b) then n.(depth := n.depth + 1)
      else if Closes(b) then CloseOne(accept, n)
      else n
  }

  function ScanByte(accept: Consumer, m: Machine, b: Byte): Machine {
    if m.error.Some? then m
    else if m.ended then (if Separator(b, false) then m else m.(error := Some(AfterEnd)))
    else if !m.started then Between(m, b)
    else Inside(accept, m, b)
  }

  function Scan(accept: Consumer, m: Machine, input: seq<Byte>): Machine {
    if input == [] then m
    else ScanByte(accept, Scan(accept, m, input[..|input| - 1]), input[|input| - 1])
  }

  lemma ScanAppends(accept: Consumer, m: Machine, input: seq<Byte>, b: Byte)
    ensures Scan(accept, m, input + [b]) == ScanByte(accept, Scan(accept, m, input), b)
  {
    assert (input + [b])[..|input|] == input;
  }

  // ----- In place ---------------------------------------------------------------------

  class Scanner {
    var frame: seq<Byte>
    var depth: int
    var inString: bool
    var escaped: bool
    var started: bool
    var firstCloseBracket: bool
    var ended: bool
    var emitted: seq<seq<Byte>>   // what the consumer has taken

    ghost function State(error: Option<Error>): Machine
      reads this
    {
      Machine(frame, depth, inString, escaped, started, firstCloseBracket, ended, emitted, error)
    }

    constructor ()
      ensures State(None) == Init
    {
      frame, depth, inString, escaped, started, firstCloseBracket, ended, emitted := [], 0, false, false, false,
          false, false, [];
    }

    method FeedByte(value: Byte, accept: Consumer) returns (err: Option<Error>)
      modifies this
      ensures State(err) == ScanByte(accept, old(State(None)), value)
    {
      if ended {
        if !Separator(value, false) {
          return Some(AfterEnd);
        }
        return None;
      }
      if !started {
        if firstCloseBracket {
          if value != RIGHT_BRACKET {
            return Some(BadEndMarker);
          }
          firstCloseBracket := false;
          ended := true;
          return None;
        }
        if Separator(value, true) {
          return None;
        }
        if value == RIGHT_BRACKET {
          firstCloseBracket := true;
          return None;
        }
        if !Opens(value) {
          return Some(NotAContainer);
        }
        started := true;
        depth := 1;
        frame := [value];
        return None;
      }
      if |frame| >= MAX_ENVELOPE {
        return Some(TooLong);
      }
      frame := frame + [value];
      if inString {
        if escaped {
          escaped := false;
        } else if value == BACKSLASH {
          escaped := true;
        } else if value == QUOTE {
          inString := false;
        }
        return None;
      }
      if value == QUOTE {
        inString := true;
      } else if Opens(value) {
        depth := depth + 1;
      } else if Closes(value) {
        depth := depth - 1;
        if depth < 0 {
          return Some(NegativeDepth);
        }
        if depth == 0 {
          if !accept(emitted, frame) {
            return Some(Rejected);
          }
          emitted := emitted + [frame];
          frame := [];
          started := false;
        }
      }
      return None;
    }

    /** One chunk of the body; scanning stops at the first error. */
    method Feed(input: seq<Byte>, accept: Consumer) returns (err: Option<Error>)
      modifies this
      ensures State(err) == Scan(accept, old(State(None)), input)
    {
      ghost var before := State(None);
      for k := 0 to |input|
        invariant State(None) == Scan(accept, before, input[..k])
      {
        assert input[..k + 1] == input[..k] + [input[k]];
        ScanAppends(accept, before, input[..k], input[k]);
        err := FeedByte(input[k], accept);
        if err.Some? {
          ErrorsStay(accept, before, input, k + 1);
          return;
        }
      }
      assert input[..|input|] == input;
      err := None;
    }
  }

  lemma {:induction false} ErrorsStay(accept: Consumer, m: Machine, input: seq<Byte>, k: nat)
    requires k <= |input| && Scan(accept, m, input[..k]).error.Some?
    ensures Scan(accept, m, input) == Scan(accept, m, input[..k])
  {
    if k == |input| {
      assert input[..k] == input;
    } else {
      var shorter := input[..|input| - 1];
      assert shorter[..k] == input[..k];
      ErrorsStay(accept, m, shorter, k);
    }
  }

  // ----- Chunks do not matter ------------------------------------------------------------

  lemma {:induction false} ScanInTwo(accept: Consumer, m: Machine, left: seq<Byte>, right: seq<Byte>)
    ensures Scan(accept, m, left + right) == Scan(accept, Scan(accept, m, left), right)
  {
    if right == [] {
      assert left + right == left;
    } else {
      var most, last := right[..|right| - 1], right[|right| - 1];
      assert left + right == (left + most) + [last];
      ScanAppends(accept, m, left + most, last);
      ScanInTwo(accept, m, left, most);
    }
  }

  function Flatten(chunks: seq<seq<Byte>>): seq<Byte> {
    if chunks == [] then [] else chunks[0] + Flatten(chunks[1..])
  }

  function FeedAll(accept: Consumer, m: Machine, chunks: seq<seq<Byte>>): Machine
    decreases |chunks|
  {
    if chunks == [] then m else FeedAll(accept, Scan(accept, m, chunks[0]), chunks[1..])
  }

  /** However the body is cut into reads, the scanner ends in the same state and emits the same frames. */
  lemma {:induction false} ChunksDoNotMatter(accept: Consumer, m: Machine, chunks: seq<seq<Byte>>)
    ensures FeedAll(accept, m, chunks) == Scan(accept, m, Flatten(chunks))
    decreases |chunks|
  {
    if chunks != [] {
      ChunksDoNotMatter(accept, Scan(accept, m, chunks[0]), chunks[1..]);
      ScanInTwo(accept, m, chunks[0], Flatten(chunks[1..]));
    }
  }
}
