/** What the scanner accepts, stated without its state: a body is a sequence of
    balanced JSON containers with gaps between them, then "]]" and white space.
    The scanner accepts exactly these bodies and emits exactly their containers. */
module FrameGrammar {
  import opened Octets
  import opened Wrappers
  import opened FrameScanner

  /** One character of a string literal. */
  datatype Piece = Plain(b: Byte) | Escape(b: Byte)

  datatype Token = Open(b: Byte) | Close(b: Byte) | Str(body: seq<Piece>) | Other(b: Byte)

  predicate PieceOk(piece: Piece) { piece.Plain? ==> piece.b != QUOTE && piece.b != BACKSLASH }

  predicate PiecesOk(body: seq<Piece>) { forall k | 0 <= k < |body| :: PieceOk(body[k]) }

  predicate TokenOk(token: Token) {
    match token
    case Open(b) => Opens(b)
    case Close(b) => Closes(b)
    case Str(body) => PiecesOk(body)
    case Other(b) => !Opens(b) && !Closes(b) && b != QUOTE
  }

  predicate TokensOk(tokens: seq<Token>) { forall k | 0 <= k < |tokens| :: TokenOk(tokens[k]) }

  function PrintPieces(body: seq<Piece>): seq<Byte> {
    if body == [] then []
    else
      var last := body[|body| - 1];
      PrintPieces(body[..|body| - 1]) + (if last.Plain? then [last.b] else [BACKSLASH, last.b])
  }

  function PrintToken(token: Token): seq<Byte> {
    if token.Str? then [QUOTE] + PrintPieces(token.body) + [QUOTE] else [token.b]
  }

  function Print(tokens: seq<Token>): seq<Byte> {
    if tokens == [] then [] else Print(tokens[..|tokens| - 1]) + PrintToken(tokens[|tokens| - 1])
  }

  function Delta(token: Token): int { if token.Open? then 1 else if token.Close? then -1 else 0 }

  function Depth(tokens: seq<Token>): int {
    if tokens == [] then 0 else Depth(tokens[..|tokens| - 1]) + Delta(tokens[|tokens| - 1])
  }

  /** Started and not yet closed, at every point so far. */
  ghost predicate Unclosed(tokens: seq<Token>) {
    TokensOk(tokens) && tokens != [] && forall k | 0 < k <= |tokens| :: Depth(tokens[..k]) > 0
  }

  /** A container closes with its last token and not before. */
  ghost predicate Container(tokens: seq<Token>) {
    TokensOk(tokens) && |tokens| > 1 && Unclosed(tokens[..|tokens| - 1]) && Depth(tokens) == 0
  }

  predicate GapOk(gap: seq<Byte>) { forall k | 0 <= k < |gap| :: Separator(gap[k], true) }

  predicate Blank(text: seq<Byte>) { forall k | 0 <= k < |text| :: Space(text[k]) }

  datatype Item = Item(gap: seq<Byte>, tokens: seq<Token>)

  function Render(items: seq<Item>): seq<Byte> {
    if items == [] then []
    else
      var last := items[|items| - 1];
      Render(items[..|items| - 1]) + (last.gap + Print(last.tokens))
  }

  function Frames(items: seq<Item>): (frames: seq<seq<Byte>>)
    ensures |frames| == |items|
    ensures forall k | 0 <= k < |items| :: frames[k] == Print(items[k].tokens)
  {
    seq(|items|, k requires 0 <= k < |items| => Print(items[k].tokens))
  }

  ghost predicate ItemsOk(items: seq<Item>) {
    forall k | 0 <= k < |items| ::
      GapOk(items[k].gap) && Container(items[k].tokens) && |Print(items[k].tokens)| <= MAX_ENVELOPE
  }

  ghost predicate AllTaken(accept: Consumer, frames: seq<seq<Byte>>) {
    forall k | 0 <= k < |frames| :: accept(frames[..k], frames[k])
  }

  // ----- What has been read so far ----------------------------------------------------------

  datatype Literal = Outside | Within(body: seq<Piece>, escaped: bool)

  datatype Rest =
    | Gap(gap: seq<Byte>)
    | Reading(gap: seq<Byte>, tokens: seq<Token>, literal: Literal)
    | FirstClose(gap: seq<Byte>)
    | Ended(gap: seq<Byte>, blank: seq<Byte>)

  function PrintLiteral(literal: Literal): seq<Byte> {
    match literal
    case Outside => []
    case Within(body, escaped) => [QUOTE] + PrintPieces(body) + if escaped then [BACKSLASH] else []
  }

  function PrintRest(rest: Rest): seq<Byte> {
    match rest
    case Gap(gap) => gap
    case Reading(gap, tokens, literal) => gap + (Print(tokens) + PrintLiteral(literal))
    case FirstClose(gap) => gap + [RIGHT_BRACKET]
    case Ended(gap, blank) => gap + [RIGHT_BRACKET, RIGHT_BRACKET] + blank
  }

  ghost predicate RestOk(rest: Rest) {
    && GapOk(rest.gap)
    && (rest.Reading? ==>
          && Unclosed(rest.tokens) && LiteralOk(rest.literal)
          && |Print(rest.tokens) + PrintLiteral(rest.literal)| <= MAX_ENVELOPE)
    && (rest.Ended? ==> Blank(rest.blank))
  }

  /** The scanner's state after reading these items and this rest. */
  function StateOf(items: seq<Item>, rest: Rest): Machine {
    var idle := Init.(emitted := Frames(items));
    match rest
    case Gap(_) => idle
    case Reading(_, tokens, literal) =>
      idle.(started := true, frame := Print(tokens) + PrintLiteral(literal), depth := Depth(tokens),
            inString := literal.Within?, escaped := literal.Within? && literal.escaped)
    case FirstClose(_) => idle.(closing := true)
    case Ended(_, _) => idle.(ended := true)
  }

  // ----- Lexing -----------------------------------------------------------------------------------

  lemma PrintAppends(tokens: seq<Token>, token: Token)
    ensures Print(tokens + [token]) == Print(tokens) + PrintToken(token)
    ensures Depth(tokens + [token]) == Depth(tokens) + Delta(token)
  {
    assert (tokens + [token])[..|tokens|] == tokens;
  }

  lemma PrintPiecesAppends(body: seq<Piece>, piece: Piece)
    ensures PrintPieces(body + [piece]) == PrintPieces(body) + if piece.Plain? then [piece.b] else [BACKSLASH, piece.b]
  {
    assert (body + [piece])[..|body|] == body;
  }

  lemma UnclosedAppends(tokens: seq<Token>, token: Token)
    requires Unclosed(tokens) && TokenOk(token)
    ensures Depth(tokens) > 0
    ensures Depth(tokens) + Delta(token) > 0 ==> Unclosed(tokens + [token])
    ensures Depth(tokens) + Delta(token) == 0 ==> Container(tokens + [token])
  {
    var all := tokens + [token];
    PrintAppends(tokens, token);
    assert all[..|tokens|] == tokens && tokens[..|tokens|] == tokens;
    forall k | 0 < k <= |all| && Depth(tokens) + Delta(token) > 0 ensures Depth(all[..k]) > 0 {
      if k <= |tokens| { assert all[..k] == tokens[..k]; } else { assert all[..k] == all; }
    }
  }

  function TokenOf(b: Byte): Token { if Opens(b) then Open(b) else if Closes(b) then Close(b) else Other(b) }

  /** What one more byte does to an unfinished container, as tokens. */
  function Extend(tokens: seq<Token>, literal: Literal, b: Byte): (seq<Token>, Literal) {
    match literal
    case Within(body, escaped) =>
      if escaped then (tokens, Within(body + [Escape(b)], false))
      else if b == BACKSLASH then (tokens, Within(body, true))
      else if b == QUOTE then (tokens + [Str(body)], Outside)
      else (tokens, Within(body + [Plain(b)], false))
    case Outside =>
      if b == QUOTE then (tokens, Within([], false))
      else (tokens + [TokenOf(b)], Outside)
  }

  ghost predicate LiteralOk(literal: Literal) { literal.Within? ==> PiecesOk(literal.body) }

  lemma LiteralPrints(body: seq<Piece>, escaped: bool, b: Byte)
    requires escaped || (b != BACKSLASH && b != QUOTE)
    ensures PrintLiteral(Within(body + [if escaped then Escape(b) else Plain(b)], false))
            == PrintLiteral(Within(body, escaped)) + [b]
  {
    PrintPiecesAppends(body, if escaped then Escape(b) else Plain(b));
  }

  lemma StringPrints(tokens: seq<Token>, body: seq<Piece>)
    ensures Print(tokens + [Str(body)]) == (Print(tokens) + PrintLiteral(Within(body, false))) + [QUOTE]
  {
    PrintAppends(tokens, Str(body));
  }

  lemma ExtendPrints(tokens: seq<Token>, literal: Literal, b: Byte)
    ensures var (tokens', literal') := Extend(tokens, literal, b);
            Print(tokens') + PrintLiteral(literal') == (Print(tokens) + PrintLiteral(literal)) + [b]
  {
    hide Print, PrintPieces, Depth;
    match literal
    case Within(body, escaped) =>
      if escaped || (b != BACKSLASH && b != QUOTE) {
        LiteralPrints(body, escaped, b);
      } else if b == QUOTE {
        StringPrints(tokens, body);
      }
    case Outside =>
      if b == QUOTE {
        assert PrintPieces([]) == [] by { PrintNoPieces(); }
      } else {
        PrintAppends(tokens, TokenOf(b));
      }
  }

  lemma PrintNoPieces()
    ensures PrintPieces([]) == []
  {
  }

  /** Inside a string literal no byte opens or closes anything. */
  lemma WithinStaysUnclosed(tokens: seq<Token>, body: seq<Piece>, escaped: bool, b: Byte)
    requires Unclosed(tokens) && PiecesOk(body)
    ensures var (tokens', literal') := Extend(tokens, Within(body, escaped), b);
            Unclosed(tokens') && LiteralOk(literal') && Depth(tokens') == Depth(tokens)
  {
    hide Unclosed, Print, Depth, PrintPieces;
    UnclosedAppends(tokens, Str(body));
    PrintAppends(tokens, Str(body));
  }

  lemma OutsideStaysUnclosed(tokens: seq<Token>, b: Byte)
    requires Unclosed(tokens) && b != QUOTE
    ensures TokenOk(TokenOf(b)) && Depth(tokens) > 0
    ensures Depth(tokens + [TokenOf(b)]) == Depth(tokens) + Delta(TokenOf(b))
    ensures if Closes(b) && Depth(tokens) == 1 then Container(tokens + [TokenOf(b)])
            else Unclosed(tokens + [TokenOf(b)])
  {
    hide Unclosed, Print, Depth, PrintPieces, Container;
    UnclosedAppends(tokens, TokenOf(b));
    PrintAppends(tokens, TokenOf(b));
  }

  // ----- One byte ------------------------------------------------------------------------------

  /** The scanner reads one more byte of an unfinished container. */
  lemma ReadingStep(accept: Consumer, items: seq<Item>, rest: Rest, b: Byte)
    requires rest.Reading? && RestOk(rest) && |Print(rest.tokens) + PrintLiteral(rest.literal)| < MAX_ENVELOPE
    requires !(rest.literal.Outside? && Closes(b) && Depth(rest.tokens) == 1)
    ensures var (tokens, literal) := Extend(rest.tokens, rest.literal, b);
            var next := Reading(rest.gap, tokens, literal);
            && RestOk(next) && ScanByte(accept, StateOf(items, rest), b) == StateOf(items, next)
            && PrintRest(next) == PrintRest(rest) + [b]
  {
    hide Unclosed, Print, Depth, PrintPieces, PrintLiteral, GapOk, PiecesOk;
    ExtendPrints(rest.tokens, rest.literal, b);
    match rest.literal
    case Within(body, escaped) => WithinStaysUnclosed(rest.tokens, body, escaped, b);
    case Outside => if b != QUOTE { OutsideStaysUnclosed(rest.tokens, b); } else { NoPiecesOk(); }
  }

  lemma NoPiecesOk()
    ensures PiecesOk([])
  {
  }

  /** The byte that closes a container: it is emitted, or the consumer refuses it. */
  lemma ClosingStep(accept: Consumer, items: seq<Item>, rest: Rest, b: Byte)
    requires rest.Reading? && RestOk(rest) && |Print(rest.tokens) + PrintLiteral(rest.literal)| < MAX_ENVELOPE
    requires rest.literal.Outside? && Closes(b) && Depth(rest.tokens) == 1
    ensures var item := Item(rest.gap, rest.tokens + [Close(b)]);
            var next := ScanByte(accept, StateOf(items, rest), b);
            && Container(item.tokens) && |Print(item.tokens)| <= MAX_ENVELOPE
            && Print(item.tokens) == Print(rest.tokens) + [b]
            && Render(items + [item]) == Render(items) + (PrintRest(rest) + [b])
            && if accept(Frames(items), Print(item.tokens)) then next == StateOf(items + [item], Gap([]))
               else next.error == Some(Rejected)
  {
    hide Unclosed, Print, Depth, PrintPieces, GapOk, PiecesOk, Render;
    var item := Item(rest.gap, rest.tokens + [Close(b)]);
    OutsideStaysUnclosed(rest.tokens, b);
    PrintAppends(rest.tokens, Close(b));
    RenderAppends(items, item);
    assert StateOf(items, rest).frame == Print(rest.tokens);
    assert PrintRest(rest) + [b] == item.gap + Print(item.tokens);
    assert Frames(items + [item]) == Frames(items) + [Print(item.tokens)];
  }

  lemma RenderAppends(items: seq<Item>, item: Item)
    ensures Render(items + [item]) == Render(items) + (item.gap + Print(item.tokens))
  {
    assert (items + [item])[..|items|] == items;
  }

  lemma OtherStep(accept: Consumer, items: seq<Item>, rest: Rest, b: Byte) returns (next: Rest)
    requires !rest.Reading? && RestOk(rest) && ScanByte(accept, StateOf(items, rest), b).error.None?
    ensures RestOk(next) && ScanByte(accept, StateOf(items, rest), b) == StateOf(items, next)
    ensures PrintRest(next) == PrintRest(rest) + [b]
  {
    match rest
    case Gap(gap) =>
      if Separator(b, true) {
        next := Gap(gap + [b]);
      } else if b == RIGHT_BRACKET {
        next := FirstClose(gap);
      } else {
        next := Reading(gap, [Open(b)], Outside);
        FirstToken(b);
      }
    case FirstClose(gap) => next := Ended(gap, []);
    case Ended(gap, blank) => next := Ended(gap, blank + [b]);
  }

  lemma FirstToken(b: Byte)
    requires Opens(b)
    ensures Unclosed([Open(b)]) && Print([Open(b)]) == [b] && Depth([Open(b)]) == 1
  {
    PrintAppends([], Open(b));
    assert [] + [Open(b)] == [Open(b)];
  }

  // ----- Both directions ---------------------------------------------------------------------------

  lemma FrameFits(accept: Consumer, items: seq<Item>, rest: Rest, b: Byte)
    requires rest.Reading? && ScanByte(accept, StateOf(items, rest), b).error.None?
    ensures |Print(rest.tokens) + PrintLiteral(rest.literal)| < MAX_ENVELOPE
  {
  }

  lemma AllTakenAppends(accept: Consumer, frames: seq<seq<Byte>>, frame: seq<Byte>)
    requires AllTaken(accept, frames) && accept(frames, frame)
    ensures AllTaken(accept, frames + [frame])
  {
    var all := frames + [frame];
    forall k | 0 <= k < |all| ensures accept(all[..k], all[k]) {
      assert all[..k] == frames[..k] && frames[..|frames|] == frames;
    }
  }

  /** Whatever the scanner has read without an error is a sequence of containers and an unfinished rest. */
  lemma {:induction false} Understand(accept: Consumer, text: seq<Byte>) returns (items: seq<Item>, rest: Rest)
    requires Scan(accept, Init, text).error.None?
    ensures text == Render(items) + PrintRest(rest) && ItemsOk(items) && RestOk(rest)
    ensures Scan(accept, Init, text) == StateOf(items, rest) && AllTaken(accept, Frames(items))
  {
    hide Print, PrintPieces, Depth, Unclosed, Render, ScanByte, RestOk, Container, StateOf, PrintRest;
    if text == [] {
      items, rest := [], Gap([]);
      Nothing();
    } else {
      var before, b := text[..|text| - 1], text[|text| - 1];
      StillRunning(accept, before, b, text);
      items, rest := Understand(accept, before);
      items, rest := UnderstandOne(accept, before, items, rest, b);
      assert text == before + [b];
    }
  }

  lemma Nothing()
    ensures Render([]) == [] && RestOk(Gap([])) && PrintRest(Gap([])) == [] && StateOf([], Gap([])) == Init
  {
  }

  lemma StillRunning(accept: Consumer, before: seq<Byte>, b: Byte, text: seq<Byte>)
    requires text == before + [b] && Scan(accept, Init, text).error.None?
    ensures Scan(accept, Init, before).error.None?
    ensures Scan(accept, Init, text) == ScanByte(accept, Scan(accept, Init, before), b)
  {
    ScanAppends(accept, Init, before, b);
  }

  lemma UnderstandOne(accept: Consumer, before: seq<Byte>, items: seq<Item>, rest: Rest, b: Byte)
    returns (items': seq<Item>, rest': Rest)
    requires ScanByte(accept, StateOf(items, rest), b).error.None?
    requires before == Render(items) + PrintRest(rest) && ItemsOk(items) && RestOk(rest)
        && AllTaken(accept, Frames(items))
    ensures before + [b] == Render(items') + PrintRest(rest') && ItemsOk(items') && RestOk(rest')
    ensures ScanByte(accept, StateOf(items, rest), b) == StateOf(items', rest') && AllTaken(accept, Frames(items'))
  {
    hide Print, PrintPieces, Depth, Unclosed, Render, ScanByte, StateOf, PrintRest, Container;
    if !rest.Reading? {
      items' := items;
      rest' := OtherStep(accept, items, rest, b);
    } else {
      FrameFits(accept, items, rest, b);
      if rest.literal.Outside? && Closes(b) && Depth(rest.tokens) == 1 {
        ClosingStep(accept, items, rest, b);
        var item := Item(rest.gap, rest.tokens + [Close(b)]);
        items', rest' := items + [item], Gap([]);
        AllTakenAppends(accept, Frames(items), Print(item.tokens));
        assert Frames(items') == Frames(items) + [Print(item.tokens)];
        Nothing();
      } else {
        ReadingStep(accept, items, rest, b);
        var (tokens, literal) := Extend(rest.tokens, rest.literal, b);
        items', rest' := items, Reading(rest.gap, tokens, literal);
      }
    }
  }

  lemma {:induction false} ScanGap(accept: Consumer, items: seq<Item>, gap: seq<Byte>)
    requires GapOk(gap)
    ensures Scan(accept, StateOf(items, Gap([])), gap) == StateOf(items, Gap([]))
  {
    if gap != [] { ScanGap(accept, items, gap[..|gap| - 1]); }
  }

  lemma {:induction false} ScanBlank(accept: Consumer, items: seq<Item>, gap: seq<Byte>, blank: seq<Byte>)
    requires Blank(blank)
    ensures Scan(accept, StateOf(items, Ended(gap, [])), blank) == StateOf(items, Ended(gap, blank))
  {
    if blank != [] { ScanBlank(accept, items, gap, blank[..|blank| - 1]); }
  }

  /** One byte after `text`, inside a container. */
  lemma ScanReading(accept: Consumer, m: Machine, text: seq<Byte>, items: seq<Item>, rest: Rest, b: Byte)
    requires Scan(accept, m, text) == StateOf(items, rest)
    requires rest.Reading? && RestOk(rest) && |Print(rest.tokens) + PrintLiteral(rest.literal)| < MAX_ENVELOPE
    requires !(rest.literal.Outside? && Closes(b) && Depth(rest.tokens) == 1)
    ensures var (tokens, literal) := Extend(rest.tokens, rest.literal, b);
            var next := Reading(rest.gap, tokens, literal);
            Scan(accept, m, text + [b]) == StateOf(items, next) && RestOk(next)
  {
    hide RestOk, StateOf, ScanByte, Scan, Extend, Print, PrintLiteral, Depth;
    ReadingStep(accept, items, rest, b);
    ScanAppends(accept, m, text, b);
  }

  /** The opening quote and the characters of a literal. */
  lemma {:induction false} ScanPieces(accept: Consumer, items: seq<Item>, rest: Rest, body: seq<Piece>)
    requires rest.Reading? && rest.literal.Outside? && RestOk(rest) && PiecesOk(body)
    requires |Print(rest.tokens)| + |PrintPieces(body)| + 1 <= MAX_ENVELOPE
    ensures var next := rest.(literal := Within(body, false));
            Scan(accept, StateOf(items, rest), [QUOTE] + PrintPieces(body)) == StateOf(items, next) && RestOk(next)
  {
    hide StateOf, ScanByte, Scan, Print, Depth, Unclosed, Opens, Closes, PrintPieces;
    var m := StateOf(items, rest);
    if body == [] {
      PrintNoPieces();
      assert [QUOTE] + PrintPieces([]) == [] + [QUOTE];
      ScanNothing(accept, m);
      QuoteIsNoBracket();
      ScanReading(accept, m, [], items, rest, QUOTE);
    } else {
      var most, last := body[..|body| - 1], body[|body| - 1];
      assert body == most + [last];
      PrintPiecesAppends(most, last);
      assert PieceOk(last) && PiecesOk(most);
      ScanPieces(accept, items, rest, most);
      ScanPiece(accept, StateOf(items, rest), [QUOTE] + PrintPieces(most), items, rest, most, last);
    }
  }

  lemma ScanPiece(accept: Consumer, m: Machine, text: seq<Byte>, items: seq<Item>, rest: Rest, most: seq<Piece>,
      last: Piece)
    requires rest.Reading? && RestOk(rest.(literal := Within(most, false))) && PieceOk(last)
    requires |Print(rest.tokens)| + |PrintPieces(most + [last])| + 1 <= MAX_ENVELOPE
    requires Scan(accept, m, text) == StateOf(items, rest.(literal := Within(most, false)))
        && text == [QUOTE] + PrintPieces(most)
    ensures var next := rest.(literal := Within(most + [last], false));
            Scan(accept, m, [QUOTE] + PrintPieces(most + [last])) == StateOf(items, next) && RestOk(next)
  {
    hide StateOf, ScanByte, Scan, Print, Depth, Unclosed, Opens, Closes, RestOk, PrintPieces;
    var here := rest.(literal := Within(most, false));
    PrintPiecesAppends(most, last);
    assert |PrintLiteral(here.literal)| == |PrintPieces(most)| + 1;
    if last.Plain? {
      ScanReading(accept, m, text, items, here, last.b);
      assert [QUOTE] + PrintPieces(most + [last]) == text + [last.b];
    } else {
      ScanReading(accept, m, text, items, here, BACKSLASH);
      var after := rest.(literal := Within(most, true));
      assert |PrintLiteral(after.literal)| == |PrintPieces(most)| + 2;
      ScanReading(accept, m, text + [BACKSLASH], items, after, last.b);
      assert [QUOTE] + PrintPieces(most + [last]) == text + [BACKSLASH] + [last.b];
    }
  }

  lemma ScanNothing(accept: Consumer, m: Machine)
    ensures Scan(accept, m, []) == m
  {
  }

  lemma QuoteIsNoBracket()
    ensures !Opens(QUOTE) && !Closes(QUOTE) && !Closes(BACKSLASH)
  {
  }

  lemma ScanToken(accept: Consumer, items: seq<Item>, rest: Rest, token: Token)
    requires rest.Reading? && rest.literal.Outside? && RestOk(rest) && TokenOk(token)
    requires |Print(rest.tokens + [token])| <= MAX_ENVELOPE && Depth(rest.tokens) + Delta(token) > 0
    ensures var next := rest.(tokens := rest.tokens + [token]);
            Scan(accept, StateOf(items, rest), PrintToken(token)) == StateOf(items, next) && RestOk(next)
  {
    hide StateOf, ScanByte, Scan, Print, Depth, Unclosed, PrintPieces;
    var m := StateOf(items, rest);
    PrintAppends(rest.tokens, token);
    ScanNothing(accept, m);
    if token.Str? {
      ScanPieces(accept, items, rest, token.body);
      ScanReading(accept, m, [QUOTE] + PrintPieces(token.body), items, rest.(literal := Within(token.body, false)),
          QUOTE);
    } else {
      assert PrintToken(token) == [] + [token.b];
      ScanReading(accept, m, [], items, rest, token.b);
    }
  }

  lemma UnclosedPrefix(tokens: seq<Token>, k: nat)
    requires Unclosed(tokens) && 0 < k <= |tokens|
    ensures Unclosed(tokens[..k]) && Depth(tokens[..k]) > 0
  {
    forall j | 0 < j <= k ensures Depth(tokens[..k][..j]) > 0 {
      assert tokens[..k][..j] == tokens[..j];
    }
  }

  lemma {:induction false} ScanTokens(accept: Consumer, items: seq<Item>, gap: seq<Byte>, tokens: seq<Token>)
    requires Unclosed(tokens) && |Print(tokens)| <= MAX_ENVELOPE && GapOk(gap)
    ensures var next := Reading(gap, tokens, Outside);
            Scan(accept, StateOf(items, Gap([])), Print(tokens)) == StateOf(items, next) && RestOk(next)
  {
    hide Scan, ScanByte, Depth, StateOf, PrintPieces, RestOk;
    var m := StateOf(items, Gap([]));
    var most, last := tokens[..|tokens| - 1], tokens[|tokens| - 1];
    assert tokens == most + [last];
    PrintAppends(most, last);
    if most == [] {
      ScanOpening(accept, items, gap, tokens, last);
    } else {
      UnclosedPrefix(tokens, |tokens| - 1);
      assert tokens[..|tokens|] == tokens;
      ScanTokens(accept, items, gap, most);
      ScanToken(accept, items, Reading(gap, most, Outside), last);
      ScanInTwo(accept, m, Print(most), PrintToken(last));
    }
  }

  lemma ScanOpening(accept: Consumer, items: seq<Item>, gap: seq<Byte>, tokens: seq<Token>, first: Token)
    requires Unclosed(tokens) && tokens == [first] && GapOk(gap)
    ensures var next := Reading(gap, tokens, Outside);
            Scan(accept, StateOf(items, Gap([])), Print(tokens)) == StateOf(items, next) && RestOk(next)
  {
    hide Scan, Print, Depth, Unclosed, StateOf, RestOk;
    FirstIsOpen(tokens, first);
    FirstToken(first.b);
    var m := StateOf(items, Gap([]));
    ScanNothing(accept, m);
    ScanAppends(accept, m, [], first.b);
    assert [] + [first.b] == Print(tokens);
    OpeningStep(accept, items, gap, first.b);
  }

  lemma FirstIsOpen(tokens: seq<Token>, first: Token)
    requires Unclosed(tokens) && tokens == [first]
    ensures first.Open? && Opens(first.b)
  {
    assert tokens == [] + [first] && tokens[..1] == tokens;
    PrintAppends([], first);
  }

  lemma OpeningStep(accept: Consumer, items: seq<Item>, gap: seq<Byte>, b: Byte)
    requires Opens(b) && GapOk(gap)
    ensures var next := Reading(gap, [Open(b)], Outside);
            ScanByte(accept, StateOf(items, Gap([])), b) == StateOf(items, next) && RestOk(next)
  {
    hide Print, Depth, Unclosed;
    FirstToken(b);
    assert !Separator(b, true) && b != RIGHT_BRACKET;
  }

  lemma ScanContainer(accept: Consumer, items: seq<Item>, item: Item)
    requires Container(item.tokens) && |Print(item.tokens)| <= MAX_ENVELOPE && GapOk(item.gap)
    requires accept(Frames(items), Print(item.tokens))
    ensures Scan(accept, StateOf(items, Gap([])), Print(item.tokens)) == StateOf(items + [item], Gap([]))
  {
    hide Scan, ScanByte, StateOf, PrintPieces, Unclosed, PrintRest, Render, RestOk, Depth;
    var tokens := item.tokens;
    var most, last := tokens[..|tokens| - 1], tokens[|tokens| - 1];
    assert tokens == most + [last];
    PrintAppends(most, last);
    LastCloses(tokens, most, last);
    ScanTokens(accept, items, item.gap, most);
    assert PrintLiteral(Outside) == [];
    ClosingStep(accept, items, Reading(item.gap, most, Outside), last.b);
    ScanAppends(accept, StateOf(items, Gap([])), Print(most), last.b);
  }

  lemma LastCloses(tokens: seq<Token>, most: seq<Token>, last: Token)
    requires Container(tokens) && tokens == most + [last]
    ensures Unclosed(most) && last.Close? && Closes(last.b) && Depth(most) == 1
  {
    assert most == tokens[..|tokens| - 1] && most[..|most|] == most;
    PrintAppends(most, last);
    assert TokenOk(tokens[|tokens| - 1]);
  }

  lemma {:induction false} ScanItems(accept: Consumer, items: seq<Item>)
    requires ItemsOk(items) && AllTaken(accept, Frames(items))
    ensures Scan(accept, Init, Render(items)) == StateOf(items, Gap([]))
  {
    hide Scan, StateOf, Container, Print;
    if items == [] {
      Nothing();
      ScanNothing(accept, Init);
    } else {
      var most, last := items[..|items| - 1], items[|items| - 1];
      assert Frames(most) == Frames(items)[..|most|];
      forall k | 0 <= k < |most| ensures accept(Frames(most)[..k], Frames(most)[k]) {
        assert Frames(most)[..k] == Frames(items)[..k];
      }
      ScanItems(accept, most);
      ScanInTwo(accept, Init, Render(most), last.gap + Print(last.tokens));
      ScanInTwo(accept, StateOf(most, Gap([])), last.gap, Print(last.tokens));
      ScanGap(accept, most, last.gap);
      ScanContainer(accept, most, last);
      assert items == most + [last];
    }
  }

  // ----- The theorems ---------------------------------------------------------------------------------

  /** A complete body: containers, a last gap, the end marker and white space. */
  ghost predicate Complete(items: seq<Item>, gap: seq<Byte>, blank: seq<Byte>, text: seq<Byte>) {
    && ItemsOk(items) && GapOk(gap) && Blank(blank)
    && text == Render(items) + PrintRest(Ended(gap, blank))
  }

  /** The body is complete, its containers are these frames, and the consumer takes each in turn. */
  ghost predicate Describes(accept: Consumer, text: seq<Byte>, frames: seq<seq<Byte>>) {
    AllTaken(accept, frames) && exists items, gap, blank :: Complete(items, gap, blank, text) && Frames(items) == frames
  }

  lemma CompleteIsScanned(accept: Consumer, items: seq<Item>, gap: seq<Byte>, blank: seq<Byte>, text: seq<Byte>)
    requires Complete(items, gap, blank, text) && AllTaken(accept, Frames(items))
    ensures Scan(accept, Init, text) == StateOf(items, Ended(gap, blank))
  {
    hide Scan, Print, Render, Container;
    var end := [RIGHT_BRACKET] + [RIGHT_BRACKET];
    ScanItems(accept, items);
    assert PrintRest(Ended(gap, blank)) == gap + (end + blank);
    ScanInTwo(accept, Init, Render(items), gap + (end + blank));
    ScanInTwo(accept, StateOf(items, Gap([])), gap, end + blank);
    ScanGap(accept, items, gap);
    ScanInTwo(accept, StateOf(items, Gap([])), end, blank);
    ScanNothing(accept, StateOf(items, Gap([])));
    ScanAppends(accept, StateOf(items, Gap([])), [], RIGHT_BRACKET);
    assert [] + [RIGHT_BRACKET] == [RIGHT_BRACKET];
    ScanAppends(accept, StateOf(items, Gap([])), [RIGHT_BRACKET], RIGHT_BRACKET);
    ScanBlank(accept, items, gap, blank);
  }

  /** The scanner ends cleanly with these frames exactly when the body is complete and these are its containers. */
  lemma ScannerAcceptsExactlyCompleteBodies(accept: Consumer, text: seq<Byte>, frames: seq<seq<Byte>>)
    ensures var m := Scan(accept, Init, text);
            m.error.None? && m.ended && m.emitted == frames <==> Describes(accept, text, frames)
  {
    hide Scan, Render, Container, Print;
    var m := Scan(accept, Init, text);
    if m.error.None? && m.ended {
      var items, rest := Understand(accept, text);
      assert rest.Ended?;
      assert Complete(items, rest.gap, rest.blank, text) && Frames(items) == m.emitted;
    }
    if Describes(accept, text, frames) {
      var items, gap, blank :| Complete(items, gap, blank, text) && Frames(items) == frames;
      CompleteIsScanned(accept, items, gap, blank, text);
    }
  }

  lemma DepthStaysPositive(accept: Consumer, m: Machine, b: Byte)
    requires m.started && m.error.None? ==> m.depth > 0
    requires m.depth >= 0 && m.error != Some(NegativeDepth)
    ensures var next := ScanByte(accept, m, b); next.depth >= 0 && next.error != Some(NegativeDepth)
  {
  }

  /** The depth check never fires: no input makes the nesting negative. */
  lemma {:induction false} DepthNeverNegative(accept: Consumer, text: seq<Byte>)
    ensures Scan(accept, Init, text).depth >= 0 && Scan(accept, Init, text).error != Some(NegativeDepth)
  {
    hide ScanByte, Render, Print, Container, Depth;
    if text != [] {
      var before, b := text[..|text| - 1], text[|text| - 1];
      DepthNeverNegative(accept, before);
      if Scan(accept, Init, before).error.None? {
        var items, rest := Understand(accept, before);
        if rest.Reading? {
          UnclosedPrefix(rest.tokens, |rest.tokens|);
          assert rest.tokens[..|rest.tokens|] == rest.tokens;
        }
      }
      DepthStaysPositive(accept, Scan(accept, Init, before), b);
    }
  }
}
