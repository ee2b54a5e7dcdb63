/** Static GIF images: the structural validator accepts exactly the files with one
    image inside the canvas and nothing after the trailer. */
module Gif {
  import opened Wrappers
  import opened Octets
  import Rasters

  const EXTENSION: Byte := 0x21
  const IMAGE: Byte := 0x2c
  const TRAILER: Byte := 0x3b

  const GIF87A: Bytes := [0x47, 0x49, 0x46, 0x38, 0x37, 0x61]
  const GIF89A: Bytes := [0x47, 0x49, 0x46, 0x38, 0x39, 0x61]

  /** Sub-blocks of 1 to 255 bytes. */
  type Subs = seq<Bytes>

  datatype Block =
    | Extension(kind: Byte, subs: Subs)
    | Image(descriptor: Bytes, table: Bytes, codeSize: Byte, subs: Subs)

  datatype File = File(header: Bytes, table: Bytes, blocks: seq<Block>)

  /** The length of the colour table a flags byte announces. */
  function TableSize(flags: Byte): nat { if flags < 0x80 then 0 else 3 * (2 * Pow2(flags % 8)) }

  /** Three bytes for each of the 2 to 256 colours, when the top bit says that there is a table. */
  lemma TableSizes(flags: Byte, present: bool, middle: nat, low: nat)
    requires middle < 16 && low < 8 && flags == (if present then 128 else 0) + middle * 8 + low
    ensures TableSize(flags) == if present then 3 * [2, 4, 8, 16, 32, 64, 128, 256][low] else 0
  {
    assert flags % 8 == low;
    assert Pow2(0) == 1 && Pow2(2) == 4;
    assert Pow2(4) == 16 && Pow2(6) == 64;
  }

  predicate SubsFit(subs: Subs) { forall k | 0 <= k < |subs| :: 1 <= |subs[k]| <= 255 }

  predicate BlockFits(block: Block) {
    && SubsFit(block.subs)
    && (block.Image? ==> |block.descriptor| == 9 && |block.table| == TableSize(block.descriptor[8]))
  }

  predicate BlocksFit(blocks: seq<Block>) { forall k | 0 <= k < |blocks| :: BlockFits(blocks[k]) }

  function RenderSubs(subs: Subs): Bytes
    requires SubsFit(subs)
  {
    if subs == [] then [0] else [|subs[0]|] + subs[0] + RenderSubs(subs[1..])
  }

  function RenderBlock(block: Block): Bytes
    requires BlockFits(block)
  {
    match block
    case Extension(kind, subs) => [EXTENSION, kind] + RenderSubs(subs)
    case Image(descriptor, table, codeSize, subs) =>
      [IMAGE] + descriptor + table + [codeSize] + RenderSubs(subs)
  }

  function Render(blocks: seq<Block>): Bytes
    requires BlocksFit(blocks)
  {
    if blocks == [] then [TRAILER] else RenderBlock(blocks[0]) + Render(blocks[1..])
  }

  predicate FileFits(file: File) {
    |file.header| == 13 && |file.table| == TableSize(file.header[10]) && BlocksFit(file.blocks)
  }

  function RenderFile(file: File): Bytes
    requires FileFits(file)
  {
    file.header + file.table + Render(file.blocks)
  }

  // ----- What a static image is -------------------------------------------------------------------

  function Word16(b: Bytes, k: nat): nat
    requires k + 1 < |b|
  {
    Word(b[k], b[k + 1], 0, 0)
  }

  /** Sizes and positions are stored in two bytes, the low one first. */
  lemma StoredWordIsRead(front: Bytes, x: nat, tail: Bytes)
    requires x < 0x1_0000
    ensures Word16(front + LittleEndian32(x)[..2] + tail, |front|) == x
  {
    var all := front + LittleEndian32(x)[..2] + tail;
    assert all[|front|] == x % 0x100 && all[|front| + 1] == x / 0x100 % 0x100;
  }

  /** Width and height are at least one and within the pixel limit. */
  predicate SizeOk(width: nat, height: nat, maxPixels: nat) {
    Rasters.ValidDimensions(Rasters.Dimensions(width, height), maxPixels)
  }

  predicate HeaderOk(header: Bytes, maxPixels: nat) {
    && |header| == 13 && (header[..6] == GIF87A || header[..6] == GIF89A)
    && SizeOk(Word16(header, 6), Word16(header, 8), maxPixels)
  }

  /** The image lies inside the canvas. */
  predicate InCanvas(header: Bytes, descriptor: Bytes)
    requires |header| == 13 && |descriptor| == 9
  {
    && Word16(descriptor, 0) + Word16(descriptor, 4) <= Word16(header, 6)
    && Word16(descriptor, 2) + Word16(descriptor, 6) <= Word16(header, 8)
  }

  predicate BlockOk(header: Bytes, block: Block, maxPixels: nat)
    requires |header| == 13
  {
    block.Image? ==>
      && |block.descriptor| == 9 && InCanvas(header, block.descriptor) && 2 <= block.codeSize <= 8
      && SizeOk(Word16(block.descriptor, 4), Word16(block.descriptor, 6), maxPixels)
  }

  /** The rules for an image by position and product: inside the canvas on both axes, with pixels, within the
      limit, and with a code size of 2 to 8 bits. */
  lemma ImageRules(header: Bytes, block: Block, maxPixels: nat)
    requires |header| == 13 && block.Image? && |block.descriptor| == 9
    ensures BlockOk(header, block, maxPixels) <==>
              var at := (k: nat) requires k < 8 => block.descriptor[k] as int + 256 * block.descriptor[k + 1] as int;
              && at(0) + at(4) <= header[6] as int + 256 * header[7] as int
              && at(2) + at(6) <= header[8] as int + 256 * header[9] as int
              && 0 < at(4) * at(6) <= maxPixels && 2 <= block.codeSize <= 8
  {
    var width, height := Word16(block.descriptor, 4), Word16(block.descriptor, 6);
    Rasters.ValidDimensionsIsPixelLimit(Rasters.Dimensions(width, height), maxPixels);
    Rasters.PositiveProduct(width, height);
  }

  predicate BlocksOk(header: Bytes, blocks: seq<Block>, maxPixels: nat)
    requires |header| == 13
  {
    forall k | 0 <= k < |blocks| :: BlockOk(header, blocks[k], maxPixels)
  }

  function Images(blocks: seq<Block>): nat {
    if blocks == [] then 0 else Images(blocks[..|blocks| - 1]) + if blocks[|blocks| - 1].Image? then 1 else 0
  }

  predicate Static(file: File, maxPixels: nat) {
    HeaderOk(file.header, maxPixels) && BlocksOk(file.header, file.blocks, maxPixels) && Images(file.blocks) == 1
  }

  ghost predicate Holds(input: Bytes, file: File) { FileFits(file) && input == RenderFile(file) }

  ghost predicate Accepted(input: Bytes, maxPixels: nat) {
    exists file :: Holds(input, file) && Static(file, maxPixels)
  }

  // ----- Reading ------------------------------------------------------------------------------------

  function FirstSubs(rest: Bytes): Option<Subs>
    decreases |rest|
  {
    if rest == [] then None
    else if rest[0] == 0 then Some([])
    else
      var n: nat := rest[0];
      if |rest| < 1 + n then None
      else match FirstSubs(rest[1 + n..]) case None => None case Some(subs) => Some([rest[1..1 + n]] + subs)
  }

  lemma {:induction false} SubsRender(rest: Bytes)
    requires FirstSubs(rest).Some?
    ensures var subs := FirstSubs(rest).value;
            SubsFit(subs) && |RenderSubs(subs)| <= |rest| && rest[..|RenderSubs(subs)|] == RenderSubs(subs)
    decreases |rest|
  {
    if rest[0] != 0 {
      var size: int := rest[0];
      SubsRender(rest[1 + size..]);
      var more := FirstSubs(rest[1 + size..]).value;
      SubsJoin(rest, size, more);
      assert FirstSubs(rest).value == [rest[1..1 + size]] + more;
    }
  }

  lemma SubsJoin(rest: Bytes, size: nat, more: Subs)
    requires 1 <= size <= 255 && 1 + size <= |rest| && rest[0] == size && SubsFit(more)
    requires |RenderSubs(more)| <= |rest| - 1 - size && rest[1 + size..][..|RenderSubs(more)|] == RenderSubs(more)
    ensures var subs := [rest[1..1 + size]] + more;
            SubsFit(subs) && |RenderSubs(subs)| <= |rest| && rest[..|RenderSubs(subs)|] == RenderSubs(subs)
  {
    var subs, n, m := [rest[1..1 + size]] + more, 1 + size, |RenderSubs(more)|;
    assert subs[1..] == more;
    assert rest[..n + m] == [rest[0]] + rest[1..n] + rest[n..][..m];
  }

  lemma {:induction false} RenderedSubsAreRead(subs: Subs, tail: Bytes)
    requires SubsFit(subs)
    ensures FirstSubs(RenderSubs(subs) + tail) == Some(subs)
    decreases |subs|
  {
    var all := RenderSubs(subs) + tail;
    if subs != [] {
      var n := 1 + |subs[0]|;
      RenderedSubsAreRead(subs[1..], tail);
      assert all[0] == |subs[0]| && all[1..n] == subs[0] && all[n..] == RenderSubs(subs[1..]) + tail;
      assert [subs[0]] + subs[1..] == subs;
    }
  }

  /** The offset of the sub-blocks of the block at the start of `rest`, when that much is there. */
  function SubsOffset(rest: Bytes): Option<nat> {
    if rest == [] then None
    else if rest[0] == EXTENSION then (if |rest| < 2 then None else Some(2))
    else if rest[0] == IMAGE then
      if |rest| < 10 then None
      else var n := 11 + TableSize(rest[9]); if |rest| < n then None else Some(n)
    else None
  }

  function FirstBlock(rest: Bytes): Option<Block> {
    match SubsOffset(rest)
    case None => None
    case Some(n) =>
      match FirstSubs(rest[n..])
      case None => None
      case Some(subs) =>
        if rest[0] == EXTENSION then Some(Extension(rest[1], subs))
        else Some(Image(rest[1..10], rest[10..n - 1], rest[n - 1], subs))
  }

  lemma BlockRenders(rest: Bytes)
    requires FirstBlock(rest).Some?
    ensures var block := FirstBlock(rest).value;
            && BlockFits(block) && |RenderBlock(block)| == SubsOffset(rest).value + |RenderSubs(block.subs)| <= |rest|
            && rest[..|RenderBlock(block)|] == RenderBlock(block)
  {
    hide FirstSubs, RenderSubs, TableSize;
    var block, n := FirstBlock(rest).value, SubsOffset(rest).value;
    SubsRender(rest[n..]);
    var m := |RenderSubs(block.subs)|;
    assert rest[..n + m] == rest[..n] + rest[n..][..m];
    if block.Extension? {
      assert rest[..2] == [EXTENSION, block.kind];
    } else {
      assert rest[..n] == [IMAGE] + rest[1..10] + rest[10..n - 1] + [rest[n - 1]];
    }
  }

  lemma RenderedBlockIsRead(block: Block, tail: Bytes)
    requires BlockFits(block)
    ensures FirstBlock(RenderBlock(block) + tail) == Some(block)
  {
    hide FirstSubs, RenderSubs, TableSize;
    var all := RenderBlock(block) + tail;
    RenderedSubsAreRead(block.subs, tail);
    if block.Extension? {
      assert all[2..] == RenderSubs(block.subs) + tail;
    } else {
      ImageParts(block.descriptor, block.table, block.codeSize, RenderSubs(block.subs), tail);
    }
  }

  lemma ImageParts(descriptor: Bytes, table: Bytes, codeSize: Byte, subs: Bytes, tail: Bytes)
    requires |descriptor| == 9
    ensures var all, n := [IMAGE] + descriptor + table + [codeSize] + subs + tail, 11 + |table|;
            && |all| >= n && all[0] == IMAGE && all[1..10] == descriptor && all[9] == descriptor[8]
            && all[10..n - 1] == table && all[n - 1] == codeSize && all[n..] == subs + tail
  {
  }

  // ----- Following the blocks -------------------------------------------------------------------------

  /** Where the blocks begin. */
  function Start(input: Bytes): nat
    requires |input| >= 13
  {
    13 + TableSize(input[10])
  }

  /** Whatever file the input holds, its first blocks are these and the rest is at `pos`. */
  ghost predicate Tracks(input: Bytes, pos: nat, done: seq<Block>)
    requires pos <= |input|
  {
    forall file: File | Holds(input, file) ::
      && |input| >= 13 && file.header == input[..13]
      && |done| <= |file.blocks| && file.blocks[..|done|] == done
      && BlocksFit(file.blocks[|done|..]) && input[pos..] == Render(file.blocks[|done|..])
  }

  /** The bytes from the start of the blocks up to `pos` are these blocks. */
  ghost predicate Reads(input: Bytes, start: nat, pos: nat, done: seq<Block>)
    requires start <= pos <= |input|
  {
    BlocksFit(done) && forall more | BlocksFit(more) && input[pos..] == Render(more) ::
        input[start..] == Render(done + more)
  }

  lemma HeldParts(input: Bytes, file: File)
    requires Holds(input, file)
    ensures |input| >= 13 && file.header == input[..13] && Start(input) <= |input|
    ensures file.table == input[13..Start(input)] && input[Start(input)..] == Render(file.blocks)
  {
    hide TableSize, Render;
    assert input[10] == file.header[10];
  }

  lemma TracksStart(input: Bytes)
    requires |input| >= 13 && Start(input) <= |input|
    ensures Tracks(input, Start(input), []) && Reads(input, Start(input), Start(input), [])
  {
    hide Render, TableSize;
    forall file: File | Holds(input, file)
      ensures file.header == input[..13] && BlocksFit(file.blocks[0..])
          && input[Start(input)..] == Render(file.blocks[0..])
    {
      HeldParts(input, file);
      assert file.blocks[0..] == file.blocks;
    }
    forall more: seq<Block> ensures [] + more == more {}
  }

  lemma TracksNext(input: Bytes, start: nat, pos: nat, done: seq<Block>)
    requires start <= pos < |input| && Tracks(input, pos, done) && Reads(input, start, pos, done)
    requires FirstBlock(input[pos..]).Some?
    ensures var block := FirstBlock(input[pos..]).value;
            && BlockFits(block) && pos + |RenderBlock(block)| <= |input|
            && Tracks(input, pos + |RenderBlock(block)|, done + [block])
                && Reads(input, start, pos + |RenderBlock(block)|, done + [block])
  {
    hide FirstBlock, RenderBlock, BlockFits, Holds, SubsOffset, RenderSubs;
    var block := FirstBlock(input[pos..]).value;
    BlockRenders(input[pos..]);
    var n := |RenderBlock(block)|;
    assert input[pos..] == input[pos..][..n] + input[pos + n..];
    forall file: File | Holds(input, file)
      ensures |done| + 1 <= |file.blocks| && file.blocks[..|done| + 1] == done + [block]
      ensures BlocksFit(file.blocks[|done| + 1..]) && input[pos + n..] == Render(file.blocks[|done| + 1..])
    {
      NextOf(file.blocks[|done|..], input[pos..]);
      var rest := file.blocks[|done|..];
      assert rest[1..] == file.blocks[|done| + 1..];
      assert file.blocks[..|done| + 1] == file.blocks[..|done|] + [rest[0]];
      assert input[pos..][n..] == input[pos + n..];
    }
    forall more | BlocksFit(more) && input[pos + n..] == Render(more)
      ensures input[start..] == Render(done + [block] + more)
    {
      var longer := [block] + more;
      assert longer[1..] == more;
      assert BlocksFit(longer) && input[pos..] == Render(longer);
      assert done + longer == done + [block] + more;
    }
  }

  lemma NextOf(blocks: seq<Block>, rest: Bytes)
    requires BlocksFit(blocks) && rest == Render(blocks)
    ensures blocks == [] ==> rest == [TRAILER] && FirstBlock(rest).None?
    ensures blocks != [] ==> FirstBlock(rest) == Some(blocks[0]) && rest[0] != TRAILER
    ensures blocks != [] ==>
              |RenderBlock(blocks[0])| <= |rest| && rest[|RenderBlock(blocks[0])|..] == Render(blocks[1..])
  {
    hide RenderSubs, FirstSubs, TableSize;
    if blocks != [] { RenderedBlockIsRead(blocks[0], Render(blocks[1..])); }
  }

  lemma ImagesAppend(done: seq<Block>, block: Block)
    ensures Images(done + [block]) == Images(done) + if block.Image? then 1 else 0
  {
    assert (done + [block])[..|done|] == done;
  }

  lemma {:induction false} ImagesGrow(done: seq<Block>, more: seq<Block>)
    ensures Images(done) <= Images(done + more)
    decreases |more|
  {
    if more == [] {
      assert done + more == done;
    } else {
      var most, last := more[..|more| - 1], more[|more| - 1];
      assert done + more == (done + most) + [last];
      ImagesAppend(done + most, last);
      ImagesGrow(done, most);
    }
  }

  lemma BadBlockIsNotStatic(file: File, k: nat, maxPixels: nat)
    requires k < |file.blocks| && |file.header| == 13
    requires !BlockOk(file.header, file.blocks[k], maxPixels)
        || (file.blocks[k].Image? && Images(file.blocks[..k]) == 1)
    ensures !Static(file, maxPixels)
  {
    hide BlockOk, HeaderOk;
    var done, block, more := file.blocks[..k], file.blocks[k], file.blocks[k + 1..];
    assert file.blocks == (done + [block]) + more;
    ImagesAppend(done, block);
    ImagesGrow(done + [block], more);
  }

  /** What a held file has next is what is read next. */
  lemma HeldNext(input: Bytes, pos: nat, done: seq<Block>, file: File)
    requires pos <= |input| && Tracks(input, pos, done) && Holds(input, file)
    ensures |input| >= 13 && file.header == input[..13] && |done| <= |file.blocks| && file.blocks[..|done|] == done
    ensures |done| == |file.blocks| ==> input[pos..] == [TRAILER]
    ensures |done| < |file.blocks| ==> FirstBlock(input[pos..]) == Some(file.blocks[|done|])
  {
    hide FirstBlock, Holds, Render, BlocksFit;
    NextOf(file.blocks[|done|..], input[pos..]);
  }

  /** The next block is missing, malformed, refused or a second image. */
  lemma NextRefuses(input: Bytes, pos: nat, done: seq<Block>, maxPixels: nat)
    requires 13 <= |input| && pos <= |input| && Tracks(input, pos, done)
    requires pos == |input| || input[pos] != TRAILER
    requires var next := FirstBlock(input[pos..]);
             next.None? || !BlockOk(input[..13], next.value, maxPixels) || (next.value.Image? && Images(done) == 1)
    ensures !Accepted(input, maxPixels)
  {
    hide FirstBlock, Holds, BlockOk, Tracks, Static, Images;
    forall file: File | Holds(input, file) ensures !Static(file, maxPixels) {
      HeldNext(input, pos, done, file);
      assert input[pos..] != [TRAILER];
      BadBlockIsNotStatic(file, |done|, maxPixels);
    }
  }

  /** At a trailer the input is accepted exactly when nothing follows and one image was seen. */
  lemma TrailerDecides(input: Bytes, pos: nat, done: seq<Block>, maxPixels: nat)
    requires |input| >= 13 && Start(input) <= pos < |input| && input[pos] == TRAILER && HeaderOk(input[..13], maxPixels)
    requires Tracks(input, pos, done) && Reads(input, Start(input), pos, done) && BlocksOk(input[..13], done, maxPixels)
    ensures Accepted(input, maxPixels) <==> pos + 1 == |input| && Images(done) == 1
  {
    hide Render, HeaderOk, BlockOk, TableSize, Holds, Images, BlockFits;
    if pos + 1 == |input| {
      var file := File(input[..13], input[13..Start(input)], done);
      WholeIsHeld(input, pos, done);
      assert Holds(input, file);
    }
    forall file: File | Holds(input, file) ensures pos + 1 == |input| && file.blocks == done
        && file.header == input[..13] {
      var rest := file.blocks[|done|..];
      NextOf(rest, input[pos..]);
      assert file.blocks == file.blocks[..|done|] + rest;
    }
  }

  lemma WholeIsHeld(input: Bytes, pos: nat, done: seq<Block>)
    requires |input| >= 13 && Start(input) <= pos < |input| && input[pos] == TRAILER && pos + 1 == |input|
    requires Reads(input, Start(input), pos, done)
    ensures Holds(input, File(input[..13], input[13..Start(input)], done))
  {
    hide TableSize, BlockFits;
    assert input[pos..] == Render([]) && done + [] == done;
    assert input == input[..13] + input[13..Start(input)] + input[Start(input)..];
  }

  // ----- The validator ----------------------------------------------------------------------------------

  lemma SubsStep(rest: Bytes, seen: Subs)
    requires rest != [] && rest[0] != 0
    ensures var size: int := rest[0];
            if 1 + size > |rest| then FirstSubs(rest) == None
            else
              var tail := FirstSubs(rest[1 + size..]);
              After(seen, FirstSubs(rest)) == After(seen + [rest[1..1 + size]], tail)
  {
    var size: int := rest[0];
    if 1 + size <= |rest| {
      var tail := FirstSubs(rest[1 + size..]);
      assert tail.Some? ==> seen + ([rest[1..1 + size]] + tail.value) == (seen + [rest[1..1 + size]]) + tail.value;
    }
  }

  /** Sub-blocks already passed, put before those still to come. */
  function After(seen: Subs, rest: Option<Subs>): Option<Subs> {
    if rest.None? then None else Some(seen + rest.value)
  }

  /** discardGIFSubBlocks, from `pos`: the position after the terminator. */
  method DiscardSubBlocks(input: Bytes, pos: nat) returns (end: Option<nat>)
    requires pos <= |input|
    ensures end.Some? <==> FirstSubs(input[pos..]).Some?
    ensures end.Some? ==> SubsFit(FirstSubs(input[pos..]).value)
    ensures end.Some? ==> pos + |RenderSubs(FirstSubs(input[pos..]).value)| == end.value <= |input|
  {
    hide FirstSubs, RenderSubs;
    var at := pos;
    ghost var whole := FirstSubs(input[pos..]);
    ghost var seen: Subs := [];
    assert RenderSubs([]) == [0] by { NoSubs([0]); }
    assert whole.Some? ==> [] + whole.value == whole.value;
    while at < |input| && input[at] != 0
      invariant pos <= at <= |input| && SubsFit(seen) && at == pos + |RenderSubs(seen)| - 1
      invariant whole == After(seen, FirstSubs(input[at..]))
      decreases |input| - at
    {
      var size: int := input[at];
      SubsStep(input[at..], seen);
      if at + 1 + size > |input| {
        return None;
      }
      assert input[at..][1 + size..] == input[at + 1 + size..];
      SubsAppend(seen, input[at..][1..1 + size]);
      seen := seen + [input[at..][1..1 + size]];
      at := at + 1 + size;
    }
    NoSubs(input[at..]);
    if at == |input| {
      return None;
    }
    assert seen + [] == seen;
    return Some(at + 1);
  }

  lemma NoSubs(rest: Bytes)
    ensures rest == [] ==> FirstSubs(rest) == None
    ensures rest != [] && rest[0] == 0 ==> FirstSubs(rest) == Some([])
    ensures RenderSubs([]) == [0]
  {
  }

  lemma {:induction false} SubsAppend(seen: Subs, sub: Bytes)
    requires SubsFit(seen) && 1 <= |sub| <= 255
    ensures SubsFit(seen + [sub]) && |RenderSubs(seen + [sub])| == |RenderSubs(seen)| + 1 + |sub|
    decreases |seen|
  {
    if seen == [] {
      assert ([] + [sub])[1..] == [];
    } else {
      assert (seen + [sub])[1..] == seen[1..] + [sub];
      SubsAppend(seen[1..], sub);
    }
  }

  /** One extension or image; the position after it, or None when it is refused. */
  method ReadBlock(input: Bytes, pos: nat, maxPixels: nat) returns (end: Option<nat>, isImage: bool)
    requires |input| >= 13 && pos < |input| && input[pos] != TRAILER
    ensures end.Some? <==>
              FirstBlock(input[pos..]).Some? && BlockOk(input[..13], FirstBlock(input[pos..]).value, maxPixels)
    ensures end.Some? ==> var block := FirstBlock(input[pos..]).value;
                          isImage == block.Image? && BlockFits(block) && end.value == pos + |RenderBlock(block)|
  {
    hide FirstSubs, RenderSubs, TableSize, SizeOk, Word16;
    end, isImage := None, false;
    var rest := input[pos..];
    if rest[0] == EXTENSION {
      if |rest| < 2 {
        return;
      }
      assert rest[2..] == input[pos + 2..];
      end := DiscardSubBlocks(input, pos + 2);
      if end.Some? { BlockRenders(rest); }
    } else if rest[0] == IMAGE {
      isImage := true;
      if |rest| < 10 {
        return;
      }
      var descriptor := rest[1..10];
      var width, height := Word16(descriptor, 4), Word16(descriptor, 6);
      var placed := InCanvas(input[..13], descriptor) && SizeOk(width, height, maxPixels);
      var n := 11 + TableSize(descriptor[8]);
      if !placed || |rest| < n || rest[n - 1] < 2 || rest[n - 1] > 8 {
        return;
      }
      assert rest[n..] == input[pos + n..];
      end := DiscardSubBlocks(input, pos + n);
      if end.Some? { BlockRenders(rest); }
    }
  }

  method ValidateStaticGIF(input: Bytes, maxPixels: nat) returns (ok: bool)
    ensures ok <==> Accepted(input, maxPixels)
  {
    hide Tracks, Reads, FirstBlock, RenderBlock, BlockFits, BlockOk, HeaderOk, TableSize, Render, Holds, Images, Static;
    if |input| < 13 || !HeaderOk(input[..13], maxPixels) || |input| < Start(input) {
      assert !Accepted(input, maxPixels) by {
        forall file: File | Holds(input, file) ensures !Static(file, maxPixels) {
          HeaderDecides(input, file, maxPixels);
        }
      }
      return false;
    }
    var pos, images := Start(input), 0;
    ghost var done: seq<Block> := [];
    TracksStart(input);
    assert Images([]) == 0 by { NoImages(); }
    while pos < |input| && input[pos] != TRAILER
      invariant Start(input) <= pos <= |input| && images == Images(done) <= 1
      invariant Tracks(input, pos, done) && Reads(input, Start(input), pos, done)
      invariant BlocksOk(input[..13], done, maxPixels)
      decreases |input| - pos
    {
      var end, isImage := ReadBlock(input, pos, maxPixels);
      if end.None? || (isImage && images == 1) {
        NextRefuses(input, pos, done, maxPixels);
        return false;
      }
      TracksNext(input, Start(input), pos, done);
      ghost var block := FirstBlock(input[pos..]).value;
      ImagesAppend(done, block);
      BlocksAreNotEmpty(block);
      done := done + [block];
      images := images + if isImage then 1 else 0;
      pos := end.value;
    }
    if pos == |input| {
      assert FirstBlock(input[pos..]).None? by { NothingToRead(input); }
      NextRefuses(input, pos, done, maxPixels);
      return false;
    }
    TrailerDecides(input, pos, done, maxPixels);
    ok := pos + 1 == |input| && images == 1;
  }

  lemma NoImages()
    ensures Images([]) == 0
  {
  }

  lemma NothingToRead(input: Bytes)
    ensures FirstBlock(input[|input|..]).None?
  {
  }

  lemma BlocksAreNotEmpty(block: Block)
    requires BlockFits(block)
    ensures |RenderBlock(block)| > 0
  {
  }

  lemma HeaderDecides(input: Bytes, file: File, maxPixels: nat)
    requires Holds(input, file)
    ensures Static(file, maxPixels) ==> |input| >= 13 && HeaderOk(input[..13], maxPixels) && |input| >= Start(input)
  {
    HeldParts(input, file);
  }
}
