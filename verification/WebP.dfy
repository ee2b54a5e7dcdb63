/** Static WebP images: the structural validator accepts exactly the RIFF files of
    one still image whose canvas agrees with its coded size. */
module WebP {
  import opened Wrappers
  import opened Octets
  import opened Rasters

  /** A RIFF chunk: four bytes of type and a body. */
  datatype Chunk = Chunk(kind: Bytes, body: Bytes)

  const RIFF: Bytes := [0x52, 0x49, 0x46, 0x46]
  const WEBP: Bytes := [0x57, 0x45, 0x42, 0x50]
  const ANIM: Bytes := [0x41, 0x4e, 0x49, 0x4d]
  const ANMF: Bytes := [0x41, 0x4e, 0x4d, 0x46]
  const VP8X: Bytes := [0x56, 0x50, 0x38, 0x58]
  const VP8L: Bytes := [0x56, 0x50, 0x38, 0x4c]
  const VP8: Bytes := [0x56, 0x50, 0x38, 0x20]

  predicate Fits(chunk: Chunk) { |chunk.kind| == 4 && |chunk.body| < 0x1_0000_0000 }

  function Padding(body: Bytes): Bytes { if |body| % 2 != 0 then [0] else [] }

  function RenderChunk(chunk: Chunk): Bytes {
    chunk.kind + LittleEndian32(|chunk.body|) + chunk.body + Padding(chunk.body)
  }

  function Render(chunks: seq<Chunk>): Bytes {
    if chunks == [] then [] else RenderChunk(chunks[0]) + Render(chunks[1..])
  }

  /** The whole file around its chunks. */
  function RenderFile(chunks: seq<Chunk>): Bytes {
    RIFF + LittleEndian32(|Render(chunks)| + 4) + WEBP + Render(chunks)
  }

  // ----- Dimensions --------------------------------------------------------------------------

  function Canvas(body: Bytes): Dimensions
    requires |body| >= 10
  {
    Dimensions(1 + Word(body[4], body[5], body[6], 0), 1 + Word(body[7], body[8], body[9], 0))
  }

  function Lossless(body: Bytes): Dimensions
    requires |body| >= 5
  {
    var bits: nat := LittleEndianValue(body[1..5]);
    Dimensions(bits % 0x4000 + 1, (bits / 0x4000) % 0x4000 + 1)
  }

  function Lossy(body: Bytes): Dimensions
    requires |body| >= 10
  {
    Dimensions(Word(body[6], body[7] % 0x40, 0, 0), Word(body[8], body[9] % 0x40, 0, 0))
  }

  /** A canvas stores both sizes less one, in 24 bits each. */
  lemma StoredCanvasIsRead(front: Bytes, width: nat, height: nat)
    requires |front| == 4 && 0 < width <= 0x100_0000 && 0 < height <= 0x100_0000
    ensures Canvas(front + LittleEndian32(width - 1)[..3] + LittleEndian32(height - 1)[..3])
            == Dimensions(width, height)
  {
    var low, high := LittleEndian32(width - 1), LittleEndian32(height - 1);
    ThreeBytes(width - 1);
    ThreeBytes(height - 1);
    hide LittleEndian32, Word;
    var body := front + low[..3] + high[..3];
    assert body[4] == low[0] && body[5] == low[1] && body[6] == low[2];
    assert body[7] == high[0] && body[8] == high[1] && body[9] == high[2];
  }

  lemma ThreeBytes(x: nat)
    requires x < 0x100_0000
    ensures var b := LittleEndian32(x); Word(b[0], b[1], b[2], 0) == x
  {
    Word32RoundTrip(x);
    hide Word;
    assert LittleEndian32(x)[3] == 0;
  }

  lemma Low14(low: int, rest: int)
    requires 0 <= low < 0x4000
    ensures (low + 0x4000 * rest) % 0x4000 == low && (low + 0x4000 * rest) / 0x4000 == rest
  {
  }

  lemma Low6(low: int, rest: int)
    requires 0 <= low < 0x40
    ensures (low + 0x40 * rest) % 0x40 == low
  {
  }

  /** A lossless image packs both sizes less one into 14 bits each, below the alpha and version bits. */
  lemma StoredLosslessIsRead(width: nat, height: nat, more: nat)
    requires 0 < width <= 0x4000 && 0 < height <= 0x4000 && more < 16
    ensures var bits := (width - 1) + 0x4000 * ((height - 1) + 0x4000 * more);
            Lossless([0x2f] + LittleEndian32(bits)) == Dimensions(width, height)
  {
    var bits := (width - 1) + 0x4000 * ((height - 1) + 0x4000 * more);
    hide LittleEndian32, LittleEndianValue;
    assert ([0x2f] + LittleEndian32(bits))[1..5] == LittleEndian32(bits);
    Word32RoundTrip(bits);
    Low14(width - 1, (height - 1) + 0x4000 * more);
    Low14(height - 1, more);
  }

  /** A lossy image stores each size in 14 bits, below two bits of scaling. */
  lemma StoredLossyIsRead(front: Bytes, width: nat, height: nat, scale: nat, scale': nat)
    requires |front| == 6 && width < 0x4000 && height < 0x4000 && scale < 4 && scale' < 4
    ensures Lossy(front + LittleEndian32(width + 0x4000 * scale)[..2] + LittleEndian32(height + 0x4000 * scale')[..2])
            == Dimensions(width, height)
  {
    LossySize(width, scale);
    LossySize(height, scale');
  }

  lemma LossySize(size: nat, scale: nat)
    requires size < 0x4000 && scale < 4
    ensures var x := size + 0x4000 * scale; Word(x % 0x100, (x / 0x100) % 0x100 % 0x40, 0, 0) == size
  {
    var x, low, high := size + 0x4000 * scale, size % 0x100, size / 0x100;
    assert x == low + (high + 0x40 * scale) * 0x100;
    LowByte(low, high + 0x40 * scale);
    Low6(high, scale);
  }

  function Ascii(text: string): Bytes
    requires forall k | 0 <= k < |text| :: text[k] as int < 128
  {
    seq(|text|, k requires 0 <= k < |text| => text[k] as int)
  }

  /** The chunk types are spelled as their names. */
  lemma TypesAreSpelled()
    ensures RIFF == Ascii("RIFF") && WEBP == Ascii("WEBP") && ANIM == Ascii("ANIM") && ANMF == Ascii("ANMF")
    ensures VP8X == Ascii("VP8X") && VP8L == Ascii("VP8L") && VP8 == Ascii("VP8 ")
  {
  }

  // ----- What a static image is -----------------------------------------------------------------

  predicate IsImage(chunk: Chunk) { chunk.kind == VP8 || chunk.kind == VP8L }

  predicate IsCanvas(chunk: Chunk) { chunk.kind == VP8X }

  predicate ImageOk(chunk: Chunk) {
    if chunk.kind == VP8L then |chunk.body| >= 5 && chunk.body[0] == 0x2f
    else |chunk.body| >= 10 && chunk.body[3..6] == [0x9d, 0x01, 0x2a]
  }

  function Coded(chunk: Chunk): Dimensions
    requires ImageOk(chunk)
  {
    if chunk.kind == VP8L then Lossless(chunk.body) else Lossy(chunk.body)
  }

  predicate ChunkOk(chunk: Chunk, maxPixels: nat) {
    && chunk.kind != ANIM && chunk.kind != ANMF
    && (IsCanvas(chunk) ==>
          |chunk.body| == 10 && (chunk.body[0] / 2) % 2 == 0 && ValidDimensions(Canvas(chunk.body), maxPixels))
    && (IsImage(chunk) ==> ImageOk(chunk) && ValidDimensions(Coded(chunk), maxPixels))
  }

  /** The rules by name, bit and product: no animation chunk; a canvas of ten bytes without the animation bit; an
      image with its signature; and no size without pixels or beyond the limit. */
  lemma ChunkRules(chunk: Chunk, maxPixels: nat)
    ensures ChunkOk(chunk, maxPixels) <==>
              && chunk.kind != Ascii("ANIM") && chunk.kind != Ascii("ANMF")
              && (chunk.kind == Ascii("VP8X") ==>
                    && |chunk.body| == 10 && chunk.body[0] % 4 < 2
                    && Canvas(chunk.body).width * Canvas(chunk.body).height <= maxPixels)
              && (chunk.kind == Ascii("VP8L") ==>
                    && |chunk.body| >= 5 && chunk.body[0] == 0x2f
                    && Lossless(chunk.body).width * Lossless(chunk.body).height <= maxPixels)
              && (chunk.kind == Ascii("VP8 ") ==>
                    && |chunk.body| >= 10 && chunk.body[3..6] == [0x9d, 0x01, 0x2a]
                    && 0 < Lossy(chunk.body).width * Lossy(chunk.body).height <= maxPixels)
  {
    TypesAreSpelled();
    hide Ascii, Canvas, Lossless, Lossy, ValidDimensions;
    if chunk.kind == VP8X && |chunk.body| == 10 {
      SizesArePositive(chunk.body);
      ValidDimensionsIsPixelLimit(Canvas(chunk.body), maxPixels);
    } else if chunk.kind == VP8L && |chunk.body| >= 5 {
      SizesArePositive(chunk.body);
      ValidDimensionsIsPixelLimit(Lossless(chunk.body), maxPixels);
    } else if chunk.kind == VP8 && |chunk.body| >= 10 {
      PositiveProduct(Lossy(chunk.body).width, Lossy(chunk.body).height);
      ValidDimensionsIsPixelLimit(Lossy(chunk.body), maxPixels);
    }
  }

  lemma SizesArePositive(body: Bytes)
    ensures |body| >= 10 ==> Canvas(body).width > 0 && Canvas(body).height > 0
    ensures |body| >= 5 ==> Lossless(body).width > 0 && Lossless(body).height > 0
  {
  }

  predicate ChunksOk(chunks: seq<Chunk>, maxPixels: nat) {
    forall k | 0 <= k < |chunks| :: ChunkOk(chunks[k], maxPixels)
  }

  function Images(chunks: seq<Chunk>): seq<Chunk> {
    if chunks == [] then []
    else Images(chunks[..|chunks| - 1]) + if IsImage(chunks[|chunks| - 1]) then [chunks[|chunks| - 1]] else []
  }

  function Canvases(chunks: seq<Chunk>): seq<Chunk> {
    if chunks == [] then []
    else Canvases(chunks[..|chunks| - 1]) + if IsCanvas(chunks[|chunks| - 1]) then [chunks[|chunks| - 1]] else []
  }

  lemma {:induction false} FilteredOk(chunks: seq<Chunk>, maxPixels: nat)
    requires ChunksOk(chunks, maxPixels)
    ensures forall k | 0 <= k < |Images(chunks)| :: IsImage(Images(chunks)[k]) && ChunkOk(Images(chunks)[k], maxPixels)
    ensures forall k | 0 <= k < |Canvases(chunks)| ::
              IsCanvas(Canvases(chunks)[k]) && ChunkOk(Canvases(chunks)[k], maxPixels)
  {
    if chunks != [] { FilteredOk(chunks[..|chunks| - 1], maxPixels); }
  }

  /** One still image, no animation, every size within the limit, and the last canvas the size of the image. */
  predicate Static(chunks: seq<Chunk>, maxPixels: nat) {
    && ChunksOk(chunks, maxPixels)
    && |Images(chunks)| == 1
    && (FilteredOk(chunks, maxPixels);
        var canvases := Canvases(chunks);
        canvases != [] ==> Canvas(canvases[|canvases| - 1].body) == Coded(Images(chunks)[0]))
  }

  /** The file is a rendering of these chunks. */
  ghost predicate Holds(input: Bytes, chunks: seq<Chunk>) {
    && (forall k | 0 <= k < |chunks| :: Fits(chunks[k]))
    && input == RenderFile(chunks) && |input| < 0x1_0000_0008
  }

  predicate HeaderOk(input: Bytes) {
    |input| >= 12 && input[..4] == RIFF && input[8..12] == WEBP && LittleEndianValue(input[4..8]) + 8 == |input|
  }

  lemma HeldHeader(input: Bytes, chunks: seq<Chunk>)
    requires Holds(input, chunks)
    ensures HeaderOk(input) && input[12..] == Render(chunks)
  {
    hide LittleEndian32, LittleEndianValue, Render, Fits;
    Word32RoundTrip(|Render(chunks)| + 4);
    assert input[4..8] == LittleEndian32(|Render(chunks)| + 4);
  }

  lemma Quarters(input: Bytes)
    requires |input| >= 12
    ensures input == input[..4] + input[4..8] + input[8..12] + input[12..]
  {
  }

  lemma HeaderHolds(input: Bytes, chunks: seq<Chunk>)
    requires HeaderOk(input) && input[12..] == Render(chunks) && forall k | 0 <= k < |chunks| :: Fits(chunks[k])
    ensures Holds(input, chunks)
  {
    hide LittleEndian32, LittleEndianValue, Render, Fits;
    LittleEndianOfValue(input[4..8]);
    assert |Render(chunks)| + 4 == LittleEndianValue(input[4..8]);
    Quarters(input);
  }

  ghost predicate Accepted(input: Bytes, maxPixels: nat) {
    |input| >= 20 && exists chunks :: Holds(input, chunks) && Static(chunks, maxPixels)
  }

  // ----- Reading chunks ----------------------------------------------------------------------------

  /** The chunk at the start of `rest` and its rendered length, when there is room for it. */
  function FirstChunk(rest: Bytes): Option<Chunk> {
    if |rest| < 8 then None
    else
      var size := LittleEndianValue(rest[4..8]);
      if size + size % 2 > |rest| - 8 || (size % 2 != 0 && rest[8 + size] != 0) then None
      else Some(Chunk(rest[..4], rest[8..8 + size]))
  }

  lemma FirstChunkRenders(rest: Bytes)
    requires FirstChunk(rest).Some?
    ensures var chunk := FirstChunk(rest).value;
            && Fits(chunk) && |RenderChunk(chunk)| <= |rest| && rest[..|RenderChunk(chunk)|] == RenderChunk(chunk)
  {
    hide LittleEndian32, LittleEndianValue;
    var chunk := FirstChunk(rest).value;
    LittleEndianOfValue(rest[4..8]);
    var n := |RenderChunk(chunk)|;
    assert rest[..n] == rest[..4] + rest[4..8] + rest[8..8 + |chunk.body|] + rest[8 + |chunk.body|..n];
  }

  lemma RenderedChunkIsRead(chunk: Chunk, rest: Bytes)
    requires Fits(chunk)
    ensures FirstChunk(RenderChunk(chunk) + rest) == Some(chunk)
  {
    hide LittleEndian32, LittleEndianValue;
    Word32RoundTrip(|chunk.body|);
    var all := RenderChunk(chunk) + rest;
    assert all[4..8] == LittleEndian32(|chunk.body|);
    assert all[..4] == chunk.kind && all[8..8 + |chunk.body|] == chunk.body;
  }

  lemma ChunksAreNotEmpty(chunk: Chunk)
    ensures |RenderChunk(chunk)| >= 4
  {
  }

  lemma RenderAppends(chunks: seq<Chunk>, chunk: Chunk)
    ensures Render(chunks + [chunk]) == Render(chunks) + RenderChunk(chunk)
  {
    if chunks == [] {
      assert chunks + [chunk] == [chunk] && [chunk][1..] == [];
    } else {
      assert (chunks + [chunk])[1..] == chunks[1..] + [chunk];
      RenderAppends(chunks[1..], chunk);
    }
  }

  /** Chunks are self-delimiting: a file that begins with rendered chunks holds those chunks. */
  lemma {:induction false} RenderingIsPrefix(done: seq<Chunk>, rest: Bytes, chunks: seq<Chunk>)
    requires forall k | 0 <= k < |done| :: Fits(done[k])
    requires forall k | 0 <= k < |chunks| :: Fits(chunks[k])
    requires Render(done) + rest == Render(chunks)
    ensures |done| <= |chunks| && chunks[..|done|] == done && rest == Render(chunks[|done|..])
    decreases |done|
  {
    hide RenderChunk, FirstChunk, Fits;
    if done == [] {
      assert Render(done) + rest == rest && chunks[0..] == chunks;
    } else {
      var tail := Render(done[1..]) + rest;
      assert Render(done) + rest == RenderChunk(done[0]) + tail;
      RenderedChunkIsRead(done[0], tail);
      ChunksAreNotEmpty(done[0]);
      RenderedChunkIsRead(chunks[0], Render(chunks[1..]));
      assert tail == Render(chunks)[|RenderChunk(done[0])|..] == Render(chunks[1..]);
      RenderingIsPrefix(done[1..], rest, chunks[1..]);
      assert chunks[|done|..] == chunks[1..][|done| - 1..];
      assert chunks[..|done|] == [chunks[0]] + chunks[1..][..|done| - 1];
    }
  }

  // ----- The validator -----------------------------------------------------------------------------

  /** What the loop knows after some chunks. */
  predicate Summary(done: seq<Chunk>, maxPixels: nat, images: nat, canvas: Option<Dimensions>,
      image: Option<Dimensions>) {
    && ChunksOk(done, maxPixels) && images == |Images(done)| <= 1
    && (FilteredOk(done, maxPixels);
        var canvases := Canvases(done);
        && image == (if images == 1 then Some(Coded(Images(done)[0])) else None)
        && canvas == (if canvases == [] then None else Some(Canvas(canvases[|canvases| - 1].body))))
  }

  lemma FiltersAppend(done: seq<Chunk>, chunk: Chunk)
    ensures Images(done + [chunk]) == Images(done) + if IsImage(chunk) then [chunk] else []
    ensures Canvases(done + [chunk]) == Canvases(done) + if IsCanvas(chunk) then [chunk] else []
  {
    assert (done + [chunk])[..|done|] == done;
  }

  lemma NoImageIsCanvas(chunk: Chunk)
    requires IsImage(chunk)
    ensures !IsCanvas(chunk)
  {
    assert VP8X[3] == 0x58 && VP8L[3] == 0x4c && VP8[3] == 0x20;
  }

  lemma {:induction false} ImagesGrow(done: seq<Chunk>, more: seq<Chunk>)
    ensures |Images(done)| <= |Images(done + more)|
    decreases |more|
  {
    if more == [] {
      assert done + more == done;
    } else {
      var most, last := more[..|more| - 1], more[|more| - 1];
      assert done + more == (done + most) + [last];
      FiltersAppend(done + most, last);
      ImagesGrow(done, most);
    }
  }

  lemma HoldsFits(input: Bytes, chunks: seq<Chunk>)
    requires Holds(input, chunks)
    ensures forall k | 0 <= k < |chunks| :: Fits(chunks[k])
  {
  }

  /** If the file holds chunks, those read so far are among them, and so is the next one. */
  lemma NextIsAmong(input: Bytes, done: seq<Chunk>, pos: nat, chunks: seq<Chunk>)
    requires (forall k | 0 <= k < |done| :: Fits(done[k])) && Holds(input, chunks)
    requires 12 <= pos <= |input| && input[12..pos] == Render(done)
    ensures |done| <= |chunks| && chunks[..|done|] == done
    ensures pos == |input| ==> chunks == done
    ensures pos < |input| ==> |done| < |chunks| && FirstChunk(input[pos..]) == Some(chunks[|done|])
  {
    hide Render, FirstChunk, Fits, Holds, HeaderOk;
    HeldHeader(input, chunks);
    HoldsFits(input, chunks);
    assert input[12..] == input[12..pos] + input[pos..];
    RenderingIsPrefix(done, input[pos..], chunks);
    RenderingStarts(chunks[|done|..]);
    assert chunks == chunks[..|done|] + chunks[|done|..];
  }

  lemma RenderingStarts(chunks: seq<Chunk>)
    requires forall k | 0 <= k < |chunks| :: Fits(chunks[k])
    ensures Render(chunks) == [] <==> chunks == []
    ensures chunks != [] ==> FirstChunk(Render(chunks)) == Some(chunks[0])
  {
    hide RenderChunk, FirstChunk, Fits;
    if chunks != [] {
      ChunksAreNotEmpty(chunks[0]);
      RenderedChunkIsRead(chunks[0], Render(chunks[1..]));
    }
  }

  /** No list of chunks makes the file acceptable once the next chunk cannot be read or is refused. */
  lemma NextRefuses(input: Bytes, done: seq<Chunk>, pos: nat, maxPixels: nat)
    requires (forall k | 0 <= k < |done| :: Fits(done[k]))
    requires 12 <= pos < |input| && input[12..pos] == Render(done)
    requires var next := FirstChunk(input[pos..]);
             next.None? || !ChunkOk(next.value, maxPixels) || (IsImage(next.value) && |Images(done)| == 1)
    ensures !Accepted(input, maxPixels)
  {
    hide FirstChunk, Fits, Render, ChunkOk, IsImage, RenderFile;
    forall chunks | Holds(input, chunks) ensures !Static(chunks, maxPixels) {
      NextIsAmong(input, done, pos, chunks);
      var next := chunks[|done|];
      FiltersAppend(done, next);
      assert chunks == (done + [next]) + chunks[|done| + 1..];
      ImagesGrow(done + [next], chunks[|done| + 1..]);
    }
  }

  /** One chunk of the file: what it adds to the summary, or a refusal. */
  method ReadChunk(chunk: Chunk, maxPixels: nat, images: nat, canvas: Option<Dimensions>, image: Option<Dimensions>,
                   ghost done: seq<Chunk>)
    returns (ok: bool, images': nat, canvas': Option<Dimensions>, image': Option<Dimensions>)
    requires Summary(done, maxPixels, images, canvas, image)
    ensures ok <==> ChunkOk(chunk, maxPixels) && !(IsImage(chunk) && images == 1)
    ensures ok ==> Summary(done + [chunk], maxPixels, images', canvas', image')
  {
    hide Lossless, Lossy, Canvas, ValidDimensions, Images, Canvases;
    ok, images', canvas', image' := false, images, canvas, image;
    if chunk.kind == ANIM || chunk.kind == ANMF {
      return;
    }
    if IsImage(chunk) {
      NoImageIsCanvas(chunk);
      images' := images' + 1;
      if images' > 1 {
        return;
      }
    }
    FiltersAppend(done, chunk);
    if chunk.kind == VP8X {
      if |chunk.body| != 10 || (chunk.body[0] / 2) % 2 != 0 {
        return;
      }
      canvas' := Some(Canvas(chunk.body));
      if !ValidDimensions(canvas'.value, maxPixels) {
        return;
      }
    } else if IsImage(chunk) {
      if !ImageOk(chunk) {
        return;
      }
      image' := Some(Coded(chunk));
      if !ValidDimensions(image'.value, maxPixels) {
        return;
      }
    }
    ok := true;
  }

  /** validateStaticWebP accepts exactly the static images. */
  method ValidateStaticWebP(input: Bytes, maxPixels: nat) returns (ok: bool)
    ensures ok <==> Accepted(input, maxPixels)
  {
    hide HeaderOk, ChunkOk, IsImage, RenderChunk, Render, FirstChunk, Summary, Images, Canvases, Holds, Static;
    if |input| < 20 || !HeaderOk(input) {
      assert !Accepted(input, maxPixels) by {
        forall chunks | Holds(input, chunks) ensures HeaderOk(input) { HeldHeader(input, chunks); }
      }
      return false;
    }
    var pos, images: nat, canvas: Option<Dimensions>, image: Option<Dimensions> := 12, 0, None, None;
    ghost var done: seq<Chunk> := [];
    NothingDone(maxPixels);
    while pos < |input|
      invariant 12 <= pos <= |input| && input[12..pos] == Render(done)
      invariant forall k | 0 <= k < |done| :: Fits(done[k])
      invariant Summary(done, maxPixels, images, canvas, image)
    {
      var next := FirstChunk(input[pos..]);
      if next.None? {
        NextRefuses(input, done, pos, maxPixels);
        return false;
      }
      var good;
      ghost var before := images;
      SummaryCounts(done, maxPixels, images, canvas, image);
      good, images, canvas, image := ReadChunk(next.value, maxPixels, images, canvas, image, done);
      if !good {
        NextRefuses(input, done, pos, maxPixels);
        return false;
      }
      FirstChunkRenders(input[pos..]);
      ChunksAreNotEmpty(next.value);
      RenderAppends(done, next.value);
      var n := |RenderChunk(next.value)|;
      assert input[12..pos + n] == input[12..pos] + input[pos..][..n];
      done := done + [next.value];
      pos := pos + n;
    }
    assert input[12..pos] == input[12..];
    HeaderHolds(input, done);
    ok := images == 1 && (canvas.Some? ==> canvas == image);
    Decide(input, done, maxPixels, images, canvas, image);
  }

  lemma NothingDone(maxPixels: nat)
    ensures Render([]) == [] && Summary([], maxPixels, 0, None, None)
  {
  }

  lemma SummaryCounts(done: seq<Chunk>, maxPixels: nat, images: nat, canvas: Option<Dimensions>,
      image: Option<Dimensions>)
    requires Summary(done, maxPixels, images, canvas, image)
    ensures images == |Images(done)|
  {
  }

  lemma Decide(input: Bytes, done: seq<Chunk>, maxPixels: nat, images: nat, canvas: Option<Dimensions>,
      image: Option<Dimensions>)
    requires |input| >= 20 && Holds(input, done) && Summary(done, maxPixels, images, canvas, image)
    ensures Accepted(input, maxPixels) <==> images == 1 && (canvas.Some? ==> canvas == image)
    ensures Accepted(input, maxPixels) <==> Static(done, maxPixels)
  {
    hide RenderFile, Images, Canvases, ChunkOk, FirstChunk, Fits;
    assert Static(done, maxPixels) <==> images == 1 && (canvas.Some? ==> canvas == image);
    forall chunks | Holds(input, chunks) ensures chunks == done {
      FilesAreUnambiguous(input, done, chunks);
    }
  }

  /** A file holds at most one list of chunks. */
  lemma FilesAreUnambiguous(input: Bytes, left: seq<Chunk>, right: seq<Chunk>)
    requires Holds(input, left) && Holds(input, right)
    ensures left == right
  {
    hide Holds, Render;
    HeldHeader(input, left);
    HoldsFits(input, left);
    assert input[12..|input|] == Render(left);
    NextIsAmong(input, left, |input|, right);
  }

  // ----- The reported dimensions ----------------------------------------------------------------------

  /** webPDimensions on the first 32 bytes of the file. */
  function HeaderDimensions(header: Bytes): Option<Dimensions> {
    if |header| < 30 then None
    else
      var kind, body := header[12..16], header[20..];
      if kind == VP8X then Some(Canvas(body))
      else if kind == VP8L then (if body[0] != 0x2f then None else Some(Lossless(body)))
      else if kind == VP8 then (if body[3..6] != [0x9d, 0x01, 0x2a] then None else Some(Lossy(body)))
      else None
  }

  datatype Inspection = Image(dimensions: Dimensions) | Unsupported | PixelLimit

  /** inspectImage on a file that starts like a WebP file. */
  method InspectWebP(input: Bytes, maxPixels: nat) returns (r: Inspection)
    ensures r != PixelLimit
    ensures r.Image? <==> Accepted(input, maxPixels) && |input| >= 30 && input[12..16] in {VP8X, VP8L, VP8}
    ensures r.Image? ==> HeaderDimensions(input[..if |input| < 32 then |input| else 32]) == Some(r.dimensions)
    ensures r.Image? ==> r.dimensions.width * r.dimensions.height <= maxPixels
  {
    hide Accepted, HeaderDimensions, FirstDimensions, ValidDimensions, Holds, Static;
    var header := input[..if |input| < 32 then |input| else 32];
    var ok := ValidateStaticWebP(input, maxPixels);
    if !ok {
      return Unsupported;
    }
    ghost var chunks: seq<Chunk> :| Holds(input, chunks)
        && Static(chunks, maxPixels) by { AcceptedHolds(input, maxPixels); }
    FirstIsReported(input, chunks, maxPixels);
    var dimensions := HeaderDimensions(header);
    if dimensions.Some? { ValidDimensionsIsPixelLimit(dimensions.value, maxPixels); }
    if dimensions.None? || dimensions.value.width <= 0 || dimensions.value.height <= 0 {
      return Unsupported;
    }
    if !ValidDimensions(dimensions.value, maxPixels) {
      return PixelLimit;
    }
    r := Image(dimensions.value);
  }

  lemma AcceptedHolds(input: Bytes, maxPixels: nat)
    requires Accepted(input, maxPixels)
    ensures exists chunks :: Holds(input, chunks) && Static(chunks, maxPixels)
  {
  }

  /** The dimensions of the first chunk, read from the chunk itself. */
  function FirstDimensions(chunk: Chunk): Dimensions
    requires (IsCanvas(chunk) ==> |chunk.body| >= 10) && (!IsCanvas(chunk) ==> ImageOk(chunk))
  {
    if IsCanvas(chunk) then Canvas(chunk.body) else Coded(chunk)
  }

  /** The fixed offsets of the header fall inside the first chunk. */
  lemma FirstIsReported(input: Bytes, chunks: seq<Chunk>, maxPixels: nat)
    requires Holds(input, chunks) && Static(chunks, maxPixels)
    ensures chunks != [] && |input| >= 20 && input[12..16] == chunks[0].kind
    ensures var header := input[..if |input| < 32 then |input| else 32];
            if |input| >= 30 && (IsCanvas(chunks[0]) || IsImage(chunks[0]))
            then HeaderDimensions(header) == Some(FirstDimensions(chunks[0]))
                && ValidDimensions(FirstDimensions(chunks[0]), maxPixels)
            else HeaderDimensions(header) == None
  {
    hide Lossless, Lossy, Canvas, ValidDimensions, Holds, Render, RenderChunk;
    var chunk := chunks[0];
    HeldHeader(input, chunks);
    FirstOffsets(input, chunks);
    assert ChunkOk(chunk, maxPixels);
    if |input| >= 30 {
      var header := input[..if |input| < 32 then |input| else 32];
      var body, seen := chunk.body, header[20..];
      assert header[12..16] == input[12..16];
      if IsCanvas(chunk) || IsImage(chunk) {
        var n := if chunk.kind == VP8L then 5 else 10;
        SeenIsBody(input, body, |header|, n);
        SamePrefix(seen, body, n);
      }
    }
  }

  /** Reading dimensions looks at no more than the first bytes of a body. */
  lemma SamePrefix(left: Bytes, right: Bytes, n: nat)
    requires n <= |left| && n <= |right| && left[..n] == right[..n]
    ensures n >= 10 ==> Canvas(left) == Canvas(right) && Lossy(left) == Lossy(right) && left[3..6] == right[3..6]
    ensures n >= 5 ==> Lossless(left) == Lossless(right) && left[0] == right[0]
  {
    assert forall k | 0 <= k < n :: left[k] == left[..n][k] && right[k] == right[..n][k];
    if n >= 5 { assert left[1..5] == right[1..5]; }
  }

  lemma SeenIsBody(input: Bytes, body: Bytes, m: nat, n: nat)
    requires 20 + n <= m <= |input| && n <= |body| && 20 + |body| <= |input| && input[20..20 + |body|] == body
    ensures input[..m][20..][..n] == body[..n]
  {
    assert input[..m][20..][..n] == input[20..20 + |body|][..n];
  }

  lemma FirstOffsets(input: Bytes, chunks: seq<Chunk>)
    requires Holds(input, chunks) && chunks != []
    ensures var chunk := chunks[0]; |input| >= 20 + |chunk.body| && input[12..16] == chunk.kind
                                    && input[20..20 + |chunk.body|] == chunk.body
  {
    hide LittleEndian32, LittleEndianValue, RenderFile;
    HeldHeader(input, chunks);
    var chunk, rest := chunks[0], input[12..];
    assert rest == RenderChunk(chunk) + Render(chunks[1..]);
    assert rest[..4] == chunk.kind && rest[8..8 + |chunk.body|] == chunk.body;
    assert input[12..16] == rest[..4] && input[20..20 + |chunk.body|] == rest[8..8 + |chunk.body|];
  }

  /** The size of the one image. */
  function CodedSize(chunks: seq<Chunk>, maxPixels: nat): Dimensions
    requires Static(chunks, maxPixels)
  {
    FilteredOk(chunks, maxPixels);
    Coded(Images(chunks)[0])
  }

  function LastCanvas(chunks: seq<Chunk>, maxPixels: nat): Option<Dimensions>
    requires ChunksOk(chunks, maxPixels)
  {
    FilteredOk(chunks, maxPixels);
    var canvases := Canvases(chunks);
    if canvases == [] then None else Some(Canvas(canvases[|canvases| - 1].body))
  }

  /** The reported size is the coded size exactly when the file does not begin with a canvas, or begins
      with a canvas that agrees with its last one. */
  lemma ReportedIsCoded(input: Bytes, chunks: seq<Chunk>, maxPixels: nat)
    requires Holds(input, chunks) && Static(chunks, maxPixels) && |input| >= 30 && chunks != []
    requires IsCanvas(chunks[0]) || IsImage(chunks[0])
    ensures HeaderDimensions(input[..if |input| < 32 then |input| else 32]) == Some(CodedSize(chunks, maxPixels)) <==>
              IsImage(chunks[0]) || Some(FirstDimensions(chunks[0])) == LastCanvas(chunks, maxPixels)
  {
    hide HeaderDimensions, Images, Canvases, Coded, Canvas, Holds, ChunkOk, ImageOk, IsImage, IsCanvas;
    FilteredOk(chunks, maxPixels);
    FirstIsReported(input, chunks, maxPixels);
    FirstOfKind(chunks);
    if IsImage(chunks[0]) { NoImageIsCanvas(chunks[0]); }
  }

  const LARGE := Chunk(VP8X, [0, 0, 0, 0, 1, 0, 0, 1, 0, 0])
  const SMALL := Chunk(VP8X, [0, 0, 0, 0, 0, 0, 0, 0, 0, 0])
  const PIXEL := Chunk(VP8L, [0x2f, 0, 0, 0, 0])

  lemma SquareCanvas(body: Bytes, n: nat)
    requires |body| == 10 && body[4] == body[7] == n <= 1 && body[0] == body[5] == body[6] == body[8] == body[9] == 0
    ensures Canvas(body) == Dimensions(n + 1, n + 1) && (body[0] / 2) % 2 == 0
  {
  }

  lemma SmallSizes()
    ensures ValidDimensions(Dimensions(1, 1), 4) && ValidDimensions(Dimensions(2, 2), 4)
  {
  }

  lemma ExampleCanvases()
    ensures Canvas(LARGE.body) == Dimensions(2, 2) && Canvas(SMALL.body) == Dimensions(1, 1)
    ensures ChunkOk(LARGE, 4) && ChunkOk(SMALL, 4)
    ensures IsCanvas(LARGE) && IsCanvas(SMALL) && !IsImage(LARGE) && !IsImage(SMALL)
  {
    hide ImageOk, Coded, Canvas, ValidDimensions;
    KindsDiffer();
    SmallSizes();
    SquareCanvas(LARGE.body, 1);
    SquareCanvas(SMALL.body, 0);
  }

  lemma PixelSize(body: Bytes)
    requires |body| == 5 && body[1] == body[2] == body[3] == body[4] == 0
    ensures Lossless(body) == Dimensions(1, 1)
  {
    var bits: nat := LittleEndianValue(body[1..5]);
    assert bits == 0;
  }

  lemma ExampleImage()
    ensures ImageOk(PIXEL) && Coded(PIXEL) == Dimensions(1, 1)
    ensures ChunkOk(PIXEL, 4) && !IsCanvas(PIXEL) && IsImage(PIXEL)
  {
    hide Canvas, Lossy, Lossless, ValidDimensions;
    KindsDiffer();
    SmallSizes();
    PixelSize(PIXEL.body);
  }

  lemma ExampleIsStatic()
    ensures var chunks := [LARGE, SMALL, PIXEL];
            Static(chunks, 4) && CodedSize(chunks, 4) == Dimensions(1, 1) && IsCanvas(chunks[0])
  {
    hide Canvas, Coded, ImageOk, ChunkOk, IsCanvas, IsImage, ValidDimensions;
    ExampleCanvases();
    ExampleImage();
    FiltersAppend([], LARGE);
    FiltersAppend([LARGE], SMALL);
    FiltersAppend([LARGE, SMALL], PIXEL);
    assert [] + [LARGE] == [LARGE] && [LARGE] + [SMALL] == [LARGE, SMALL]
        && [LARGE, SMALL] + [PIXEL] == [LARGE, SMALL, PIXEL];
    assert Images([LARGE, SMALL, PIXEL]) == [PIXEL] && Canvases([LARGE, SMALL, PIXEL]) == [LARGE, SMALL];
  }

  lemma ExampleHolds()
    ensures var chunks := [LARGE, SMALL, PIXEL]; Holds(RenderFile(chunks), chunks) && |RenderFile(chunks)| == 62
  {
    hide LittleEndian32;
    RenderAppends([LARGE, SMALL], PIXEL);
    RenderAppends([LARGE], SMALL);
    RenderAppends([], LARGE);
    assert [] + [LARGE] == [LARGE] && [LARGE] + [SMALL] == [LARGE, SMALL]
        && [LARGE, SMALL] + [PIXEL] == [LARGE, SMALL, PIXEL];
    assert |RenderChunk(LARGE)| == 18 && |RenderChunk(SMALL)| == 18 && |RenderChunk(PIXEL)| == 14;
  }

  /** Two canvases that disagree: the file is accepted, the first canvas is reported, the image is smaller. */
  lemma FirstCanvasCanMislead()
    ensures var chunks := [LARGE, SMALL, PIXEL];
            var input := RenderFile(chunks);
            && Holds(input, chunks) && Static(chunks, 4) && CodedSize(chunks, 4) == Dimensions(1, 1)
            && HeaderDimensions(input[..if |input| < 32 then |input| else 32]) == Some(Dimensions(2, 2))
  {
    hide Holds, Static, RenderFile, CodedSize, HeaderDimensions, Canvas, Coded, ChunkOk, IsCanvas;
    ExampleIsStatic();
    ExampleHolds();
    ExampleCanvases();
    FirstIsReported(RenderFile([LARGE, SMALL, PIXEL]), [LARGE, SMALL, PIXEL], 4);
  }

  lemma KindsDiffer()
    ensures VP8X !in {ANIM, ANMF, VP8L, VP8} && VP8L !in {ANIM, ANMF, VP8X}
  {
    assert VP8X[3] == 0x58 && VP8L[3] == 0x4c && VP8[3] == 0x20;
    assert VP8X[0] == 0x56 && VP8L[0] == 0x56 && ANIM[0] == 0x41 && ANMF[0] == 0x41;
  }

  lemma {:induction false} FirstOfKind(chunks: seq<Chunk>)
    requires chunks != []
    ensures IsImage(chunks[0]) ==> Images(chunks) != [] && Images(chunks)[0] == chunks[0]
    ensures IsCanvas(chunks[0]) ==> Canvases(chunks) != [] && Canvases(chunks)[0] == chunks[0]
  {
    if |chunks| > 1 { FirstOfKind(chunks[..|chunks| - 1]); }
  }
}
