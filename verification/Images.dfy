/** An image's pixel size, read from its first bytes: a PNG's header chunk, or a walk along a JPEG's segments. */
module Images {
  import opened Common

  type byte = x: int | 0 <= x < 256

  datatype Size = Size(width: nat, height: nat)

  const SIGNATURE: seq<byte> := [0x89, 0x50, 0x4E, 0x47, 0x0D, 0x0A, 0x1A, 0x0A]
  const IHDR: seq<byte> := [0x49, 0x48, 0x44, 0x52]
  const SOI: seq<byte> := [0xFF, 0xD8]

  /** How much of an image is fetched to measure it. */
  const MEASURE_BYTES: nat := 65536

  /** The big-endian number in two bytes. */
  function Two(data: seq<byte>, i: nat): nat
    requires i + 2 <= |data|
  {
    256 * (data[i] as int) + data[i + 1] as int
  }

  function Four(data: seq<byte>, i: nat): nat
    requires i + 4 <= |data|
  {
    65536 * Two(data, i) + Two(data, i + 2)
  }

  /** C0 to CF, but for the three in that range that are not frame headers. */
  predicate IsFrame(marker: byte) {
    0xC0 <= marker <= 0xCF && marker != 0xC4 && marker != 0xC8 && marker != 0xCC
  }

  /** Where the walk along the segments from `i` leads. */
  function Walk(data: seq<byte>, i: nat): Option<Size>
    decreases |data| - i
  {
    if i + 9 >= |data| || data[i] != 0xFF then None
    else if data[i + 1] == 0xFF then Walk(data, i + 1)
    else if IsFrame(data[i + 1]) then Some(Size(Two(data, i + 7), Two(data, i + 5)))
    else if Two(data, i + 2) < 2 then None
    else Walk(data, i + 2 + Two(data, i + 2))
  }

  /** The walk as a loop, which never reads past the end and always stops. */
  method Jpeg(data: seq<byte>) returns (size: Option<Size>)
    ensures size == Walk(data, 2)
  {
    var i: nat := 2;
    while i + 9 < |data|
      invariant Walk(data, i) == Walk(data, 2)
      decreases |data| - i
    {
      if data[i] != 0xFF {
        return None;
      }
      if data[i + 1] == 0xFF {
        i := i + 1;
        continue;
      }
      if IsFrame(data[i + 1]) {
        return Some(Size(Two(data, i + 7), Two(data, i + 5)));
      }
      var length := Two(data, i + 2);
      if length < 2 {
        return None;
      }
      i := i + 2 + length;
    }
    return None;
  }

  function Png(data: seq<byte>): Option<Size> {
    if |data| < 24 || data[12..16] != IHDR then None else Some(Size(Four(data, 16), Four(data, 20)))
  }

  function Dimensions(data: seq<byte>): Option<Size> {
    if SIGNATURE <= data then Png(data)
    else if SOI <= data then Walk(data, 2)
    else None
  }

  // ----- what the walk recognises -----

  /** A fill byte, or a length-prefixed segment that is not a frame header. */
  datatype Piece = Fill | Segment(marker: byte, payload: seq<byte>)
  {
    predicate Valid() {
      Segment? ==> marker != 0xFF && !IsFrame(marker) && |payload| + 2 < 65536
    }

    function Bytes(): seq<byte>
      requires Valid()
    {
      match this
      case Fill => [0xFF]
      case Segment(marker, payload) => [0xFF, marker, (|payload| + 2) / 256, (|payload| + 2) % 256] + payload
    }
  }

  predicate ValidChain(pieces: seq<Piece>) {
    forall p :: p in pieces ==> p.Valid()
  }

  function Chain(pieces: seq<Piece>): seq<byte>
    requires ValidChain(pieces)
  {
    if pieces == [] then [] else pieces[0].Bytes() + Chain(pieces[1..])
  }

  /** A frame header as far as its component count: marker, length, precision, height, width. */
  datatype Frame = Frame(marker: byte, length: seq<byte>, precision: byte, height: seq<byte>, width: seq<byte>, components: byte)
  {
    predicate Valid() {
      IsFrame(marker) && |length| == 2 && |height| == 2 && |width| == 2
    }

    function Bytes(): (bytes: seq<byte>)
      requires Valid()
      ensures |bytes| == 10
    {
      [0xFF, marker] + length + [precision] + height + width + [components]
    }

    function Measures(): Size
      requires Valid()
    {
      Size(Two(width, 0), Two(height, 0))
    }
  }

  /** The data has these bytes at position `i`. */
  ghost predicate At(data: seq<byte>, i: nat, bytes: seq<byte>) {
    i + |bytes| <= |data| && forall k :: 0 <= k < |bytes| ==> data[i + k] == bytes[k]
  }

  lemma AtJoin(data: seq<byte>, i: nat, x: seq<byte>, y: seq<byte>)
    ensures At(data, i, x + y) <==> At(data, i, x) && At(data, i + |x|, y)
  {
    var xy := x + y;
    if At(data, i, xy) {
      forall k | 0 <= k < |x| ensures data[i + k] == x[k] {
        assert xy[k] == x[k];
      }
      forall k | 0 <= k < |y| ensures data[i + |x| + k] == y[k] {
        assert xy[|x| + k] == y[k] && data[i + (|x| + k)] == xy[|x| + k];
      }
    }
    if At(data, i, x) && At(data, i + |x|, y) {
      forall k | 0 <= k < |xy| ensures data[i + k] == xy[k] {
        if |x| <= k {
          assert data[i + |x| + (k - |x|)] == y[k - |x|];
        }
      }
    }
  }

  /** The pieces one after the other from position `i`, then the frame header. */
  ghost predicate ChainAt(data: seq<byte>, i: nat, pieces: seq<Piece>, frame: Frame)
    decreases |pieces|
  {
    frame.Valid() &&
    if pieces == [] then At(data, i, frame.Bytes())
    else
      && pieces[0].Valid() && At(data, i, pieces[0].Bytes())
      && ChainAt(data, i + |pieces[0].Bytes()|, pieces[1..], frame)
  }

  lemma {:induction false} ChainAtIs(data: seq<byte>, i: nat, pieces: seq<Piece>, frame: Frame)
    requires ValidChain(pieces) && frame.Valid()
    ensures At(data, i, Chain(pieces) + frame.Bytes()) <==> ChainAt(data, i, pieces, frame)
    decreases |pieces|
  {
    if pieces == [] {
      assert [] + frame.Bytes() == frame.Bytes();
    } else {
      assert pieces[0] in pieces && forall p :: p in pieces[1..] ==> p in pieces;
      var first, rest := pieces[0].Bytes(), Chain(pieces[1..]);
      Regroup(first, rest, frame.Bytes());
      AtJoin(data, i, first, rest + frame.Bytes());
      ChainAtIs(data, i + |first|, pieces[1..], frame);
    }
  }

  lemma {:induction false} ChainAtIsValid(data: seq<byte>, i: nat, pieces: seq<Piece>, frame: Frame)
    requires ChainAt(data, i, pieces, frame)
    ensures ValidChain(pieces) && frame.Valid()
    decreases |pieces|
  {
    if pieces != [] {
      ChainAtIsValid(data, i + |pieces[0].Bytes()|, pieces[1..], frame);
      assert forall p :: p in pieces ==> p == pieces[0] || p in pieces[1..];
    }
  }

  lemma FrameBytes(frame: Frame)
    requires frame.Valid()
    ensures frame.Bytes()[0] == 0xFF && frame.Bytes()[1] == frame.marker
    ensures frame.Bytes()[5..7] == frame.height && frame.Bytes()[7..9] == frame.width
    ensures Two(frame.Bytes(), 5) == Two(frame.height, 0) && Two(frame.Bytes(), 7) == Two(frame.width, 0)
  {
  }

  lemma FrameIsRead(data: seq<byte>, i: nat, frame: Frame)
    requires frame.Valid() && At(data, i, frame.Bytes())
    ensures Walk(data, i) == Some(frame.Measures())
  {
    var bytes := frame.Bytes();
    FrameBytes(frame);
    assert data[i + 0] == bytes[0] && data[i + 1] == bytes[1];
    assert data[i + 5] == bytes[5] && data[i + 6] == bytes[6] && data[i + 7] == bytes[7] && data[i + 8] == bytes[8];
  }

  /** Whatever comes next starts with a marker, so the walk always has ten bytes to look at. */
  lemma NextIsMarker(data: seq<byte>, i: nat, pieces: seq<Piece>, frame: Frame)
    requires ChainAt(data, i, pieces, frame)
    ensures i < |data| && data[i] == 0xFF
  {
    if pieces == [] {
      FrameBytes(frame);
      assert data[i + 0] == frame.Bytes()[0];
    } else {
      assert data[i + 0] == pieces[0].Bytes()[0];
    }
  }

  lemma {:induction false} ChainIsLong(data: seq<byte>, i: nat, pieces: seq<Piece>, frame: Frame)
    requires ChainAt(data, i, pieces, frame)
    ensures i + 10 <= |data|
    decreases |pieces|
  {
    if pieces != [] {
      ChainIsLong(data, i + |pieces[0].Bytes()|, pieces[1..], frame);
    }
  }

  lemma PieceIsSkipped(data: seq<byte>, i: nat, piece: Piece)
    requires piece.Valid() && At(data, i, piece.Bytes())
    requires i + |piece.Bytes()| + 10 <= |data| && data[i + |piece.Bytes()|] == 0xFF
    ensures Walk(data, i) == Walk(data, i + |piece.Bytes()|)
  {
    var bytes := piece.Bytes();
    assert data[i + 0] == bytes[0];
    if piece.Segment? {
      assert data[i + 1] == bytes[1] && data[i + 2] == bytes[2] && data[i + 3] == bytes[3];
    }
  }

  lemma FirstIsSkipped(data: seq<byte>, i: nat, next: nat, piece: Piece, others: seq<Piece>, frame: Frame)
    requires piece.Valid() && At(data, i, piece.Bytes()) && next == i + |piece.Bytes()| && ChainAt(data, next, others, frame)
    ensures Walk(data, i) == Walk(data, next)
  {
    NextIsMarker(data, next, others, frame);
    ChainIsLong(data, next, others, frame);
    PieceIsSkipped(data, i, piece);
  }

  lemma ChainGoesOn(data: seq<byte>, i: nat, pieces: seq<Piece>, frame: Frame) returns (next: nat)
    requires pieces != [] && ChainAt(data, i, pieces, frame)
    ensures Walk(data, i) == Walk(data, next) && ChainAt(data, next, pieces[1..], frame)
  {
    next := i + |pieces[0].Bytes()|;
    FirstIsSkipped(data, i, next, pieces[0], pieces[1..], frame);
  }

  lemma {:induction false} WalkReachesFrame(data: seq<byte>, i: nat, pieces: seq<Piece>, frame: Frame)
    requires ChainAt(data, i, pieces, frame)
    ensures frame.Valid() && Walk(data, i) == Some(frame.Measures())
    decreases |pieces|
  {
    if pieces == [] {
      FrameIsRead(data, i, frame);
    } else {
      var next := ChainGoesOn(data, i, pieces, frame);
      WalkReachesFrame(data, next, pieces[1..], frame);
    }
  }

  lemma SoiIsWalked(data: seq<byte>)
    requires |data| >= 2 && data[0] == 0xFF && data[1] == 0xD8
    ensures Dimensions(data) == Walk(data, 2)
  {
    assert SIGNATURE[0] == 0x89;
  }

  /** For any chain of segments and fill bytes before it, the frame header's own width and height. */
  lemma JpegMeasured(pieces: seq<Piece>, frame: Frame, rest: seq<byte>)
    requires ValidChain(pieces) && frame.Valid()
    ensures Dimensions(SOI + (Chain(pieces) + frame.Bytes()) + rest) == Some(frame.Measures())
  {
    var body := Chain(pieces) + frame.Bytes();
    var data := SOI + body + rest;
    assert data[0] == SOI[0] && data[1] == SOI[1];
    SoiIsWalked(data);
    assert At(data, 2, body);
    ChainAtIs(data, 2, pieces, frame);
    WalkReachesFrame(data, 2, pieces, frame);
  }

  lemma FrameAt(data: seq<byte>, i: nat) returns (frame: Frame)
    requires i + 9 < |data| && data[i] == 0xFF && IsFrame(data[i + 1])
    ensures frame.Valid() && At(data, i, frame.Bytes()) && frame.Measures() == Size(Two(data, i + 7), Two(data, i + 5))
  {
    frame := Frame(data[i + 1], [data[i + 2], data[i + 3]], data[i + 4], [data[i + 5], data[i + 6]],
                   [data[i + 7], data[i + 8]], data[i + 9]);
  }

  lemma SegmentAt(data: seq<byte>, i: nat) returns (piece: Piece)
    requires i + 9 < |data| && data[i] == 0xFF && data[i + 1] != 0xFF && !IsFrame(data[i + 1])
    requires Two(data, i + 2) >= 2 && i + 2 + Two(data, i + 2) <= |data|
    ensures piece.Valid() && |piece.Bytes()| == 2 + Two(data, i + 2) && At(data, i, piece.Bytes())
  {
    piece := Segment(data[i + 1], data[i + 4..i + 2 + Two(data, i + 2)]);
  }

  lemma SegmentPiece(data: seq<byte>, i: nat, end: nat) returns (piece: Piece)
    requires i + 9 < |data| && data[i] == 0xFF && data[i + 1] != 0xFF && !IsFrame(data[i + 1])
    requires end == i + 2 + Two(data, i + 2) <= |data| && end >= i + 4
    ensures piece.Valid() && i + |piece.Bytes()| == end && At(data, i, piece.Bytes())
  {
    piece := SegmentAt(data, i);
  }

  lemma PrependPiece(data: seq<byte>, i: nat, end: nat, piece: Piece, others: seq<Piece>, frame: Frame) returns (pieces: seq<Piece>)
    requires piece.Valid() && At(data, i, piece.Bytes()) && end == i + |piece.Bytes()| && ChainAt(data, end, others, frame)
    ensures ChainAt(data, i, pieces, frame)
  {
    pieces := ConsChain(data, i, piece, others, frame);
  }

  lemma SegmentBefore(data: seq<byte>, i: nat, end: nat, others: seq<Piece>, frame: Frame) returns (pieces: seq<Piece>)
    requires i + 9 < |data| && data[i] == 0xFF && data[i + 1] != 0xFF && !IsFrame(data[i + 1])
    requires end == i + 2 + Two(data, i + 2) && end >= i + 4 && ChainAt(data, end, others, frame)
    ensures ChainAt(data, i, pieces, frame)
  {
    ChainIsLong(data, end, others, frame);
    var piece := SegmentPiece(data, i, end);
    pieces := PrependPiece(data, i, end, piece, others, frame);
  }

  lemma FillBefore(data: seq<byte>, i: nat, others: seq<Piece>, frame: Frame) returns (pieces: seq<Piece>)
    requires i + 9 < |data| && data[i] == 0xFF && ChainAt(data, i + 1, others, frame)
    ensures ChainAt(data, i, pieces, frame)
  {
    pieces := ConsChain(data, i, Fill, others, frame);
  }

  lemma FrameAlone(data: seq<byte>, i: nat) returns (frame: Frame)
    requires i + 9 < |data| && data[i] == 0xFF && IsFrame(data[i + 1])
    ensures ChainAt(data, i, [], frame)
  {
    frame := FrameAt(data, i);
  }

  /** Where a walk that answers goes next. */
  lemma WalkGoesOn(data: seq<byte>, i: nat) returns (next: nat)
    requires Walk(data, i).Some? && data[i + 1] != 0xFF && !IsFrame(data[i + 1])
    ensures i + 9 < |data| && data[i] == 0xFF && next == i + 2 + Two(data, i + 2) && next >= i + 4 && Walk(data, next).Some?
    ensures next <= |data|
  {
    next := i + 2 + Two(data, i + 2);
  }

  /** Conversely, a walk that answers has gone along such a chain to the frame header it answers from. */
  lemma {:induction false} WalkIsAChain(data: seq<byte>, i: nat) returns (pieces: seq<Piece>, frame: Frame)
    requires Walk(data, i).Some?
    ensures ChainAt(data, i, pieces, frame)
    decreases |data| - i
  {
    if data[i + 1] == 0xFF {
      pieces, frame := WalkIsAChain(data, i + 1);
      pieces := FillBefore(data, i, pieces, frame);
    } else if IsFrame(data[i + 1]) {
      pieces := [];
      frame := FrameAlone(data, i);
    } else {
      var next := WalkGoesOn(data, i);
      pieces, frame := WalkIsAChain(data, next);
      pieces := SegmentBefore(data, i, next, pieces, frame);
    }
  }

  lemma ConsChain(data: seq<byte>, i: nat, piece: Piece, others: seq<Piece>, frame: Frame) returns (pieces: seq<Piece>)
    requires piece.Valid() && At(data, i, piece.Bytes()) && ChainAt(data, i + |piece.Bytes()|, others, frame)
    ensures ChainAt(data, i, pieces, frame)
  {
    pieces := [piece] + others;
    assert pieces[0] == piece && pieces[1..] == others;
  }

  /** The data begins with a start of image, then these pieces, then this frame header. */
  ghost predicate BeginsWith(data: seq<byte>, pieces: seq<Piece>, frame: Frame) {
    ValidChain(pieces) && frame.Valid() && At(data, 0, SOI) && At(data, 2, Chain(pieces) + frame.Bytes())
  }

  /** The size read from a JPEG is exactly that of the frame header its chain of segments leads to. */
  lemma JpegSizeExactly(data: seq<byte>, size: Size)
    requires SOI <= data
    ensures Dimensions(data) == Some(size) <==> exists pieces, frame :: BeginsWith(data, pieces, frame) && frame.Measures() == size
  {
    assert data[0] == SOI[0] && data[1] == SOI[1];
    SoiIsWalked(data);
    if Dimensions(data) == Some(size) {
      var pieces, frame := WalkIsAChain(data, 2);
      WalkReachesFrame(data, 2, pieces, frame);
      ChainAtIsValid(data, 2, pieces, frame);
      ChainAtIs(data, 2, pieces, frame);
      assert BeginsWith(data, pieces, frame);
    }
    if exists pieces, frame :: BeginsWith(data, pieces, frame) && frame.Measures() == size {
      var pieces, frame :| BeginsWith(data, pieces, frame) && frame.Measures() == size;
      ChainAtIs(data, 2, pieces, frame);
      WalkReachesFrame(data, 2, pieces, frame);
    }
  }

  /** A PNG that begins as the standard requires. */
  lemma PngMeasured(length: seq<byte>, width: seq<byte>, height: seq<byte>, rest: seq<byte>)
    requires |length| == 4 && |width| == 4 && |height| == 4
    ensures Dimensions(SIGNATURE + length + IHDR + width + height + rest) == Some(Size(Four(width, 0), Four(height, 0)))
  {
    var data := SIGNATURE + length + IHDR + width + height + rest;
    assert data[..8] == SIGNATURE && data[12..16] == IHDR;
    assert data[16] == width[0] && data[17] == width[1] && data[18] == width[2] && data[19] == width[3];
    assert data[20] == height[0] && data[21] == height[1] && data[22] == height[2] && data[23] == height[3];
  }

  /** The markers of frame headers, each by its number. */
  lemma FrameMarkersAre(marker: byte)
    ensures IsFrame(marker) <==> marker in {0xC0, 0xC1, 0xC2, 0xC3, 0xC5, 0xC6, 0xC7, 0xC9, 0xCA, 0xCB, 0xCD, 0xCE, 0xCF}
  {
  }

  function InTwo(n: nat): (bytes: seq<byte>)
    requires n < 0x1_0000
    ensures |bytes| == 2
  {
    [n / 256, n % 256]
  }

  function InFour(n: nat): (bytes: seq<byte>)
    requires n < 0x1_0000_0000
    ensures |bytes| == 4
  {
    InTwo(n / 0x1_0000) + InTwo(n % 0x1_0000)
  }

  lemma TwoReadsBack(n: nat)
    requires n < 0x1_0000
    ensures Two(InTwo(n), 0) == n
  {
  }

  lemma FourReadsBack(n: nat)
    requires n < 0x1_0000_0000
    ensures Four(InFour(n), 0) == n
  {
    var hi, lo := n / 0x1_0000, n % 0x1_0000;
    TwoReadsBack(hi);
    TwoReadsBack(lo);
    assert Two(InFour(n), 0) == Two(InTwo(hi), 0) && Two(InFour(n), 2) == Two(InTwo(lo), 0);
  }

  /** A PNG written for any size measures that size. */
  lemma PngRoundTrip(length: seq<byte>, width: nat, height: nat, rest: seq<byte>)
    requires |length| == 4 && width < 0x1_0000_0000 && height < 0x1_0000_0000
    ensures Dimensions([0x89, 0x50, 0x4E, 0x47, 0x0D, 0x0A, 0x1A, 0x0A] + length + [0x49, 0x48, 0x44, 0x52] + InFour(width) + InFour(height) + rest)
         == Some(Size(width, height))
  {
    PngMeasured(length, InFour(width), InFour(height), rest);
    FourReadsBack(width);
    FourReadsBack(height);
  }

  /** So does a JPEG, whatever segments come before its frame header. */
  lemma JpegRoundTrip(pieces: seq<Piece>, marker: byte, length: seq<byte>, precision: byte, width: nat, height: nat, components: byte, rest: seq<byte>)
    requires ValidChain(pieces) && IsFrame(marker) && |length| == 2 && width < 0x1_0000 && height < 0x1_0000
    ensures Dimensions([0xFF, 0xD8] + (Chain(pieces) + ([0xFF, marker] + length + [precision] + InTwo(height) + InTwo(width) + [components])) + rest)
         == Some(Size(width, height))
  {
    JpegMeasured(pieces, Frame(marker, length, precision, InTwo(height), InTwo(width), components), rest);
    TwoReadsBack(width);
    TwoReadsBack(height);
  }

  // ----- a part of an image is never measured wrong -----

  lemma {:induction false} WalkIsStable(part: seq<byte>, whole: seq<byte>, i: nat)
    requires part <= whole
    ensures Walk(part, i).None? || Walk(part, i) == Walk(whole, i)
    decreases |part| - i
  {
    if i + 9 < |part| && part[i] == 0xFF {
      if part[i + 1] == 0xFF {
        WalkIsStable(part, whole, i + 1);
      } else if !IsFrame(part[i + 1]) && Two(part, i + 2) >= 2 {
        WalkIsStable(part, whole, i + 2 + Two(part, i + 2));
      }
    }
  }

  lemma DimensionsAreStable(part: seq<byte>, whole: seq<byte>)
    requires part <= whole
    ensures Dimensions(part).None? || Dimensions(part) == Dimensions(whole)
  {
    WalkIsStable(part, whole, 2);
    if SIGNATURE <= part && |part| >= 24 {
      assert part[12..16] == whole[12..16];
    }
  }

  /** What a ranged request for the start of an image returns. */
  function Head(data: seq<byte>): seq<byte> {
    if |data| <= MEASURE_BYTES then data else data[..MEASURE_BYTES]
  }

  /** Measured from its first 64 KB, an image has the size it really has, or none. */
  lemma RangedMeasurementIsRight(data: seq<byte>)
    ensures Dimensions(Head(data)).None? || Dimensions(Head(data)) == Dimensions(data)
    ensures Head(data) <= data && |Head(data)| == if |data| < 65536 then |data| else 65536
  {
    DimensionsAreStable(Head(data), data);
  }

  /** A segment of the greatest length before the frame header is enough for the first 64 KB not to reach it. */
  lemma ALongSegmentHidesTheSize(piece: Piece, frame: Frame)
    requires piece.Segment? && piece.Valid() && |piece.payload| == 65533 && frame.Valid()
    ensures var data := SOI + (piece.Bytes() + frame.Bytes());
      Dimensions(data) == Some(frame.Measures()) && Dimensions(Head(data)).None?
  {
    var data := SOI + (piece.Bytes() + frame.Bytes());
    assert Chain([piece]) == piece.Bytes() + Chain([]) == piece.Bytes();
    assert data + [] == data;
    JpegMeasured([piece], frame, []);
    assert |piece.Bytes()| == 65537;
    assert forall k :: 0 <= k < 4 ==> data[2 + k] == piece.Bytes()[k];
    assert data[2 + 0] == 0xFF && data[2 + 1] == piece.marker && data[2 + 2] == 255 && data[2 + 3] == 255;
    HeadStopsShort(Head(data));
  }

  lemma HeadStopsShort(head: seq<byte>)
    requires |head| == MEASURE_BYTES && head[0] == 0xFF && head[1] == 0xD8
    requires head[2] == 0xFF && head[3] != 0xFF && !IsFrame(head[3]) && head[4] == 255 && head[5] == 255
    ensures Dimensions(head).None?
  {
    SoiIsWalked(head);
    assert Two(head, 4) == 65535;
    assert Walk(head, 2) == Walk(head, 65539);
  }
}
