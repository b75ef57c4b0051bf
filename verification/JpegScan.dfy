/**
  `jpegDimensions`: the scan of a JPEG stream (ITU-T T.81, Annex B) for its first frame
  header. It is proved to accept exactly the streams that a grammar describes.
*/
module JpegScan {
  import opened Collections

  type Byte = x: int | 0 <= x < 256

  datatype Dimensions = Dimensions(height: int, width: int)

  /** Markers without a length: SOI, EOI, TEM and the restart markers. */
  predicate Standalone(marker: Byte) {
    marker == 0xd8 || marker == 0xd9 || marker == 0x01 || 0xd0 <= marker <= 0xd7
  }

  predicate StartOfFrame(marker: Byte) {
    0xc0 <= marker <= 0xcf && marker != 0xc4 && marker != 0xc8 && marker != 0xcc
  }

  function Word(high: int, low: int): int {
    high * 256 + low
  }

  function ReadBigEndian16(s: seq<Byte>, offset: nat): (n: nat)
    requires offset + 1 < |s|
    ensures n < 0x1_0000
  {
    Word(s[offset], s[offset + 1])
  }

  // --- What the scan computes ---

  function DropJunk(s: seq<Byte>): (r: seq<Byte>)
    ensures |r| <= |s|
  {
    if s != [] && s[0] != 0xff then DropJunk(s[1..]) else s
  }

  function DropFill(s: seq<Byte>): (r: seq<Byte>)
    ensures |r| <= |s|
    ensures r != [] ==> r[0] != 0xff
  {
    if s != [] && s[0] == 0xff then DropFill(s[1..]) else s
  }

  /** The scan from the current offset on; `s` is what is left of the file. */
  function ScanFrom(s: seq<Byte>): Option<Dimensions>
    decreases |s|, 1
  {
    ScanMarker(DropFill(DropJunk(s)))
  }

  /** The scan once a marker is reached. */
  function ScanMarker(s: seq<Byte>): Option<Dimensions>
    decreases |s|, 0
  {
    if s == [] then None
    else
      var marker, body := s[0], s[1..];
      if Standalone(marker) then ScanFrom(body)
      else if |body| < 2 then None
      else
        var length := ReadBigEndian16(body, 0);
        if length < 2 || length > |body| then None
        else if StartOfFrame(marker) then
          if length < 7 then None
          else Some(Dimensions(ReadBigEndian16(body, 3), ReadBigEndian16(body, 5)))
        else ScanFrom(body[length..])
  }

  function Scan(bytes: seq<Byte>): Option<Dimensions> {
    if |bytes| < 4 || bytes[0] != 0xff || bytes[1] != 0xd8 then None else ScanFrom(bytes[2..])
  }

  /** One turn of the scan, in terms of offsets into the file. */
  lemma MarkerAt(bytes: seq<Byte>, offset: nat)
    requires offset < |bytes|
    ensures var marker, next := bytes[offset], offset + 1;
      ScanMarker(bytes[offset..]) ==
        if Standalone(marker) then ScanFrom(bytes[next..])
        else if next + 1 >= |bytes| then None
        else
          var length := ReadBigEndian16(bytes, next);
          if length < 2 || next + length > |bytes| then None
          else if !StartOfFrame(marker) then ScanFrom(bytes[next + length..])
          else if length < 7 then None
          else Some(Dimensions(ReadBigEndian16(bytes, next + 3), ReadBigEndian16(bytes, next + 5)))
  {
    var s := bytes[offset..];
    assert s[1..] == bytes[offset + 1..];
    if offset + 2 < |bytes| {
      var length := ReadBigEndian16(bytes, offset + 1);
      if offset + 1 + length <= |bytes| {
        assert s[1..][length..] == bytes[offset + 1 + length..];
      }
    }
  }

  lemma JunkAt(bytes: seq<Byte>, offset: nat)
    requires offset < |bytes| && bytes[offset] != 0xff
    ensures DropJunk(bytes[offset..]) == DropJunk(bytes[offset + 1..])
  {
    assert bytes[offset..][1..] == bytes[offset + 1..];
  }

  lemma FillAt(bytes: seq<Byte>, offset: nat)
    requires offset < |bytes| && bytes[offset] == 0xff
    ensures DropFill(bytes[offset..]) == DropFill(bytes[offset + 1..])
  {
    assert bytes[offset..][1..] == bytes[offset + 1..];
  }

  /** The two inner loops: over stray bytes, then over fill bytes. */
  method ToMarker(bytes: seq<Byte>, start: nat) returns (offset: nat)
    requires start <= |bytes|
    ensures start <= offset <= |bytes|
    ensures bytes[offset..] == DropFill(DropJunk(bytes[start..]))
  {
    offset := start;
    while offset < |bytes| && bytes[offset] != 0xff
      invariant start <= offset <= |bytes|
      invariant DropJunk(bytes[offset..]) == DropJunk(bytes[start..])
    {
      JunkAt(bytes, offset);
      offset := offset + 1;
    }
    while offset < |bytes| && bytes[offset] == 0xff
      invariant start <= offset <= |bytes|
      invariant DropFill(bytes[offset..]) == DropFill(DropJunk(bytes[start..]))
    {
      FillAt(bytes, offset);
      offset := offset + 1;
    }
  }

  method JpegDimensions(bytes: seq<Byte>) returns (r: Option<Dimensions>)
    ensures r == Scan(bytes)
  {
    if |bytes| < 4 || bytes[0] != 0xff || bytes[1] != 0xd8 {
      return None;
    }
    var offset := 2;
    while offset < |bytes|
      invariant 0 <= offset <= |bytes|
      invariant Scan(bytes) == ScanFrom(bytes[offset..])
    {
      offset := ToMarker(bytes, offset);
      if offset >= |bytes| {
        return None;
      }
      MarkerAt(bytes, offset);
      var marker := bytes[offset];
      offset := offset + 1;
      if Standalone(marker) {
        continue;
      }
      if offset + 1 >= |bytes| {
        return None;
      }
      var segmentLength := ReadBigEndian16(bytes, offset);
      if segmentLength < 2 || offset + segmentLength > |bytes| {
        return None;
      }
      if StartOfFrame(marker) {
        if segmentLength < 7 {
          return None;
        }
        return Some(Dimensions(ReadBigEndian16(bytes, offset + 3), ReadBigEndian16(bytes, offset + 5)));
      }
      offset := offset + segmentLength;
    }
    return None;
  }

  // --- The grammar ---

  /**
    One marker with what may stand before it: stray bytes, then one or more fill bytes.
    A marker that is not standalone carries a payload, whose length is written before it.
  */
  datatype Unit = Unit(junk: seq<Byte>, fill: nat, marker: Byte, payload: seq<Byte>)

  /** TEM, the eight restart markers, SOI and EOI. */
  predicate Bare(marker: Byte) {
    marker in {0x01, 0xd0, 0xd1, 0xd2, 0xd3, 0xd4, 0xd5, 0xd6, 0xd7, 0xd8, 0xd9}
  }

  /** SOF0 to SOF15, which leave out the codes of DHT, JPG and DAC. */
  predicate FrameMarker(marker: Byte) {
    marker in {0xc0, 0xc1, 0xc2, 0xc3, 0xc5, 0xc6, 0xc7, 0xc9, 0xca, 0xcb, 0xcd, 0xce, 0xcf}
  }

  predicate WellFormed(u: Unit) {
    && 0xff !in u.junk && u.fill > 0 && u.marker != 0xff
    && |u.payload| + 2 < 0x1_0000
    && (Bare(u.marker) ==> u.payload == [])
  }

  /** A frame header: sample precision, height, width, and the components. */
  predicate IsFrame(u: Unit) {
    WellFormed(u) && FrameMarker(u.marker) && |u.payload| >= 5
  }

  function FrameSize(u: Unit): Dimensions
    requires IsFrame(u)
  {
    Dimensions(u.payload[1] as int * 256 + u.payload[2] as int, u.payload[3] as int * 256 + u.payload[4] as int)
  }

  function Fill(n: nat): (r: seq<Byte>)
    ensures |r| == n && forall b :: b in r ==> b == 0xff
  {
    if n == 0 then [] else [0xff] + Fill(n - 1)
  }

  function Segment(u: Unit): seq<Byte>
    requires WellFormed(u)
  {
    var length := |u.payload| + 2;
    if Bare(u.marker) then [u.marker] else [u.marker, length / 256, length % 256] + u.payload
  }

  function Print(u: Unit): (r: seq<Byte>)
    requires WellFormed(u)
    ensures |r| >= 2
  {
    u.junk + Fill(u.fill) + Segment(u)
  }

  predicate Skippable(units: seq<Unit>) {
    forall u :: u in units ==> WellFormed(u) && !FrameMarker(u.marker)
  }

  function PrintAll(units: seq<Unit>): seq<Byte>
    requires Skippable(units)
  {
    if units == [] then [] else Print(units[0]) + PrintAll(units[1..])
  }

  /** A stream whose first frame header is `frame`. */
  function Stream(units: seq<Unit>, frame: Unit, trailing: seq<Byte>): seq<Byte>
    requires Skippable(units) && IsFrame(frame)
  {
    [0xff, 0xd8] + (PrintAll(units) + Print(frame) + trailing)
  }

  // --- Every stream of the grammar is read ---

  lemma {:induction false} DropJunkPrinted(junk: seq<Byte>, s: seq<Byte>)
    requires 0xff !in junk && (s == [] || s[0] == 0xff)
    ensures DropJunk(junk + s) == s
  {
    if junk == [] {
      assert junk + s == s;
    } else {
      assert (junk + s)[1..] == junk[1..] + s;
      DropJunkPrinted(junk[1..], s);
    }
  }

  lemma {:induction false} DropFillPrinted(n: nat, s: seq<Byte>)
    requires s != [] && s[0] != 0xff
    ensures DropFill(Fill(n) + s) == s
  {
    if n == 0 {
      assert Fill(n) + s == s;
    } else {
      assert (Fill(n) + s)[1..] == Fill(n - 1) + s;
      DropFillPrinted(n - 1, s);
    }
  }

  lemma MarkerReached(u: Unit, rest: seq<Byte>)
    requires WellFormed(u)
    ensures DropFill(DropJunk(Print(u) + rest)) == Segment(u) + rest
  {
    var tail := Segment(u) + rest;
    assert Print(u) + rest == u.junk + (Fill(u.fill) + tail);
    DropJunkPrinted(u.junk, Fill(u.fill) + tail);
    DropFillPrinted(u.fill, tail);
  }

  lemma LengthRead(u: Unit, rest: seq<Byte>)
    requires WellFormed(u) && !Standalone(u.marker)
    ensures var body := (Segment(u) + rest)[1..];
      |body| >= 2 && ReadBigEndian16(body, 0) == |u.payload| + 2 && body[2..] == u.payload + rest
  {
  }

  lemma SkipsUnit(u: Unit, rest: seq<Byte>)
    requires WellFormed(u) && !StartOfFrame(u.marker)
    ensures ScanFrom(Print(u) + rest) == ScanFrom(rest)
  {
    MarkerReached(u, rest);
    var body := (Segment(u) + rest)[1..];
    if Standalone(u.marker) {
      assert body == rest;
    } else {
      LengthRead(u, rest);
      assert body[|u.payload| + 2..] == body[2..][|u.payload|..] == rest;
    }
  }

  lemma ReadsFrame(u: Unit, rest: seq<Byte>)
    requires IsFrame(u)
    ensures ScanFrom(Print(u) + rest) == Some(FrameSize(u))
  {
    MarkerReached(u, rest);
    LengthRead(u, rest);
    var body := (Segment(u) + rest)[1..];
    assert forall k :: 0 <= k < 5 ==> body[k + 2] == body[2..][k];
  }

  lemma Regroup(a: seq<Byte>, b: seq<Byte>, c: seq<Byte>, d: seq<Byte>)
    ensures (a + b) + c + d == a + (b + c + d)
  {
  }

  /** The printed units, header and trailing bytes, with the first unit set apart. */
  lemma PrintedFirst(u: Unit, others: seq<Unit>, frame: Unit, trailing: seq<Byte>)
    requires Skippable([u] + others) && Skippable(others) && WellFormed(u) && IsFrame(frame)
    ensures PrintAll([u] + others) + Print(frame) + trailing == Print(u) + (PrintAll(others) + Print(frame) + trailing)
  {
    assert ([u] + others)[1..] == others;
    Regroup(Print(u), PrintAll(others), Print(frame), trailing);
  }

  lemma {:induction false} ReadsStreamFrom(units: seq<Unit>, frame: Unit, trailing: seq<Byte>)
    requires Skippable(units) && IsFrame(frame)
    ensures ScanFrom(PrintAll(units) + Print(frame) + trailing) == Some(FrameSize(frame))
  {
    if units == [] {
      assert PrintAll(units) + Print(frame) + trailing == Print(frame) + trailing;
      ReadsFrame(frame, trailing);
    } else {
      var rest := PrintAll(units[1..]) + Print(frame) + trailing;
      assert units == [units[0]] + units[1..];
      PrintedFirst(units[0], units[1..], frame, trailing);
      SkipsUnit(units[0], rest);
      ReadsStreamFrom(units[1..], frame, trailing);
    }
  }

  /** Completeness: the scan returns the size in the first frame header. */
  lemma StreamIsRead(units: seq<Unit>, frame: Unit, trailing: seq<Byte>)
    requires Skippable(units) && IsFrame(frame)
    ensures Scan(Stream(units, frame, trailing)) == Some(FrameSize(frame))
  {
    var bytes := Stream(units, frame, trailing);
    assert bytes[2..] == PrintAll(units) + Print(frame) + trailing;
    ReadsStreamFrom(units, frame, trailing);
  }

  // --- Nothing else is read ---

  lemma {:induction false} JunkSplit(s: seq<Byte>) returns (junk: seq<Byte>)
    ensures s == junk + DropJunk(s) && 0xff !in junk
    ensures DropJunk(s) == [] || DropJunk(s)[0] == 0xff
  {
    if s != [] && s[0] != 0xff {
      var tail := JunkSplit(s[1..]);
      junk := [s[0]] + tail;
    } else {
      junk := [];
    }
  }

  lemma {:induction false} FillSplit(s: seq<Byte>) returns (n: nat)
    ensures s == Fill(n) + DropFill(s)
    ensures s != [] && s[0] == 0xff ==> n > 0
  {
    if s != [] && s[0] == 0xff {
      var tail := FillSplit(s[1..]);
      n := tail + 1;
      assert s == [0xff] + s[1..] == [0xff] + Fill(tail) + DropFill(s);
    } else {
      n := 0;
    }
  }

  /** The marker and payload at the front, when the scan gets past them. */
  lemma SegmentSplit(s: seq<Byte>) returns (u: Unit, rest: seq<Byte>)
    requires ScanMarker(s).Some? && s[0] != 0xff
    ensures WellFormed(u) && s == Segment(u) + rest && |rest| < |s|
    ensures StartOfFrame(u.marker) ==> IsFrame(u)
  {
    var marker, body := s[0], s[1..];
    if Standalone(marker) {
      u, rest := Unit([], 1, marker, []), body;
    } else {
      var length := ReadBigEndian16(body, 0);
      u, rest := Unit([], 1, marker, body[2..length]), body[length..];
      assert body == [length / 256, length % 256] + u.payload + rest;
    }
  }

  /** Junk and fill bytes in front of a marker and its payload. */
  lemma UnitWhole(junk: seq<Byte>, fill: nat, bare: Unit)
    requires WellFormed(bare) && 0xff !in junk && fill > 0
    ensures var u := bare.(junk := junk, fill := fill);
      WellFormed(u) && Print(u) == junk + Fill(fill) + Segment(bare) && (IsFrame(bare) ==> IsFrame(u))
  {}

  lemma UnitJoins(s: seq<Byte>, a: seq<Byte>, b: seq<Byte>, junk: seq<Byte>, fill: nat, bare: Unit, tail: seq<Byte>)
    requires WellFormed(bare) && 0xff !in junk && fill > 0
    requires s == junk + a && a == Fill(fill) + b && b == Segment(bare) + tail
    ensures var u := bare.(junk := junk, fill := fill); WellFormed(u) && s == Print(u) + tail
  {
    UnitWhole(junk, fill, bare);
    Regroup(junk, Fill(fill), Segment(bare), tail);
  }

  /** The unit at the front of what is left, when the scan gets past it. */
  lemma UnitSplit(s: seq<Byte>) returns (u: Unit, rest: seq<Byte>)
    requires ScanFrom(s).Some?
    ensures WellFormed(u) && s == Print(u) + rest && |rest| < |s|
    ensures StartOfFrame(u.marker) ==> IsFrame(u)
  {
    var a := DropJunk(s);
    var b := DropFill(a);
    var junk := JunkSplit(s);
    var fill := FillSplit(a);
    var bare, tail := SegmentSplit(b);
    u, rest := bare.(junk := junk, fill := fill), tail;
    UnitJoins(s, a, b, junk, fill, bare, tail);
  }

  lemma {:induction false} ParseFrom(s: seq<Byte>) returns (units: seq<Unit>, frame: Unit, trailing: seq<Byte>)
    requires ScanFrom(s).Some?
    ensures Skippable(units) && IsFrame(frame) && s == PrintAll(units) + Print(frame) + trailing
    decreases |s|
  {
    var u, rest := UnitSplit(s);
    if StartOfFrame(u.marker) {
      units, frame, trailing := [], u, rest;
      assert PrintAll(units) + Print(frame) == Print(frame);
    } else {
      SkipsUnit(u, rest);
      var others;
      others, frame, trailing := ParseFrom(rest);
      units := [u] + others;
      PrintedFirst(u, others, frame, trailing);
    }
  }

  /** Soundness: whatever the scan accepts is a stream whose first frame has that size. */
  lemma ReadIsStream(bytes: seq<Byte>) returns (units: seq<Unit>, frame: Unit, trailing: seq<Byte>)
    requires Scan(bytes).Some?
    ensures Skippable(units) && IsFrame(frame)
    ensures bytes == Stream(units, frame, trailing) && Scan(bytes) == Some(FrameSize(frame))
  {
    units, frame, trailing := ParseFrom(bytes[2..]);
    assert bytes == [0xff, 0xd8] + bytes[2..];
    StreamIsRead(units, frame, trailing);
  }

  ghost predicate HasFrame(bytes: seq<Byte>, d: Dimensions) {
    exists units, frame, trailing :: Skippable(units) && IsFrame(frame) &&
      bytes == Stream(units, frame, trailing) && FrameSize(frame) == d
  }

  /** The scan answers with a size exactly for the streams whose first frame has that size. */
  lemma ScanExact(bytes: seq<Byte>, d: Dimensions)
    ensures Scan(bytes) == Some(d) <==> HasFrame(bytes, d)
  {
    if Scan(bytes).Some? {
      var units, frame, trailing := ReadIsStream(bytes);
    }
    if HasFrame(bytes, d) {
      var units, frame, trailing :| Skippable(units) && IsFrame(frame) &&
        bytes == Stream(units, frame, trailing) && FrameSize(frame) == d;
      StreamIsRead(units, frame, trailing);
    }
  }
}
