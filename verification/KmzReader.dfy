/** The ZIP reader that pulls the first `.kml` member out of an uploaded `.kmz`. */
module KmzReader {
  import opened Text

  newtype byte = x: int | 0 <= x < 256

  type Bytes = seq<byte>

  /** `Nothing` is the source's `null`; `Throws` a RangeError of `Buffer` or a failure of the inflate library. */
  datatype Outcome<+T> = Value(value: T) | Nothing | Throws

  datatype LocalFile = LocalFile(name: Bytes, data: Bytes, nextOffset: nat)

  datatype Sizes = Sizes(compressedSize: nat, uncompressedSize: nat, compression: nat)

  /** The raw inflate call; `None` when it throws. */
  type Inflate = Bytes -> Option<Bytes>

  const MAX_BYTES: nat := 8 * 1024 * 1024
  const LOCAL_SIGNATURE: nat := 0x04034b50
  const CENTRAL_SIGNATURE: nat := 0x02014b50
  const END_SIGNATURE: nat := 0x06054b50

  // ----- Little-endian fields -----

  function U16(b: Bytes, o: nat): nat
    requires o + 2 <= |b|
  {
    b[o] as nat + 256 * b[o + 1] as nat
  }

  function U32(b: Bytes, o: nat): nat
    requires o + 4 <= |b|
  {
    U16(b, o) + 65536 * U16(b, o + 2)
  }

  function Lo(n: nat): byte {
    (n % 256) as byte
  }

  function Hi(n: nat): byte
    requires n < 65536
  {
    (n / 256) as byte
  }

  /** `buffer.subarray(from, to)`: clamped to the buffer. */
  function Subarray(b: Bytes, from: nat, to: nat): Bytes {
    var end := if to < |b| then to else |b|;
    if from < end then b[from..end] else []
  }

  // ----- Reading -----

  function LowerByte(c: byte): byte {
    if 65 <= c <= 90 then c + 32 else c
  }

  /** `name.toLowerCase().endsWith(".kml") && !name.endsWith("/")`. */
  predicate IsKmlName(name: Bytes) {
    var n := |name|;
    && n >= 4
    && name[n - 4] == 46 && LowerByte(name[n - 3]) == 107
    && LowerByte(name[n - 2]) == 109 && LowerByte(name[n - 1]) == 108
    && name[n - 1] != 47
  }

  function InflateZipData(inflate: Inflate, compression: nat, compressed: Bytes): Outcome<Bytes> {
    if compression == 0 then Value(compressed)
    else if compression == 8 then
      match inflate(compressed)
      case Some(data) => Value(data)
      case None => Throws
    else Nothing
  }

  function ReadZipLocalFile(inflate: Inflate, buffer: Bytes, offset: nat, sizes: Option<Sizes>): (r: Outcome<LocalFile>)
    ensures r.Value? ==> offset + 30 <= r.value.nextOffset <= |buffer|
  {
    if offset + 4 > |buffer| then Throws
    else if U32(buffer, offset) != LOCAL_SIGNATURE then Nothing
    else if offset + 30 > |buffer| then Throws
    else
      var s := if sizes.Some? then sizes.value
               else Sizes(U32(buffer, offset + 18), U32(buffer, offset + 22), U16(buffer, offset + 8));
      var nameStart := offset + 30;
      var dataStart := nameStart + U16(buffer, offset + 26) + U16(buffer, offset + 28);
      var name := Subarray(buffer, nameStart, nameStart + U16(buffer, offset + 26));
      if dataStart + s.compressedSize > |buffer| || s.uncompressedSize > MAX_BYTES then Nothing
      else
        match InflateZipData(inflate, s.compression, buffer[dataStart..dataStart + s.compressedSize])
        case Value(data) => Value(LocalFile(name, data, dataStart + s.compressedSize))
        case Nothing => Nothing
        case Throws => Throws
  }

  predicate EndAt(buffer: Bytes, o: int) {
    0 <= o && o + 4 <= |buffer| && U32(buffer, o) == END_SIGNATURE
  }

  function MinEndOffset(buffer: Bytes): int {
    if |buffer| > 65_557 then |buffer| - 65_557 else 0
  }

  /** `o` is the last end-record signature within reach of the scan, or -1 when there is none. */
  ghost predicate LastEnd(buffer: Bytes, o: int) {
    && (o == -1 || (MinEndOffset(buffer) <= o <= |buffer| - 22 && EndAt(buffer, o)))
    && (forall p | MinEndOffset(buffer) <= p <= |buffer| - 22 && p > o :: !EndAt(buffer, p))
  }

  function SearchEnd(buffer: Bytes, o: int): (r: int)
    requires o <= |buffer| - 22
    ensures r == -1 || (MinEndOffset(buffer) <= r <= o && EndAt(buffer, r))
    ensures forall p | MinEndOffset(buffer) <= p <= o && p > r :: !EndAt(buffer, p)
    decreases o - MinEndOffset(buffer)
  {
    if o < MinEndOffset(buffer) then -1 else if EndAt(buffer, o) then o else SearchEnd(buffer, o - 1)
  }

  function EndOffset(buffer: Bytes): (o: int)
    ensures LastEnd(buffer, o)
  {
    SearchEnd(buffer, |buffer| - 22)
  }

  lemma LastEndUnique(buffer: Bytes, a: int, b: int)
    requires LastEnd(buffer, a) && LastEnd(buffer, b)
    ensures a == b
  {
    hide EndAt;
  }

  /** The backward scan: the LAST end-of-central-directory signature within reach, or -1. */
  method FindZipEndOfCentralDirectory(buffer: Bytes) returns (offset: int)
    ensures LastEnd(buffer, offset)
  {
    var o := |buffer| - 22;
    while o >= MinEndOffset(buffer)
      invariant forall p | o < p <= |buffer| - 22 :: !EndAt(buffer, p)
    {
      if U32(buffer, o) == END_SIGNATURE {
        return o;
      }
      o := o - 1;
    }
    return -1;
  }

  /** The walk over at most `left` central headers from `offset`. */
  function CentralWalk(inflate: Inflate, buffer: Bytes, offset: nat, left: nat): Outcome<Bytes>
    decreases left
  {
    if left == 0 || offset + 46 > |buffer| then Nothing
    else if U32(buffer, offset) != CENTRAL_SIGNATURE then Nothing
    else
      var nameStart := offset + 46;
      var name := Subarray(buffer, nameStart, nameStart + U16(buffer, offset + 28));
      if IsKmlName(name) then
        match ReadZipLocalFile(inflate, buffer, U32(buffer, offset + 42),
                               Some(Sizes(U32(buffer, offset + 20), U32(buffer, offset + 24),
                                          U16(buffer, offset + 10))))
        case Value(entry) => Value(entry.data)
        case Nothing => Nothing
        case Throws => Throws
      else CentralWalk(inflate, buffer,
                       nameStart + U16(buffer, offset + 28) + U16(buffer, offset + 30) + U16(buffer, offset + 32),
                         left - 1)
  }

  /** What the directory says: the walk from the last end record, if there is one. */
  function FromDirectory(inflate: Inflate, buffer: Bytes): Outcome<Bytes> {
    var end := EndOffset(buffer);
    if end < 0 then Nothing else CentralWalk(inflate, buffer, U32(buffer, end + 16), U16(buffer, end + 10))
  }

  method ExtractFromCentralDirectory(inflate: Inflate, buffer: Bytes) returns (r: Outcome<Bytes>)
    ensures r == FromDirectory(inflate, buffer)
  {
    hide ReadZipLocalFile, IsKmlName, U32, U16, Subarray, EndAt, EndOffset;
    var eocdOffset := FindZipEndOfCentralDirectory(buffer);
    LastEndUnique(buffer, eocdOffset, EndOffset(buffer));
    if eocdOffset < 0 {
      return Nothing;
    }
    var entries := U16(buffer, eocdOffset + 10);
    var centralOffset := U32(buffer, eocdOffset + 16);
    var index := 0;
    ghost var goal := CentralWalk(inflate, buffer, centralOffset, entries);
    while index < entries && centralOffset + 46 <= |buffer|
      invariant 0 <= index <= entries && 0 <= centralOffset
      invariant CentralWalk(inflate, buffer, centralOffset, entries - index) == goal
    {
      if U32(buffer, centralOffset) != CENTRAL_SIGNATURE {
        return Nothing;
      }
      var compression := U16(buffer, centralOffset + 10);
      var compressedSize := U32(buffer, centralOffset + 20);
      var uncompressedSize := U32(buffer, centralOffset + 24);
      var fileNameLength := U16(buffer, centralOffset + 28);
      var extraLength := U16(buffer, centralOffset + 30);
      var commentLength := U16(buffer, centralOffset + 32);
      var localHeaderOffset := U32(buffer, centralOffset + 42);
      var nameStart := centralOffset + 46;
      var name := Subarray(buffer, nameStart, nameStart + fileNameLength);
      if IsKmlName(name) {
        var entry := ReadZipLocalFile(inflate, buffer, localHeaderOffset,
                                      Some(Sizes(compressedSize, uncompressedSize, compression)));
        match entry
        case Value(file) => return Value(file.data);
        case Nothing => return Nothing;
        case Throws => return Throws;
      }
      centralOffset := nameStart + fileNameLength + extraLength + commentLength;
      index := index + 1;
    }
    return Nothing;
  }

  /** The linear scan for local headers. Every step advances. */
  function Scan(inflate: Inflate, buffer: Bytes, offset: nat): Outcome<Bytes>
    decreases |buffer| - offset
  {
    if offset + 30 > |buffer| then Nothing
    else
      match ReadZipLocalFile(inflate, buffer, offset, None)
      case Throws => Throws
      case Nothing => Scan(inflate, buffer, offset + 1)
      case Value(entry) =>
        if IsKmlName(entry.name) then Value(entry.data) else Scan(inflate, buffer, entry.nextOffset)
  }

  /** The reader as a function: the directory's answer unless it is missing or empty, else the scan's. */
  function Extract(inflate: Inflate, buffer: Bytes): Outcome<Bytes> {
    var central := FromDirectory(inflate, buffer);
    if central.Throws? || (central.Value? && central.value != []) then central else Scan(inflate, buffer, 0)
  }

  method ExtractFirstKmlFromKmz(inflate: Inflate, buffer: Bytes) returns (r: Outcome<Bytes>)
    ensures r == Extract(inflate, buffer)
  {
    hide ReadZipLocalFile, IsKmlName, FromDirectory, U16, U32, EndAt;
    var central := ExtractFromCentralDirectory(inflate, buffer);
    if central.Throws? || (central.Value? && central.value != []) {
      return central;
    }
    var offset := 0;
    while offset + 30 <= |buffer|
      invariant Scan(inflate, buffer, offset) == Scan(inflate, buffer, 0)
      decreases |buffer| - offset
    {
      var entry := ReadZipLocalFile(inflate, buffer, offset, None);
      match entry {
        case Throws =>
          return Throws;
        case Nothing =>
          offset := offset + 1;
        case Value(file) =>
          if IsKmlName(file.name) {
            return Value(file.data);
          }
          offset := file.nextOffset;
      }
    }
    return Nothing;
  }

  // ----- A writer following PKWARE APPNOTE sections 4.3.7, 4.3.12 and 4.3.16 -----

  /** One member. The fields the reader ignores are free; the sizes in the local header need not be filled in
      (bit 3 of the flags), and a data descriptor may follow the payload. */
  datatype Member = Member(
    name: Bytes, payload: Bytes, compression: nat, uncompressedSize: nat,
    localCompressed: nat, localUncompressed: nat, localExtra: Bytes, descriptor: Bytes,
    centralExtra: Bytes, comment: Bytes, flags: nat, madeBy: nat, needed: nat, time: nat, date: nat, crc: nat,
    disk: nat, internalAttributes: nat, externalAttributes: nat)

  predicate Short(n: nat) {
    n < 0x1_0000
  }

  predicate Long(n: nat) {
    n < 0x1_0000_0000
  }

  predicate Encodable(m: Member) {
    && Short(|m.name|) && Short(|m.localExtra|) && Short(|m.centralExtra|) && Short(|m.comment|)
    && Long(|m.payload|) && Long(m.uncompressedSize) && Long(m.localCompressed) && Long(m.localUncompressed)
    && Short(m.compression) && Short(m.flags) && Short(m.madeBy) && Short(m.needed) && Short(m.time) && Short(m.date)
    && Long(m.crc) && Short(m.disk) && Short(m.internalAttributes) && Long(m.externalAttributes)
  }

  function L16(n: nat): (b: Bytes)
    requires Short(n)
    ensures |b| == 2 && U16(b, 0) == n
  {
    [Lo(n), Hi(n)]
  }

  function L32(n: nat): (b: Bytes)
    requires Long(n)
    ensures |b| == 4 && U32(b, 0) == n
  {
    L16(n % 0x1_0000) + L16(n / 0x1_0000)
  }

  /** Section 4.3.7. */
  function LocalHeader(m: Member): (b: Bytes)
    requires Encodable(m)
  {
    L32(LOCAL_SIGNATURE) + L16(m.needed) + L16(m.flags) + L16(m.compression) + L16(m.time) + L16(m.date) + L32(m.crc)
    + L32(m.localCompressed) + L32(m.localUncompressed) + L16(|m.name|) + L16(|m.localExtra|)
  }

  function LocalPart(m: Member): Bytes
    requires Encodable(m)
  {
    LocalHeader(m) + m.name + m.localExtra + m.payload + m.descriptor
  }

  /** Section 4.3.12, up to the checksum ... */
  function CentralFront(m: Member): (b: Bytes)
    requires Encodable(m)
    ensures |b| == 20 && b[0..4] == L32(CENTRAL_SIGNATURE) && b[10..12] == L16(m.compression)
  {
    hide L16, L32;
    L32(CENTRAL_SIGNATURE) + L16(m.madeBy) + L16(m.needed) + L16(m.flags) + L16(m.compression)
    + L16(m.time) + L16(m.date)
    + L32(m.crc)
  }

  /** ... and from the sizes on. */
  function CentralBack(m: Member, offset: nat): (b: Bytes)
    requires Encodable(m) && Long(offset)
    ensures |b| == 26 && b[0..4] == L32(|m.payload|) && b[4..8] == L32(m.uncompressedSize)
    ensures b[8..10] == L16(|m.name|) && b[10..12] == L16(|m.centralExtra|) && b[12..14] == L16(|m.comment|)
    ensures b[22..26] == L32(offset)
  {
    hide L16, L32;
    L32(|m.payload|) + L32(m.uncompressedSize) + L16(|m.name|) + L16(|m.centralExtra|) + L16(|m.comment|)
    + L16(m.disk) + L16(m.internalAttributes) + L32(m.externalAttributes) + L32(offset)
  }

  function CentralHeader(m: Member, offset: nat): Bytes
    requires Encodable(m) && Long(offset)
  {
    CentralFront(m) + CentralBack(m, offset)
  }

  function CentralPart(m: Member, offset: nat): Bytes
    requires Encodable(m) && Long(offset)
  {
    CentralHeader(m, offset) + m.name + m.centralExtra + m.comment
  }

  /** Section 4.3.16. */
  function EndRecord(entries: nat, size: nat, offset: nat, comment: Bytes): Bytes
    requires Short(entries) && Long(size) && Long(offset) && Short(|comment|)
  {
    L32(END_SIGNATURE) + L16(0) + L16(0) + L16(entries) + L16(entries)
    + L32(size) + L32(offset) + L16(|comment|) + comment
  }

  // ----- Reading back what was written -----

  ghost predicate At(buffer: Bytes, o: nat, piece: Bytes) {
    o + |piece| <= |buffer| && buffer[o..o + |piece|] == piece
  }

  lemma Read16(buffer: Bytes, o: nat, piece: Bytes, k: nat, n: nat)
    requires At(buffer, o, piece) && k + 2 <= |piece| && Short(n) && piece[k..k + 2] == L16(n)
    ensures U16(buffer, o + k) == n
  {
    assert buffer[o + k] == piece[k] == piece[k..k + 2][0];
    assert buffer[o + k + 1] == piece[k + 1] == piece[k..k + 2][1];
  }

  lemma Read32(buffer: Bytes, o: nat, piece: Bytes, k: nat, n: nat)
    requires At(buffer, o, piece) && k + 4 <= |piece| && Long(n) && piece[k..k + 4] == L32(n)
    ensures U32(buffer, o + k) == n
  {
    var b := piece[k..k + 4];
    assert b[0..2] == L16(n % 0x1_0000) && b[2..4] == L16(n / 0x1_0000);
    assert piece[k..k + 2] == b[0..2] && piece[k + 2..k + 4] == b[2..4];
    Read16(buffer, o, piece, k, n % 0x1_0000);
    Read16(buffer, o, piece, k + 2, n / 0x1_0000);
  }

  lemma CentralFields(buffer: Bytes, o: nat, m: Member, offset: nat)
    requires Encodable(m) && Long(offset) && At(buffer, o, CentralHeader(m, offset))
    ensures o + 46 <= |buffer| && U32(buffer, o) == CENTRAL_SIGNATURE
    ensures U16(buffer, o + 10) == m.compression
    ensures U32(buffer, o + 20) == |m.payload| && U32(buffer, o + 24) == m.uncompressedSize
    ensures U16(buffer, o + 28) == |m.name| && U16(buffer, o + 30) == |m.centralExtra|
            && U16(buffer, o + 32) == |m.comment|
    ensures U32(buffer, o + 42) == offset
  {
    hide L16, L32, CentralFront, CentralBack, U16, U32;
    var f, b, h := CentralFront(m), CentralBack(m, offset), CentralHeader(m, offset);
    assert h[0..4] == f[0..4] && h[10..12] == f[10..12];
    assert h[20..24] == b[0..4] && h[24..28] == b[4..8] && h[28..30] == b[8..10] && h[30..32] == b[10..12];
    assert h[32..34] == b[12..14] && h[42..46] == b[22..26];
    Read32(buffer, o, h, 0, CENTRAL_SIGNATURE);
    Read16(buffer, o, h, 10, m.compression);
    Read32(buffer, o, h, 20, |m.payload|);
    Read32(buffer, o, h, 24, m.uncompressedSize);
    Read16(buffer, o, h, 28, |m.name|);
    Read16(buffer, o, h, 30, |m.centralExtra|);
    Read16(buffer, o, h, 32, |m.comment|);
    Read32(buffer, o, h, 42, offset);
  }

  lemma LocalFields(buffer: Bytes, o: nat, m: Member)
    requires Encodable(m) && At(buffer, o, LocalHeader(m))
    ensures o + 30 <= |buffer| && U32(buffer, o) == LOCAL_SIGNATURE
    ensures U16(buffer, o + 8) == m.compression
    ensures U32(buffer, o + 18) == m.localCompressed && U32(buffer, o + 22) == m.localUncompressed
    ensures U16(buffer, o + 26) == |m.name| && U16(buffer, o + 28) == |m.localExtra|
  {
    var h := LocalHeader(m);
    assert |h| == 30;
    Read32(buffer, o, h, 0, LOCAL_SIGNATURE);
    Read16(buffer, o, h, 8, m.compression);
    Read32(buffer, o, h, 18, m.localCompressed);
    Read32(buffer, o, h, 22, m.localUncompressed);
    Read16(buffer, o, h, 26, |m.name|);
    Read16(buffer, o, h, 28, |m.localExtra|);
  }

  lemma EndFields(buffer: Bytes, o: nat, entries: nat, size: nat, offset: nat, comment: Bytes)
    requires Short(entries) && Long(size) && Long(offset) && Short(|comment|)
    requires At(buffer, o, EndRecord(entries, size, offset, comment))
    ensures o + 22 <= |buffer| && U32(buffer, o) == END_SIGNATURE
    ensures U16(buffer, o + 10) == entries && U32(buffer, o + 16) == offset
  {
    var h := EndRecord(entries, size, offset, comment);
    assert |h| == 22 + |comment|;
    Read32(buffer, o, h, 0, END_SIGNATURE);
    Read16(buffer, o, h, 10, entries);
    Read32(buffer, o, h, 16, offset);
  }

  // ----- Archives -----

  /** A member and where its local header starts. */
  datatype Placed = Placed(m: Member, offset: nat)

  predicate Sound(p: Placed) {
    Encodable(p.m) && Long(p.offset)
  }

  function LocalBytes(p: Placed): Bytes {
    if Sound(p) then LocalPart(p.m) else []
  }

  function CentralBytes(p: Placed): Bytes {
    if Sound(p) then CentralPart(p.m, p.offset) else []
  }

  /** The first `n` directory entries, each pointing at its local header. */
  function Central(ps: seq<Placed>, n: nat): Bytes
    requires n <= |ps|
  {
    if n == 0 then [] else Central(ps, n - 1) + CentralBytes(ps[n - 1])
  }

  function EndBytes(ps: seq<Placed>, start: nat, comment: Bytes): Bytes {
    if Short(|ps|) && Long(start) && Short(|comment|) && Long(|Central(ps, |ps|)|)
    then EndRecord(|ps|, |Central(ps, |ps|)|, start, comment) else []
  }

  /** Entry `i` is where the directory and its own offset say. */
  ghost predicate EntryAt(buffer: Bytes, ps: seq<Placed>, start: nat, i: int) {
    0 <= i < |ps| ==>
      && Sound(ps[i])
      && At(buffer, ps[i].offset, LocalBytes(ps[i]))
      && At(buffer, start + |Central(ps, i)|, CentralBytes(ps[i]))
  }

  ghost predicate AllEntriesAt(buffer: Bytes, ps: seq<Placed>, start: nat) {
    forall i :: EntryAt(buffer, ps, start, i)
  }

  /** A buffer is an archive of `ps`: local parts anywhere, directory entries in order at `start`,
      end record and comment closing the buffer. */
  ghost predicate LaidOut(buffer: Bytes, ps: seq<Placed>, start: nat, end: nat, comment: Bytes) {
    && AllEntriesAt(buffer, ps, start)
    && Short(|ps|) && Long(start) && Short(|comment|) && Long(|Central(ps, |ps|)|)
    && |buffer| == end + 22 + |comment|
    && At(buffer, end, EndBytes(ps, start, comment))
  }

  /** What a member holds once decompressed. */
  function Content(inflate: Inflate, m: Member): Option<Bytes> {
    if m.compression == 0 then Some(m.payload) else if m.compression == 8 then inflate(m.payload) else None
  }

  /** The archive comment hides no end-record signature. */
  ghost predicate CleanComment(buffer: Bytes, end: nat) {
    forall o | end < o <= |buffer| - 22 :: !EndAt(buffer, o)
  }

  lemma Split(buffer: Bytes, o: nat, a: Bytes, b: Bytes)
    ensures At(buffer, o, a + b) <==> At(buffer, o, a) && At(buffer, o + |a|, b)
  {
    if o + |a + b| <= |buffer| {
      var t := buffer[o..o + |a + b|];
      assert t[..|a|] == buffer[o..o + |a|] && t[|a|..] == buffer[o + |a|..o + |a| + |b|];
      assert t == t[..|a|] + t[|a|..];
      assert (a + b)[..|a|] == a && (a + b)[|a|..] == b;
    }
  }

  lemma SplitThree(buffer: Bytes, o: nat, a: Bytes, b: Bytes, c: Bytes)
    requires At(buffer, o, a + b + c)
    ensures At(buffer, o, a) && At(buffer, o + |a|, b) && At(buffer, o + |a| + |b|, c)
  {
    Split(buffer, o, a + b, c);
    Split(buffer, o, a, b);
  }

  lemma HeaderSizes(p: Placed)
    requires Sound(p)
    ensures |LocalHeader(p.m)| == 30 && |CentralHeader(p.m, p.offset)| == 46
  {
  }

  /** The pieces of a local part sit where its header says. */
  lemma LocalPieces(buffer: Bytes, o: nat, m: Member)
    requires Encodable(m) && At(buffer, o, LocalPart(m))
    ensures At(buffer, o, LocalHeader(m)) && |LocalHeader(m)| == 30
    ensures At(buffer, o + 30, m.name) && At(buffer, o + 30 + |m.name| + |m.localExtra|, m.payload)
    ensures o + |LocalPart(m)| <= |buffer|
  {
    HeaderSizes(Placed(m, 0));
    hide LocalHeader;
    SplitThree(buffer, o, LocalHeader(m) + m.name + m.localExtra, m.payload, m.descriptor);
    SplitThree(buffer, o, LocalHeader(m), m.name, m.localExtra);
  }

  lemma CentralPieces(buffer: Bytes, o: nat, m: Member, offset: nat)
    requires Encodable(m) && Long(offset) && At(buffer, o, CentralPart(m, offset))
    ensures At(buffer, o, CentralHeader(m, offset)) && At(buffer, o + 46, m.name)
    ensures |CentralPart(m, offset)| == 46 + |m.name| + |m.centralExtra| + |m.comment|
  {
    HeaderSizes(Placed(m, offset));
    hide CentralHeader;
    SplitThree(buffer, o, CentralHeader(m, offset) + m.name, m.centralExtra, m.comment);
    Split(buffer, o, CentralHeader(m, offset), m.name);
  }

  lemma ReadsLocal(inflate: Inflate, buffer: Bytes, o: nat, m: Member, sizes: Option<Sizes>)
    requires Encodable(m) && At(buffer, o, LocalPart(m)) && m.uncompressedSize <= MAX_BYTES
    requires Content(inflate, m).Some?
    requires sizes == Some(Sizes(|m.payload|, m.uncompressedSize, m.compression))
          || (sizes == None && m.localCompressed == |m.payload| && m.localUncompressed == m.uncompressedSize)
    ensures ReadZipLocalFile(inflate, buffer, o, sizes)
            == Value(LocalFile(m.name, Content(inflate, m).value, o + 30 + |m.name| + |m.localExtra| + |m.payload|))
  {
    hide LocalHeader, U16, U32, LocalPart, Encodable;
    LocalPieces(buffer, o, m);
    LocalFields(buffer, o, m);
    assert Subarray(buffer, o + 30, o + 30 + |m.name|) == m.name;
  }

  ghost predicate FirstKml(ps: seq<Placed>, k: nat) {
    k < |ps| && IsKmlName(ps[k].m.name) && forall j | 0 <= j < k :: !IsKmlName(ps[j].m.name)
  }

  /** What the walk reads at one directory entry. */
  ghost predicate EntryReads(buffer: Bytes, o: nat, p: Placed) {
    && o + 46 <= |buffer| && U32(buffer, o) == CENTRAL_SIGNATURE
    && U16(buffer, o + 10) == p.m.compression
    && U32(buffer, o + 20) == |p.m.payload| && U32(buffer, o + 24) == p.m.uncompressedSize
    && U16(buffer, o + 28) == |p.m.name| && U16(buffer, o + 30) == |p.m.centralExtra|
      && U16(buffer, o + 32) == |p.m.comment|
    && U32(buffer, o + 42) == p.offset
    && Subarray(buffer, o + 46, o + 46 + |p.m.name|) == p.m.name
    && |CentralBytes(p)| == 46 + |p.m.name| + |p.m.centralExtra| + |p.m.comment|
  }

  lemma EntryIsRead(buffer: Bytes, o: nat, p: Placed)
    requires Sound(p) && At(buffer, o, CentralBytes(p))
    ensures EntryReads(buffer, o, p)
  {
    hide CentralPart, CentralHeader, U16, U32, Encodable;
    CentralPieces(buffer, o, p.m, p.offset);
    CentralFields(buffer, o, p.m, p.offset);
  }

  lemma WalkSkips(inflate: Inflate, buffer: Bytes, o: nat, p: Placed, left: nat)
    requires EntryReads(buffer, o, p) && left > 0 && !IsKmlName(p.m.name)
    ensures CentralWalk(inflate, buffer, o, left) == CentralWalk(inflate, buffer, o + |CentralBytes(p)|, left - 1)
  {
    hide ReadZipLocalFile, CentralBytes, U16, U32, IsKmlName, Subarray;
  }

  lemma WalkHits(inflate: Inflate, buffer: Bytes, o: nat, p: Placed, left: nat)
    requires EntryReads(buffer, o, p) && left > 0 && IsKmlName(p.m.name)
    requires Sound(p) && At(buffer, p.offset, LocalBytes(p))
    requires p.m.uncompressedSize <= MAX_BYTES && Content(inflate, p.m).Some?
    ensures CentralWalk(inflate, buffer, o, left) == Value(Content(inflate, p.m).value)
  {
    hide ReadZipLocalFile, CentralBytes, U16, U32, IsKmlName, Subarray, LocalPart, Encodable, Content;
    ReadsLocal(inflate, buffer, p.offset, p.m, Some(Sizes(|p.m.payload|, p.m.uncompressedSize, p.m.compression)));
  }

  /** Walking from entry `i` ends at the first `.kml` entry `k`. */
  lemma {:induction false} WalkFindsFirst(inflate: Inflate, buffer: Bytes, ps: seq<Placed>, start: nat, i: nat, k: nat)
    requires AllEntriesAt(buffer, ps, start) && FirstKml(ps, k) && i <= k
    requires ps[k].m.uncompressedSize <= MAX_BYTES && Content(inflate, ps[k].m).Some?
    ensures CentralWalk(inflate, buffer, start + |Central(ps, i)|, |ps| - i) == Value(Content(inflate, ps[k].m).value)
    decreases k - i
  {
    hide CentralWalk, Content, IsKmlName, CentralBytes, LocalBytes, Sound, At, EntryReads;
    var o := start + |Central(ps, i)|;
    assert EntryAt(buffer, ps, start, i);
    EntryIsRead(buffer, o, ps[i]);
    if i < k {
      WalkSkips(inflate, buffer, o, ps[i], |ps| - i);
      WalkFindsFirst(inflate, buffer, ps, start, i + 1, k);
    } else {
      WalkHits(inflate, buffer, o, ps[i], |ps| - i);
    }
  }

  lemma EndReads(buffer: Bytes, ps: seq<Placed>, start: nat, end: nat, comment: Bytes)
    requires LaidOut(buffer, ps, start, end, comment)
    ensures AllEntriesAt(buffer, ps, start)
    ensures EndAt(buffer, end) && end + 22 <= |buffer| && end >= MinEndOffset(buffer)
    ensures U16(buffer, end + 10) == |ps| && U32(buffer, end + 16) == start
  {
    EndFields(buffer, end, |ps|, |Central(ps, |ps|)|, start, comment);
  }

  lemma EndFound(buffer: Bytes, end: nat)
    requires EndAt(buffer, end) && MinEndOffset(buffer) <= end <= |buffer| - 22 && CleanComment(buffer, end)
    ensures EndOffset(buffer) == end
  {
    hide EndAt, EndOffset;
    LastEndUnique(buffer, EndOffset(buffer), end);
  }

  /** For every archive whose comment hides no end record, the reader returns exactly the content of the
      first `.kml` member in directory order. */
  lemma ReadsFirstKml(inflate: Inflate, buffer: Bytes, ps: seq<Placed>, start: nat, end: nat, comment: Bytes, k: nat)
    requires LaidOut(buffer, ps, start, end, comment) && k < |ps| && FirstKml(ps, k)
    requires ps[k].m.uncompressedSize <= MAX_BYTES
    requires Content(inflate, ps[k].m).Some? && Content(inflate, ps[k].m).value != [] && CleanComment(buffer, end)
    ensures Extract(inflate, buffer) == Value(Content(inflate, ps[k].m).value)
  {
    hide *;
    EndReads(buffer, ps, start, end, comment);
    EndFound(buffer, end);
    WalkFindsFirst(inflate, buffer, ps, start, 0, k);
    ExtractByWalk(inflate, buffer, ps, start, end, Content(inflate, ps[k].m).value);
  }

  lemma ExtractByWalk(inflate: Inflate, buffer: Bytes, ps: seq<Placed>, start: nat, end: nat, data: Bytes)
    requires end + 22 <= |buffer| && EndOffset(buffer) == end && U16(buffer, end + 10) == |ps|
             && U32(buffer, end + 16) == start
    requires CentralWalk(inflate, buffer, start + |Central(ps, 0)|, |ps| - 0) == Value(data) && data != []
    ensures Extract(inflate, buffer) == Value(data)
  {
    hide CentralWalk, Scan, U16, U32, EndOffset;
  }

  // ----- Every archive the directory describes, refused or not -----

  /** A member is delivered when it is declared at most 8 MiB and stored or deflated; a broken deflated one throws. */
  function Delivered(inflate: Inflate, m: Member): Outcome<Bytes> {
    if m.uncompressedSize > 8_388_608 || (m.compression != 0 && m.compression != 8) then Nothing
    else if m.compression == 0 then Value(m.payload)
    else
      match inflate(m.payload)
      case Some(data) => Value(data)
      case None => Throws
  }

  /** Dot, k, m and l, the letters in either case, close the name. */
  lemma KmlNames(name: Bytes)
    ensures IsKmlName(name) <==>
              && |name| >= 4 && name[|name| - 4] == 0x2E && (name[|name| - 3] == 0x6B || name[|name| - 3] == 0x4B)
              && (name[|name| - 2] == 0x6D || name[|name| - 2] == 0x4D)
                && (name[|name| - 1] == 0x6C || name[|name| - 1] == 0x4C)
  {
  }

  lemma HitAnswers(inflate: Inflate, buffer: Bytes, o: nat, p: Placed, left: nat)
    requires EntryReads(buffer, o, p) && left > 0 && IsKmlName(p.m.name)
    requires Sound(p) && At(buffer, p.offset, LocalBytes(p))
    ensures CentralWalk(inflate, buffer, o, left) == Delivered(inflate, p.m)
  {
    hide LocalHeader, U16, U32, LocalPart, Encodable, CentralBytes, IsKmlName, Subarray;
    LocalPieces(buffer, p.offset, p.m);
    LocalFields(buffer, p.offset, p.m);
  }

  function FirstDelivered(inflate: Inflate, ps: seq<Placed>, i: nat): Outcome<Bytes>
    requires i <= |ps|
    decreases |ps| - i
  {
    if i == |ps| then Nothing
    else if IsKmlName(ps[i].m.name) then Delivered(inflate, ps[i].m)
    else FirstDelivered(inflate, ps, i + 1)
  }

  lemma {:induction false} FirstDeliveredIs(inflate: Inflate, ps: seq<Placed>, i: nat, k: nat)
    requires i <= k <= |ps| && forall j | i <= j < k :: !IsKmlName(ps[j].m.name)
    ensures k == |ps| ==> FirstDelivered(inflate, ps, i) == Nothing
    ensures k < |ps| && IsKmlName(ps[k].m.name) ==> FirstDelivered(inflate, ps, i) == Delivered(inflate, ps[k].m)
    decreases k - i
  {
    hide IsKmlName, Delivered;
    if i < k {
      FirstDeliveredIs(inflate, ps, i + 1, k);
    }
  }

  /** From entry `i` on, the walk delivers the first `.kml` entry, or nothing when there is none. */
  lemma {:induction false} WalkAnswers(inflate: Inflate, buffer: Bytes, ps: seq<Placed>, start: nat, i: nat)
    requires AllEntriesAt(buffer, ps, start) && i <= |ps|
    ensures CentralWalk(inflate, buffer, start + |Central(ps, i)|, |ps| - i) == FirstDelivered(inflate, ps, i)
    decreases |ps| - i
  {
    hide IsKmlName, CentralBytes, LocalBytes, Sound, At, EntryReads, CentralWalk, Delivered, ReadZipLocalFile;
    if i == |ps| {
      NoneLeft(inflate, buffer, start + |Central(ps, i)|);
    } else {
      var o := start + |Central(ps, i)|;
      assert EntryAt(buffer, ps, start, i);
      EntryIsRead(buffer, o, ps[i]);
      if IsKmlName(ps[i].m.name) {
        HitAnswers(inflate, buffer, o, ps[i], |ps| - i);
      } else {
        WalkSkips(inflate, buffer, o, ps[i], |ps| - i);
        WalkAnswers(inflate, buffer, ps, start, i + 1);
      }
    }
  }

  lemma NoneLeft(inflate: Inflate, buffer: Bytes, offset: nat)
    ensures CentralWalk(inflate, buffer, offset, 0) == Nothing
  {
  }

  lemma CentralStarts(ps: seq<Placed>)
    ensures |Central(ps, 0)| == 0
  {
  }

  /** The reader on any archive whose comment hides no end record, `k` being its first `.kml` entry or, when it has
      none, the number of its entries: what that entry delivers, if it delivers a non-empty text or throws; otherwise
      (no such entry, one declared larger than 8 MiB, one compressed another way, an empty one) the linear scan
      decides. */
  lemma DirectoryAnswers(inflate: Inflate, buffer: Bytes, ps: seq<Placed>, start: nat, end: nat, comment: Bytes, k: nat)
    requires LaidOut(buffer, ps, start, end, comment) && CleanComment(buffer, end)
    requires k <= |ps| && (forall j | 0 <= j < k :: !IsKmlName(ps[j].m.name)) && (k < |ps| ==> IsKmlName(ps[k].m.name))
    ensures var d := if k < |ps| then Delivered(inflate, ps[k].m) else Nothing;
            Extract(inflate, buffer) == if d == Nothing || d == Value([]) then Scan(inflate, buffer, 0) else d
  {
    hide *;
    CentralStarts(ps);
    EndReads(buffer, ps, start, end, comment);
    EndFound(buffer, end);
    WalkAnswers(inflate, buffer, ps, start, 0);
    FirstDeliveredIs(inflate, ps, 0, k);
    ExtractFollows(inflate, buffer, start, end, |ps|);
  }

  lemma ExtractFollows(inflate: Inflate, buffer: Bytes, start: nat, end: nat, n: nat)
    requires end + 22 <= |buffer| && EndOffset(buffer) == end && U16(buffer, end + 10) == n
             && U32(buffer, end + 16) == start
    ensures var d := CentralWalk(inflate, buffer, start, n);
            Extract(inflate, buffer) == if d == Nothing || d == Value([]) then Scan(inflate, buffer, 0) else d
  {
    hide CentralWalk, Scan, U16, U32, EndOffset;
  }

  // ----- The writer that puts everything back to back -----

  /** The local parts of the first `n` members, one after the other. */
  function Locals(ms: seq<Member>, n: nat): Bytes
    requires n <= |ms|
  {
    if n == 0 then [] else Locals(ms, n - 1) + LocalPiece(ms[n - 1])
  }

  function LocalPiece(m: Member): Bytes {
    if Encodable(m) then LocalPart(m) else []
  }

  function Placements(ms: seq<Member>): (ps: seq<Placed>)
    ensures |ps| == |ms| && forall i | 0 <= i < |ps| :: ps[i] == Placed(ms[i], |Locals(ms, i)|)
  {
    seq(|ms|, i requires 0 <= i < |ms| => Placed(ms[i], |Locals(ms, i)|))
  }

  function WriteArchive(ms: seq<Member>, comment: Bytes): Bytes {
    var ps := Placements(ms);
    Locals(ms, |ms|) + Central(ps, |ps|) + EndBytes(ps, |Locals(ms, |ms|)|, comment)
  }

  /** Within the limits of the format without its 64-bit extension. */
  ghost predicate Fits(ms: seq<Member>, comment: Bytes) {
    && (forall i | 0 <= i < |ms| :: Encodable(ms[i]))
    && Short(|ms|) && Short(|comment|) && Long(|Locals(ms, |ms|)|) && Long(|Central(Placements(ms), |ms|)|)
  }

  lemma {:induction false} LocalsPrefix(ms: seq<Member>, i: nat, n: nat) returns (rest: Bytes)
    requires i < n <= |ms|
    ensures Locals(ms, n) == Locals(ms, i) + LocalPiece(ms[i]) + rest
    decreases n
  {
    hide LocalPiece;
    if n == i + 1 {
      rest := [];
    } else {
      var r := LocalsPrefix(ms, i, n - 1);
      rest := r + LocalPiece(ms[n - 1]);
    }
  }

  lemma {:induction false} CentralPrefix(ps: seq<Placed>, i: nat, n: nat) returns (rest: Bytes)
    requires i < n <= |ps|
    ensures Central(ps, n) == Central(ps, i) + CentralBytes(ps[i]) + rest
    decreases n
  {
    hide CentralBytes;
    if n == i + 1 {
      rest := [];
    } else {
      var r := CentralPrefix(ps, i, n - 1);
      rest := r + CentralBytes(ps[n - 1]);
    }
  }

  /** What the writer writes is an archive. */
  lemma WriterLaysOut(ms: seq<Member>, comment: Bytes)
    requires Fits(ms, comment)
    ensures LaidOut(WriteArchive(ms, comment), Placements(ms), |Locals(ms, |ms|)|,
                    |Locals(ms, |ms|)| + |Central(Placements(ms), |ms|)|, comment)
  {
    hide EndRecord, LocalPiece, CentralBytes, EntryAt, At, Encodable, Locals, Central, EndBytes;
    var ps := Placements(ms);
    var start := |Locals(ms, |ms|)|;
    var buffer := WriteArchive(ms, comment);
    EndSize(ps, start, comment);
    forall i ensures EntryAt(buffer, ps, start, i) {
      WrittenEntry(ms, comment, i);
    }
    WrittenAt(Locals(ms, |ms|) + Central(ps, |ps|), EndBytes(ps, start, comment), []);
    assert buffer + [] == buffer;
  }

  lemma EndSize(ps: seq<Placed>, start: nat, comment: Bytes)
    requires Short(|ps|) && Long(start) && Short(|comment|) && Long(|Central(ps, |ps|)|)
    ensures |EndBytes(ps, start, comment)| == 22 + |comment|
  {
  }

  lemma WrittenAt(a: Bytes, b: Bytes, c: Bytes)
    ensures At(a + b + c, |a|, b)
  {
    SplitThree(a + b + c, 0, a, b, c);
  }

  lemma WrittenLocal(ms: seq<Member>, i: nat, tail: Bytes)
    requires i < |ms|
    ensures At(Locals(ms, |ms|) + tail, |Locals(ms, i)|, LocalPiece(ms[i]))
    ensures |Locals(ms, i)| <= |Locals(ms, |ms|)|
  {
    hide LocalPiece, At;
    var rest := LocalsPrefix(ms, i, |ms|);
    WrittenAt(Locals(ms, i), LocalPiece(ms[i]), rest + tail);
    assert Locals(ms, |ms|) + tail == Locals(ms, i) + LocalPiece(ms[i]) + (rest + tail);
  }

  lemma WrittenCentral(head: Bytes, ps: seq<Placed>, i: nat, tail: Bytes)
    requires i < |ps|
    ensures At(head + Central(ps, |ps|) + tail, |head| + |Central(ps, i)|, CentralBytes(ps[i]))
  {
    hide CentralBytes, At;
    var rest := CentralPrefix(ps, i, |ps|);
    WrittenAt(head + Central(ps, i), CentralBytes(ps[i]), rest + tail);
    assert head + Central(ps, |ps|) + tail == head + Central(ps, i) + CentralBytes(ps[i]) + (rest + tail);
  }

  lemma WrittenEntry(ms: seq<Member>, comment: Bytes, i: int)
    requires Fits(ms, comment)
    ensures EntryAt(WriteArchive(ms, comment), Placements(ms), |Locals(ms, |ms|)|, i)
  {
    hide LocalPart, CentralPart, EndBytes, Encodable, At, Locals, Central;
    if 0 <= i < |ms| {
      var ps := Placements(ms);
      var ls, cs, end := Locals(ms, |ms|), Central(ps, |ps|), EndBytes(ps, |Locals(ms, |ms|)|, comment);
      WrittenLocal(ms, i, cs + end);
      assert ls + cs + end == ls + (cs + end);
      WrittenCentral(ls, ps, i, end);
    }
  }

  lemma EmptyCommentIsClean(buffer: Bytes, ps: seq<Placed>, start: nat, end: nat)
    requires LaidOut(buffer, ps, start, end, [])
    ensures CleanComment(buffer, end)
  {
  }

  /** Round trip: with an empty comment, or any other that hides no end record, reading a written archive
      gives back the first `.kml` payload, byte for byte. */
  lemma RoundTrip(inflate: Inflate, ms: seq<Member>, comment: Bytes, k: nat)
    requires Fits(ms, comment) && k < |ms|
    requires IsKmlName(ms[k].name) && forall j | 0 <= j < k :: !IsKmlName(ms[j].name)
    requires ms[k].compression == 0 && ms[k].payload != [] && ms[k].uncompressedSize == |ms[k].payload| <= MAX_BYTES
    requires comment == []
             || CleanComment(WriteArchive(ms, comment), |Locals(ms, |ms|)| + |Central(Placements(ms), |ms|)|)
    ensures Extract(inflate, WriteArchive(ms, comment)) == Value(ms[k].payload)
  {
    var ps := Placements(ms);
    hide WriteArchive, Locals, Central, Extract, LaidOut, Fits;
    WriterLaysOut(ms, comment);
    if comment == [] {
      EmptyCommentIsClean(WriteArchive(ms, comment), ps, |Locals(ms, |ms|)|, |Locals(ms, |ms|)| + |Central(ps, |ms|)|);
    }
    ReadsFirstKml(inflate, WriteArchive(ms, comment), ps, |Locals(ms, |ms|)|,
                  |Locals(ms, |ms|)| + |Central(ps, |ms|)|, comment, k);
  }

  // ----- A damaged archive -----

  /** A member the linear scan can step over: sizes in its local header, no data descriptor. */
  ghost predicate Plain(inflate: Inflate, m: Member) {
    && Encodable(m) && m.descriptor == [] && m.localCompressed == |m.payload|
    && m.localUncompressed == m.uncompressedSize <= MAX_BYTES && Content(inflate, m).Some?
  }

  ghost predicate PlainUpTo(inflate: Inflate, ms: seq<Member>, k: nat) {
    k < |ms| && forall m | m in ms[..k + 1] :: Plain(inflate, m)
  }

  ghost predicate FirstKmlMember(ms: seq<Member>, k: nat) {
    k < |ms| && IsKmlName(ms[k].name) && forall m | m in ms[..k] :: !IsKmlName(m.name)
  }

  lemma ScanStep(inflate: Inflate, buffer: Bytes, o: nat, m: Member)
    requires Plain(inflate, m) && At(buffer, o, LocalPart(m))
    ensures o + |LocalPart(m)| <= |buffer|
    ensures Scan(inflate, buffer, o) ==
            if IsKmlName(m.name) then Value(Content(inflate, m).value) else Scan(inflate, buffer, o + |LocalPart(m)|)
  {
    LocalLength(m);
    hide LocalPart, Encodable, Content, IsKmlName, ReadZipLocalFile;
    ReadsLocal(inflate, buffer, o, m, None);
  }

  /** Without a directory (a truncated upload, say), the linear scan still finds the first `.kml` member:
      whatever bytes follow the local parts. */
  lemma {:induction false} ScanRecovers(inflate: Inflate, ms: seq<Member>, tail: Bytes, i: nat, k: nat)
    requires i <= k < |ms| && PlainUpTo(inflate, ms, k) && FirstKmlMember(ms, k) && Content(inflate, ms[k]).Some?
    ensures Scan(inflate, Locals(ms, |ms|) + tail, |Locals(ms, i)|) == Value(Content(inflate, ms[k]).value)
    decreases k - i
  {
    hide Encodable, Content, IsKmlName, At, Scan, LocalPart;
    var buffer := Locals(ms, |ms|) + tail;
    assert ms[i] == ms[..k + 1][i];
    WrittenLocal(ms, i, tail);
    ScanStep(inflate, buffer, |Locals(ms, i)|, ms[i]);
    NextLocal(ms, i);
    if i < k {
      assert ms[i] == ms[..k][i];
      ScanRecovers(inflate, ms, tail, i + 1, k);
    }
  }

  /** So an upload that lost its end record is still read. */
  lemma RecoversWithoutDirectory(inflate: Inflate, ms: seq<Member>, tail: Bytes, k: nat)
    requires k < |ms| && PlainUpTo(inflate, ms, k) && FirstKmlMember(ms, k) && Content(inflate, ms[k]).Some?
    requires EndOffset(Locals(ms, |ms|) + tail) == -1
    ensures Extract(inflate, Locals(ms, |ms|) + tail) == Value(Content(inflate, ms[k]).value)
  {
    hide Encodable, Content, IsKmlName, Scan, EndOffset, CentralWalk;
    assert |Locals(ms, 0)| == 0;
    ScanRecovers(inflate, ms, tail, 0, k);
  }

  lemma LocalLength(m: Member)
    requires Encodable(m)
    ensures |LocalPart(m)| == 30 + |m.name| + |m.localExtra| + |m.payload| + |m.descriptor|
  {
  }

  lemma NextLocal(ms: seq<Member>, i: nat)
    requires i < |ms| && Encodable(ms[i])
    ensures |Locals(ms, i + 1)| == |Locals(ms, i)| + |LocalPart(ms[i])| <= |Locals(ms, |ms|)|
  {
    hide LocalPart;
    var rest := LocalsPrefix(ms, i, |ms|);
  }
}
