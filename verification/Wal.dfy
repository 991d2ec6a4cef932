/**
 The write-ahead log: the byte layout of a record as a 64-bit little-endian machine lays
 the header struct out, the writer, and what any reader of the layout gets back.
 */
module Wal {
  import opened Text

  type byte = x: int | 0 <= x < 256
  type Bytes = seq<byte>

  // ---------------------------------------------------------------- little-endian numbers

  /** The low `width` bytes of `n`, lowest first: what an unsigned integer of that width stores. */
  function LittleEndian(n: nat, width: nat): (r: Bytes)
    ensures |r| == width
  {
    if width == 0 then [] else [n % 256] + LittleEndian(n / 256, width - 1)
  }

  function Pow256(width: nat): (p: nat)
    ensures p > 0
  {
    if width == 0 then 1 else 256 * Pow256(width - 1)
  }

  function ReadLittleEndian(b: Bytes): (n: nat)
    ensures n < Pow256(|b|)
  {
    if b == [] then 0 else b[0] + 256 * ReadLittleEndian(b[1..])
  }

  /** A number comes back from its bytes exactly when it fits their width. */
  lemma {:induction false} LittleEndianRoundTrip(n: nat, width: nat)
    ensures ReadLittleEndian(LittleEndian(n, width)) == n <==> n < Pow256(width)
  {
    if width > 0 {
      LittleEndianRoundTrip(n / 256, width - 1);
      assert LittleEndian(n, width)[1..] == LittleEndian(n / 256, width - 1);
      assert n < Pow256(width) ==> n / 256 < Pow256(width - 1);
    }
  }

  const LIMIT_32 := 0x1_0000_0000
  const LIMIT_64 := 0x1_0000_0000_0000_0000

  lemma Limits()
    ensures Pow256(4) == LIMIT_32 && Pow256(8) == LIMIT_64
  {
    assert Pow256(0) == 1 && Pow256(1) == 256 && Pow256(2) == 0x1_0000 && Pow256(3) == 0x100_0000;
    assert Pow256(4) == LIMIT_32 && Pow256(5) == 0x100_0000_0000 && Pow256(6) == 0x1_0000_0000_0000;
    assert Pow256(7) == 0x100_0000_0000_0000;
  }

  /** A log sequence number: an unsigned 64-bit integer. */
  type Lsn = n: nat | n < LIMIT_64

  // ---------------------------------------------------------------- records

  datatype Kind = Noop | HeapInsert | HeapUpdate | Checkpoint

  function KindByte(k: Kind): byte {
    match k
    case Noop => 0
    case HeapInsert => 1
    case HeapUpdate => 2
    case Checkpoint => 3
  }

  function KindOf(b: byte): Option<Kind> {
    if b == 0 then Some(Noop) else if b == 1 then Some(HeapInsert)
    else if b == 2 then Some(HeapUpdate) else if b == 3 then Some(Checkpoint) else None
  }

  datatype Record = Record(kind: Kind, lsn: nat, payload: Bytes)

  const MAGIC := 0x4C494457
  const HEADER := 24

  /** What the header's fields can hold. */
  predicate Storable(r: Record) {
    |r.payload| < LIMIT_32 && r.lsn < LIMIT_64
  }

  /** Seven bytes between `type` and `lsn` that the struct copy leaves undetermined. */
  type Padding = p: Bytes | |p| == 7 witness [0, 0, 0, 0, 0, 0, 0]

  function Header(r: Record, pad: Padding): (h: Bytes)
    ensures |h| == HEADER
  {
    LittleEndian(MAGIC, 4) + LittleEndian(|r.payload|, 4) + [KindByte(r.kind)] + pad + LittleEndian(r.lsn, 8)
  }

  function Frame(r: Record, pad: Padding): (f: Bytes)
    ensures |f| == HEADER + |r.payload|
  {
    Header(r, pad) + r.payload
  }

  // ---------------------------------------------------------------- reading

  /** The first record of the bytes, when it is whole. */
  function FirstRecord(b: Bytes): (r: Option<Record>)
    ensures r.Some? ==> HEADER + |r.value.payload| <= |b| && Storable(r.value)
  {
    Limits();
    if |b| < HEADER || ReadLittleEndian(b[..4]) != MAGIC || KindOf(b[8]).None? then None
    else
      var length := ReadLittleEndian(b[4..8]);
      if |b| < HEADER + length then None
      else Some(Record(KindOf(b[8]).value, ReadLittleEndian(b[16..24]), b[24..24 + length]))
  }

  function FirstLength(b: Bytes): (n: nat)
    requires FirstRecord(b).Some?
    ensures HEADER <= n <= |b|
  {
    HEADER + |FirstRecord(b).value.payload|
  }

  /** Header, then as many bytes as it says, until something is not a whole record. */
  function Records(b: Bytes): seq<Record>
    decreases |b|
  {
    if FirstRecord(b).None? then [] else [FirstRecord(b).value] + Records(b[FirstLength(b)..])
  }

  /** The bytes no record was read from. */
  function Leftover(b: Bytes): Bytes
    decreases |b|
  {
    if FirstRecord(b).None? then b else Leftover(b[FirstLength(b)..])
  }

  /** A segment that ends where a record ends. */
  predicate Whole(b: Bytes) {
    Leftover(b) == []
  }

  // ---------------------------------------------------------------- unique decoding

  lemma HeaderFields(r: Record, pad: Padding, b: Bytes)
    requires Storable(r) && HEADER <= |b| && b[..HEADER] == Header(r, pad)
    ensures ReadLittleEndian(b[..4]) == MAGIC && ReadLittleEndian(b[4..8]) == |r.payload|
    ensures KindOf(b[8]) == Some(r.kind) && ReadLittleEndian(b[16..24]) == r.lsn
  {
    hide LittleEndian, ReadLittleEndian, Pow256;
    Limits();
    var h := Header(r, pad);
    assert b[..4] == h[..4] == LittleEndian(MAGIC, 4);
    assert b[4..8] == h[4..8] == LittleEndian(|r.payload|, 4);
    assert b[8] == h[8] == KindByte(r.kind);
    assert b[16..24] == h[16..24] == LittleEndian(r.lsn, 8);
    LittleEndianRoundTrip(MAGIC, 4);
    LittleEndianRoundTrip(|r.payload|, 4);
    LittleEndianRoundTrip(r.lsn, 8);
  }

  /** A frame in front is read as its record, whatever its padding and whatever follows. */
  lemma FrameIsRead(r: Record, pad: Padding, t: Bytes)
    requires Storable(r)
    ensures FirstRecord(Frame(r, pad) + t) == Some(r)
    ensures Records(Frame(r, pad) + t) == [r] + Records(t)
    ensures Leftover(Frame(r, pad) + t) == Leftover(t)
  {
    hide Header, ReadLittleEndian, Pow256, KindOf;
    var b := Frame(r, pad) + t;
    var n := HEADER + |r.payload|;
    assert b[..HEADER] == Header(r, pad) && b[HEADER..n] == r.payload && b[n..] == t;
    HeaderFields(r, pad, b);
  }

  /** The frames of the records, one behind the other. */
  function Segment(rs: seq<Record>, pads: seq<Padding>): Bytes
    requires |rs| == |pads|
  {
    if rs == [] then [] else Frame(rs[0], pads[0]) + Segment(rs[1..], pads[1..])
  }

  predicate AllStorable(rs: seq<Record>) {
    forall i :: 0 <= i < |rs| ==> Storable(rs[i])
  }

  /** A reader recovers exactly the records that were framed, and reads on behind them. */
  lemma {:induction false} SegmentIsRead(rs: seq<Record>, pads: seq<Padding>, t: Bytes)
    requires |rs| == |pads| && AllStorable(rs)
    ensures Records(Segment(rs, pads) + t) == rs + Records(t)
    ensures Leftover(Segment(rs, pads) + t) == Leftover(t)
  {
    hide Frame, FirstRecord, Records, Leftover, Storable;
    if rs == [] {
      assert [] + t == t && rs + Records(t) == Records(t);
    } else {
      var rest := Segment(rs[1..], pads[1..]);
      Assoc3(Frame(rs[0], pads[0]), rest, t);
      FrameIsRead(rs[0], pads[0], rest + t);
      SegmentIsRead(rs[1..], pads[1..], t);
      assert [rs[0]] + (rs[1..] + Records(t)) == rs + Records(t);
    }
  }

  /** The layout is uniquely decodable: equal bytes come from equal records, whatever the padding. */
  lemma SegmentIsInjective(rs: seq<Record>, pads: seq<Padding>, qs: seq<Record>, qpads: seq<Padding>)
    requires |rs| == |pads| && AllStorable(rs) && |qs| == |qpads| && AllStorable(qs)
    requires Segment(rs, pads) == Segment(qs, qpads)
    ensures rs == qs
  {
    SegmentIsRead(rs, pads, []);
    SegmentIsRead(qs, qpads, []);
    assert Segment(rs, pads) + [] == Segment(rs, pads) && Segment(qs, qpads) + [] == Segment(qs, qpads);
    assert rs + Records([]) == rs && qs + Records([]) == qs;
  }

  /** Appending to a whole segment adds records behind those already there. */
  lemma {:induction false} ReadConcat(a: Bytes, b: Bytes)
    requires Whole(a)
    ensures Records(a + b) == Records(a) + Records(b) && Leftover(a + b) == Leftover(b)
    decreases |a|
  {
    hide ReadLittleEndian, Pow256, KindOf;
    if FirstRecord(a).None? {
      assert a == [] && a + b == b && Records(a) == [];
      assert [] + Records(b) == Records(b);
    } else {
      var n := FirstLength(a);
      FirstRecordExtends(a, b);
      assert (a + b)[n..] == a[n..] + b;
      ReadConcat(a[n..], b);
      Assoc3([FirstRecord(a).value], Records(a[n..]), Records(b));
    }
  }

  lemma FirstRecordExtends(a: Bytes, b: Bytes)
    requires FirstRecord(a).Some?
    ensures FirstRecord(a + b) == FirstRecord(a)
  {
    hide ReadLittleEndian, Pow256, KindOf;
    var n := FirstLength(a);
    assert (a + b)[..4] == a[..4] && (a + b)[4..8] == a[4..8] && (a + b)[8] == a[8];
    assert (a + b)[16..24] == a[16..24] && (a + b)[24..n] == a[24..n];
  }

  // ---------------------------------------------------------------- torn tails

  /** Any prefix of any segment reads as a prefix of its records. */
  lemma {:induction false} PrefixReadsAsPrefix(b: Bytes, n: nat)
    requires n <= |b|
    ensures Records(b[..n]) <= Records(b)
    decreases |b|
  {
    hide ReadLittleEndian, Pow256, KindOf, FirstRecord;
    var p := b[..n];
    assert p + b[n..] == b;
    if FirstRecord(p).Some? {
      var k := FirstLength(p);
      FirstRecordExtends(p, b[n..]);
      assert p[k..] == b[k..][..n - k];
      PrefixReadsAsPrefix(b[k..], n - k);
    }
  }

  /** How many of the frames end within the first `n` bytes. */
  function Complete(rs: seq<Record>, n: nat): (k: nat)
    ensures k <= |rs|
  {
    if rs == [] || n < HEADER + |rs[0].payload| then 0 else 1 + Complete(rs[1..], n - HEADER - |rs[0].payload|)
  }

  /** A torn frame is not read. */
  lemma TornFrame(r: Record, pad: Padding, b: Bytes)
    requires Storable(r) && b < Frame(r, pad)
    ensures FirstRecord(b) == None
  {
    hide Header, ReadLittleEndian, Pow256, KindOf;
    if HEADER <= |b| {
      assert b[..HEADER] == Frame(r, pad)[..HEADER] == Header(r, pad);
      HeaderFields(r, pad, b);
    }
  }

  /** Exactly the records whose frames survived whole are read from a torn segment. */
  lemma {:induction false} TornTail(rs: seq<Record>, pads: seq<Padding>, n: nat)
    requires |rs| == |pads| && AllStorable(rs) && n <= |Segment(rs, pads)|
    ensures Records(Segment(rs, pads)[..n]) == rs[..Complete(rs, n)]
    decreases |rs|
  {
    hide ReadLittleEndian, Pow256, KindOf, FirstRecord, Frame;
    if rs != [] {
      var s, f := Segment(rs, pads), Frame(rs[0], pads[0]);
      var t := Segment(rs[1..], pads[1..]);
      if n < |f| {
        assert s[..n] == f[..n];
        TornFrame(rs[0], pads[0], s[..n]);
      } else {
        assert s[..n] == f + t[..n - |f|];
        FrameIsRead(rs[0], pads[0], t[..n - |f|]);
        TornTail(rs[1..], pads[1..], n - |f|);
        assert [rs[0]] + rs[1..][..Complete(rs[1..], n - |f|)] == rs[..Complete(rs, n)];
      }
    }
  }

  // The writer opens for appending and does not repair a torn tail.

  lemma MagicBytes()
    ensures LittleEndian(MAGIC, 4) == [0x57, 0x44, 0x49, 0x4C]
  {
    assert LittleEndian(0x4C, 1) == [0x4C] + LittleEndian(0, 0);
    assert LittleEndian(0x4C49, 2) == [0x49] + LittleEndian(0x4C, 1);
    assert LittleEndian(0x4C4944, 3) == [0x44] + LittleEndian(0x4C49, 2);
    assert LittleEndian(MAGIC, 4) == [0x57] + LittleEndian(0x4C4944, 3);
  }

  lemma FrameStarts(r: Record, pad: Padding, t: Bytes)
    ensures var b := Frame(r, pad) + t; |b| >= 4 && b[..4] == [0x57, 0x44, 0x49, 0x4C]
  {
    hide LittleEndian;
    MagicBytes();
    assert (Frame(r, pad) + t)[..4] == LittleEndian(MAGIC, 4);
  }

  lemma MagicStarts(b: Bytes)
    requires |b| >= 4 && ReadLittleEndian(b[..4]) == MAGIC
    ensures b[..4] == [0x57, 0x44, 0x49, 0x4C]
  {
    var h := b[..4];
    var x := ReadLittleEndian(h[1..]);
    var y := ReadLittleEndian(h[1..][1..]);
    var z := ReadLittleEndian(h[1..][1..][1..]);
    assert h[1..][1..][0] == h[2] && h[1..][1..][1..][0] == h[3];
    assert ReadLittleEndian(h[1..][1..][1..][1..]) == 0;
  }

  /**
   One stray byte behind the last whole record, whatever it is, and no frame appended
   later is ever read.
   */
  lemma StrayByteHidesTheRest(base: Bytes, b: byte, r: Record, pad: Padding, t: Bytes)
    requires Whole(base)
    ensures Records(base + ([b] + (Frame(r, pad) + t))) == Records(base)
  {
    hide Frame, ReadLittleEndian, KindOf, Whole;
    var tail := [b] + (Frame(r, pad) + t);
    FrameStarts(r, pad, t);
    assert (Frame(r, pad) + t)[..4][0] == 0x57;
    assert tail[..4][1] == tail[1] == 0x57;
    if ReadLittleEndian(tail[..4]) == MAGIC {
      MagicStarts(tail);
      assert false;
    }
    ReadConcat(base, tail);
    assert Records(base) + [] == Records(base);
  }

  /**
   A frame torn somewhere behind its header, and more bytes appended later: the reader
   completes the torn payload with them and reads on from there.
   */
  lemma TornPayloadSwallows(base: Bytes, r: Record, pad: Padding, n: nat, t: Bytes)
    requires Whole(base) && Storable(r) && n < |r.payload|
    ensures
      var x, length := r.payload[..n] + t, |r.payload|;
      Records(base + (Frame(r, pad)[..HEADER + n] + t)) ==
        if |x| < length then Records(base)
        else Records(base) + ([r.(payload := x[..length])] + Records(x[length..]))
  {
    hide Header, ReadLittleEndian, Pow256, KindOf, Whole;
    var x, length := r.payload[..n] + t, |r.payload|;
    var tail := Frame(r, pad)[..HEADER + n] + t;
    assert tail == Header(r, pad) + x;
    ReadConcat(base, tail);
    if |x| < length {
      assert tail[..HEADER] == Header(r, pad);
      HeaderFields(r, pad, tail);
      assert FirstRecord(tail) == None;
      assert Records(base) + [] == Records(base);
    } else {
      var q := r.(payload := x[..length]);
      SameHeader(r, q, pad);
      assert tail == Frame(q, pad) + x[length..];
      FrameIsRead(q, pad, x[length..]);
    }
  }

  lemma SameHeader(r: Record, q: Record, pad: Padding)
    requires q.kind == r.kind && q.lsn == r.lsn && |q.payload| == |r.payload|
    ensures Header(q, pad) == Header(r, pad)
  {
    hide LittleEndian;
  }

  /** When what was appended is a frame, the record read is in general one that nobody appended. */
  lemma SwallowedRecordIsForeign(base: Bytes, r: Record, pad: Padding, n: nat, q: Record, qpad: Padding, t: Bytes)
    requires Whole(base) && Storable(r) && n < |r.payload| <= n + HEADER + |q.payload| && r.payload[n] != 0x57
    ensures
      var all := Records(base + (Frame(r, pad)[..HEADER + n] + (Frame(q, qpad) + t)));
      |all| > |Records(base)| && all[|Records(base)|].lsn == r.lsn && all[|Records(base)|].payload != r.payload
  {
    hide Frame, Records, Whole;
    var behind := Frame(q, qpad) + t;
    FrameStarts(q, qpad, t);
    assert behind[..4][0] == 0x57;
    TornPayloadSwallows(base, r, pad, n, behind);
    var x := r.payload[..n] + behind;
    assert x[..|r.payload|][n] == 0x57;
  }

  // A header is one write of 24 bytes, so it may be torn as well. What the reader makes of it depends on how far it got.

  /** What is left of a torn header, and a frame behind it. */
  function Torn(r: Record, pad: Padding, n: nat, q: Record, qpad: Padding, t: Bytes): Bytes
    requires n <= HEADER
  {
    Header(r, pad)[..n] + (Frame(q, qpad) + t)
  }

  lemma HeaderFront(r: Record, pad: Padding)
    ensures Header(r, pad)[..4] == [0x57, 0x44, 0x49, 0x4C] && Header(r, pad)[8] == KindByte(r.kind)
    ensures Header(r, pad)[4..8] == LittleEndian(|r.payload|, 4)
  {
    hide LittleEndian;
    MagicBytes();
  }

  /** A header torn within its first eight bytes, but for four of them, hides every frame appended later. */
  lemma TornHeaderHides(base: Bytes, r: Record, pad: Padding, n: nat, q: Record, qpad: Padding, t: Bytes)
    requires Whole(base) && 1 <= n <= 8 && n != 4
    ensures Records(base + Torn(r, pad, n, q, qpad, t)) == Records(base)
  {
    hide Frame, Header, ReadLittleEndian, KindOf, Whole;
    var x, u := Torn(r, pad, n, q, qpad, t), Frame(q, qpad) + t;
    HeaderFront(r, pad);
    FrameStarts(q, qpad, t);
    assert forall i :: 0 <= i < n ==> x[i] == Header(r, pad)[..n][i];
    assert forall i :: 0 <= i < 4 ==> x[n + i] == u[..4][i];
    if n < 4 {
      assert x[..4][n] == x[n] == 0x57;
      if ReadLittleEndian(x[..4]) == MAGIC {
        MagicStarts(x);
        assert false;
      }
    } else {
      assert x[8] == u[..4][8 - n];
      NoSuchKind(x[8]);
    }
    assert FirstRecord(x) == None;
    ReadConcat(base, x);
    assert Records(base) + [] == Records(base);
  }

  lemma NoSuchKind(b: byte)
    requires b > 3
    ensures KindOf(b) == None
  {
  }

  /**
   A header torn after exactly its magic: the magic of the next frame is taken for a
   length of 0x4C494457 bytes. Every frame appended later is hidden until the segment has
   grown by as much, and then, if the low byte of the next frame's length is a record
   type, they are read as one payload.
   */
  lemma TornAtMagic(base: Bytes, r: Record, pad: Padding, q: Record, qpad: Padding, t: Bytes)
    requires Whole(base)
    ensures
      var u := Frame(q, qpad) + t;
      var kind := KindOf(|q.payload| % 256);
      Records(base + Torn(r, pad, 4, q, qpad, t)) ==
        if kind.None? || |u| < 20 + MAGIC then Records(base)
        else Records(base) + ([Record(kind.value, ReadLittleEndian(u[12..20]), u[20..20 + MAGIC])] + Records(u[20 + MAGIC..]))
  {
    hide Frame, Header, ReadLittleEndian, KindOf, Whole;
    var x, u := Torn(r, pad, 4, q, qpad, t), Frame(q, qpad) + t;
    HeaderFront(r, pad);
    FrameStarts(q, qpad, t);
    LengthByte(q, qpad, t);
    MagicIsRead();
    assert x == Header(r, pad)[..4] + u;
    assert x[..4] == Header(r, pad)[..4] && x[4..8] == u[..4] && x[8] == u[4];
    var length := MAGIC;
    assert |x| == 4 + |u|;
    if KindOf(x[8]).Some? && |u| >= 20 + length {
      assert x[16..24] == u[12..20] && x[24..24 + length] == u[20..20 + length] && x[24 + length..] == u[20 + length..];
    } else {
      assert FirstRecord(x) == None;
      assert Records(base) + [] == Records(base);
    }
    ReadConcat(base, x);
  }

  lemma MagicIsRead()
    ensures ReadLittleEndian([0x57, 0x44, 0x49, 0x4C]) == MAGIC
  {
    hide LittleEndian, ReadLittleEndian;
    MagicBytes();
    Limits();
    LittleEndianRoundTrip(MAGIC, 4);
  }

  lemma LengthByte(q: Record, qpad: Padding, t: Bytes)
    ensures var u := Frame(q, qpad) + t; |u| >= 24 && u[4] == |q.payload| % 256
  {
    HeaderFront(q, qpad);
    var h := Header(q, qpad);
    assert h[4] == h[4..8][0];
    assert (Frame(q, qpad) + t)[4] == h[4];
  }

  /** The first nine bytes of a header are enough to know type and length. */
  lemma HeaderFrontFields(r: Record, pad: Padding, n: nat, t: Bytes)
    requires |r.payload| < LIMIT_32 && 9 <= n <= HEADER
    ensures
      var b := Header(r, pad)[..n] + t;
      ReadLittleEndian(b[..4]) == MAGIC && ReadLittleEndian(b[4..8]) == |r.payload| && KindOf(b[8]) == Some(r.kind)
  {
    hide Header, LittleEndian, ReadLittleEndian, Pow256;
    var h := Header(r, pad);
    HeaderFront(r, pad);
    MagicIsRead();
    Limits();
    LittleEndianRoundTrip(|r.payload|, 4);
    var b := h[..n] + t;
    assert b[..4] == h[..4] && b[4..8] == h[4..8] && b[8] == h[8];
  }

  /** Magic, type and length decide how much is taken from what follows the torn header `a`. */
  lemma ReadsOn(base: Bytes, a: Bytes, t: Bytes, kind: Kind, length: nat)
    requires Whole(base) && |a| <= HEADER && 9 <= |a| + |t|
    requires var x := a + t;
      ReadLittleEndian(x[..4]) == MAGIC && ReadLittleEndian(x[4..8]) == length && KindOf(x[8]) == Some(kind)
    ensures
      var missing := HEADER - |a|;
      Records(base + (a + t)) ==
        if |t| < missing + length then Records(base)
        else
          var lsn := ReadLittleEndian((a + t)[16..24]);
          Records(base) + ([Record(kind, lsn, t[missing..missing + length])] + Records(t[missing + length..]))
  {
    hide ReadLittleEndian, Pow256, KindOf, Whole;
    var missing := HEADER - |a|;
    var x := a + t;
    ReadConcat(base, x);
    if |t| < missing + length {
      assert FirstRecord(x) == None;
      assert Records(base) + [] == Records(base);
    } else {
      assert x[24..24 + length] == t[missing..missing + length] && x[24 + length..] == t[missing + length..];
    }
  }

  /**
   A header torn behind its type byte still says how long the payload is: the reader takes
   the missing header bytes and that much payload from whatever is appended next, and
   yields a record of this type whose number is put together from both.
   */
  lemma TornHeaderSwallows(base: Bytes, r: Record, pad: Padding, n: nat, t: Bytes)
    requires Whole(base) && |r.payload| < LIMIT_32 && 9 <= n <= HEADER
    ensures
      var length, missing := |r.payload|, HEADER - n;
      Records(base + (Header(r, pad)[..n] + t)) ==
        if |t| < missing + length then Records(base)
        else
          var lsn := ReadLittleEndian((Header(r, pad)[..n] + t)[16..24]);
          Records(base) + ([Record(r.kind, lsn, t[missing..missing + length])] + Records(t[missing + length..]))
  {
    hide Header, ReadLittleEndian, Pow256, KindOf, Records, Whole;
    HeaderFrontFields(r, pad, n, t);
    ReadsOn(base, Header(r, pad)[..n], t, r.kind, |r.payload|);
  }

  // ---------------------------------------------------------------- the writer

  class SegmentFile {
    var bytes: Bytes

    constructor ()
      ensures bytes == []
    {
      bytes := [];
    }
  }

  /** `WalWriter`: the counter starts at 1 for every writer, the file is opened for appending. */
  class WalWriter {
    const segment: SegmentFile
    var nextLsn: Lsn

    constructor (segment: SegmentFile)
      ensures this.segment == segment && nextLsn == 1
    {
      this.segment := segment;
      nextLsn := 1;
    }

    method Append(kind: Kind, payload: Bytes) returns (lsn: Lsn, ghost padding: Padding)
      modifies this`nextLsn, segment`bytes
      ensures lsn == old(nextLsn) && nextLsn == (lsn + 1) % LIMIT_64
      ensures segment.bytes == old(segment.bytes) + Frame(Record(kind, lsn, payload), padding)
    {
      lsn := nextLsn;
      nextLsn := (nextLsn + 1) % LIMIT_64;
      var pad: Padding := *;
      var header := Header(Record(kind, lsn, payload), pad);
      ghost var before := segment.bytes;
      segment.bytes := segment.bytes + header;
      if payload != [] {
        segment.bytes := segment.bytes + payload;
      }
      assert header + [] == header;
      Assoc3(before, header, payload);
      padding := pad;
    }
  }

  /** What `Append` leaves behind: one more record at the end, exactly when its length fits 32 bits. */
  lemma AppendAddsOneRecord(before: Bytes, r: Record, pad: Padding)
    requires Whole(before) && r.lsn < LIMIT_64
    ensures Records(before + Frame(r, pad)) == Records(before) + [r] <==> |r.payload| < LIMIT_32
    ensures |r.payload| < LIMIT_32 ==> Whole(before + Frame(r, pad))
  {
    hide Frame, ReadLittleEndian, Pow256, KindOf, Whole;
    ReadConcat(before, Frame(r, pad));
    if |r.payload| < LIMIT_32 {
      FrameIsRead(r, pad, []);
      assert Frame(r, pad) + [] == Frame(r, pad) && [r] + Records([]) == [r];
      WholeAfter(before, Frame(r, pad));
    } else {
      RecordsAreStorable(Frame(r, pad));
      assert Records(before + Frame(r, pad))[|Records(before)|..] == Records(Frame(r, pad));
      assert (Records(before) + [r])[|Records(before)|..] == [r];
      assert Records(Frame(r, pad)) != [r] by {
        assert [r][0] == r && !Storable(r);
      }
    }
  }

  lemma WholeAfter(a: Bytes, b: Bytes)
    requires Leftover(a + b) == Leftover(b) && Leftover(b) == Leftover([])
    ensures Whole(a + b)
  {
  }

  lemma {:induction false} RecordsAreStorable(b: Bytes)
    ensures AllStorable(Records(b))
    decreases |b|
  {
    hide ReadLittleEndian, Pow256, KindOf;
    if FirstRecord(b).Some? {
      RecordsAreStorable(b[FirstLength(b)..]);
    }
  }

  // ---------------------------------------------------------------- reopening

  datatype Entry = Entry(kind: Kind, payload: Bytes)

  /** One writer's records: numbered from `first` up. */
  function Session(entries: seq<Entry>, first: nat): (rs: seq<Record>)
    ensures |rs| == |entries|
    ensures forall i :: 0 <= i < |rs| ==> rs[i] == Record(entries[i].kind, first + i, entries[i].payload)
  {
    seq(|entries|, i requires 0 <= i < |entries| => Record(entries[i].kind, first + i, entries[i].payload))
  }

  /** The records of writers that open the same segment one after the other. */
  function Sessions(writers: seq<seq<Entry>>): seq<Record> {
    if writers == [] then [] else Session(writers[0], 1) + Sessions(writers[1..])
  }

  predicate AllWrite(writers: seq<seq<Entry>>) {
    forall i :: 0 <= i < |writers| ==> writers[i] != []
  }

  /** Cuts a record list in front of every record numbered 1. */
  function SplitRuns(rs: seq<Record>): seq<seq<Record>> {
    if rs == [] then []
    else
      var rest := SplitRuns(rs[1..]);
      if rest == [] || rs[1].lsn == 1 then [[rs[0]]] + rest else [[rs[0]] + rest[0]] + rest[1..]
  }

  function EachSession(writers: seq<seq<Entry>>): (r: seq<seq<Record>>)
    ensures |r| == |writers| && forall i :: 0 <= i < |writers| ==> r[i] == Session(writers[i], 1)
  {
    seq(|writers|, i requires 0 <= i < |writers| => Session(writers[i], 1))
  }

  /** Records numbered from above 1 in front stay with the first run behind them only if that does not start at 1. */
  lemma {:induction false} SplitOneRun(entries: seq<Entry>, first: nat, t: seq<Record>)
    requires entries != [] && first >= 1
    requires t == [] || t[0].lsn == 1
    ensures SplitRuns(Session(entries, first) + t) == [Session(entries, first)] + SplitRuns(t)
    decreases |entries|
  {
    var rs := Session(entries, first) + t;
    var head := Record(entries[0].kind, first, entries[0].payload);
    if |entries| == 1 {
      assert Session(entries, first) == [head] && rs[1..] == t;
    } else {
      var more := Session(entries[1..], first + 1);
      assert Session(entries, first) == [head] + more;
      assert rs[1..] == more + t && rs[1].lsn == first + 1;
      SplitOneRun(entries[1..], first + 1, t);
    }
  }

  /**
   Every writer numbers from 1 again, so a segment that was reopened holds a
   concatenation of runs, and the runs can be told apart: cutting in front of every
   record numbered 1 gives back the writers' own records.
   */
  lemma {:induction false} ReopeningConcatenatesRuns(writers: seq<seq<Entry>>)
    requires AllWrite(writers)
    ensures SplitRuns(Sessions(writers)) == EachSession(writers)
    decreases |writers|
  {
    hide Session;
    if writers != [] {
      var t := Sessions(writers[1..]);
      if |writers| > 1 {
        assert t[0] == Session(writers[1], 1)[0];
      }
      SplitOneRun(writers[0], 1, t);
      ReopeningConcatenatesRuns(writers[1..]);
      assert EachSession(writers) == [Session(writers[0], 1)] + EachSession(writers[1..]);
    }
  }

  /** After a reopen a log sequence number no longer names one record. */
  lemma ReopenedNumbersRepeat(a: seq<Entry>, b: seq<Entry>)
    requires a != [] && b != []
    ensures var rs := Sessions([a, b]); |rs| == |a| + |b| && rs[0].lsn == rs[|a|].lsn == 1
  {
    assert Sessions([a, b]) == Session(a, 1) + (Session(b, 1) + []) by {
      assert [a, b][1..] == [b] && [b][1..] == [];
      assert Sessions([b]) == Session(b, 1) + Sessions([]);
    }
    assert Session(b, 1) + [] == Session(b, 1);
  }

  // ---------------------------------------------------------------- the heap insert payload

  /** `encode_heap_insert`: two blocks, each behind its 32-bit length. */
  function HeapInsertPayload(table: Bytes, row: Bytes): Bytes {
    LittleEndian(|table|, 4) + table + LittleEndian(|row|, 4) + row
  }

  method AppendU32(out: Bytes, v: nat) returns (r: Bytes)
    ensures r == out + LittleEndian(v, 4)
  {
    var rest, i := v, 0;
    r := out;
    while i < 4
      invariant i <= 4
      invariant r + LittleEndian(rest, 4 - i) == out + LittleEndian(v, 4)
    {
      Assoc3(r, [rest % 256], LittleEndian(rest / 256, 4 - i - 1));
      r := r + [rest % 256];
      rest := rest / 256;
      i := i + 1;
    }
    assert r + [] == r;
  }

  method EncodeHeapInsert(table: Bytes, row: Bytes) returns (payload: Bytes)
    ensures payload == HeapInsertPayload(table, row)
  {
    payload := [];
    payload := AppendU32(payload, |table|);
    assert [] + LittleEndian(|table|, 4) == LittleEndian(|table|, 4);
    payload := payload + table;
    payload := AppendU32(payload, |row|);
    if row != [] {
      payload := payload + row;
    } else {
      assert payload + row == payload;
    }
  }

  /** The reader the layout asks for; `None` when the bytes do not fit their lengths. */
  function DecodeHeapInsert(b: Bytes): Option<(Bytes, Bytes)> {
    if |b| < 8 then None
    else
      var t := ReadLittleEndian(b[..4]);
      if |b| < 8 + t then None
      else
        var r := ReadLittleEndian(b[4 + t..8 + t]);
        if |b| != 8 + t + r then None else Some((b[4..4 + t], b[8 + t..]))
  }

  /** The payload is decodable exactly when both lengths fit 32 bits. */
  lemma HeapInsertRoundTrip(table: Bytes, row: Bytes)
    ensures DecodeHeapInsert(HeapInsertPayload(table, row)) == Some((table, row)) <==>
            |table| < LIMIT_32 && |row| < LIMIT_32
  {
    var b := HeapInsertPayload(table, row);
    if |table| < LIMIT_32 && |row| < LIMIT_32 {
      hide LittleEndian, ReadLittleEndian, Pow256;
      Limits();
      LittleEndianRoundTrip(|table|, 4);
      LittleEndianRoundTrip(|row|, 4);
      var t := |table|;
      assert b[..4] == LittleEndian(t, 4) && b[4..4 + t] == table;
      assert b[4 + t..8 + t] == LittleEndian(|row|, 4) && b[8 + t..] == row;
    }
  }

  lemma HeapInsertIsInjective(table: Bytes, row: Bytes, table': Bytes, row': Bytes)
    requires |table| < LIMIT_32 && |row| < LIMIT_32 && |table'| < LIMIT_32 && |row'| < LIMIT_32
    requires HeapInsertPayload(table, row) == HeapInsertPayload(table', row')
    ensures table == table' && row == row'
  {
    HeapInsertRoundTrip(table, row);
    HeapInsertRoundTrip(table', row');
  }
}
