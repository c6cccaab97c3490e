/**
 The frame format of the registry's write-ahead log, its encoder and the replay loop that
 stops at the first torn or corrupt frame. The checksum is a parameter: every result holds
 for every checksum function.
 */
module WalCodec {
  import opened Bytes

  const OP_REGISTER: Byte := 1
  const OP_HEARTBEAT: Byte := 2
  const OP_DELETE_EXPIRED: Byte := 3
  const OP_SNAPSHOT_MARK: Byte := 4

  const MAGIC: nat := 0x41475257
  const VERSION: Byte := 1
  const HEADER_SIZE: nat := 32
  const CRC_SIZE: nat := 4
  const MAX_NAME_LEN: nat := 0xffff
  const MAX_PAYLOAD_LEN: nat := 0x10_0000

  type Checksum = seq<Byte> -> Uint32

  datatype Record = Record(
    op: Byte,
    timestamp: Int64,
    service: seq<Byte>,
    id: seq<Byte>,
    address: seq<Byte>,
    ttl: Int64,
    payload: seq<Byte>)

  /** The lengths the encoder accepts. */
  predicate Encodable(r: Record) {
    |r.service| <= MAX_NAME_LEN && |r.id| <= MAX_NAME_LEN && |r.address| <= MAX_NAME_LEN &&
    |r.payload| <= MAX_PAYLOAD_LEN
  }

  /** What the header parser demands of each kind of record. */
  predicate WellShaped(op: Byte, serviceLen: nat, idLen: nat, addressLen: nat, payloadLen: nat, ttl: Int64) {
    if op == OP_REGISTER then
      serviceLen != 0 && idLen != 0 && addressLen != 0 && ttl > 0
    else if op == OP_HEARTBEAT then
      serviceLen != 0 && idLen != 0 && addressLen == 0 && payloadLen == 0 && ttl > 0
    else if op == OP_DELETE_EXPIRED then
      serviceLen != 0 && idLen != 0 && addressLen == 0 && payloadLen == 0 && ttl == 0
    else
      op == OP_SNAPSHOT_MARK && serviceLen == 0 && idLen == 0 && addressLen == 0 && payloadLen == 0 && ttl == 0
  }

  /** The records that survive an encode and a replay. */
  predicate Valid(r: Record) {
    Encodable(r) && WellShaped(r.op, |r.service|, |r.id|, |r.address|, |r.payload|, r.ttl)
  }

  // ---------------------------------------------------------------- encoding

  function HeaderOf(r: Record): (h: seq<Byte>)
    ensures |h| == HEADER_SIZE
  {
    BigEndian(MAGIC, 4) + [VERSION] + [r.op] + BigEndian(ToUint64(r.timestamp), 8) +
    BigEndian(|r.service|, 2) + BigEndian(|r.id|, 2) + BigEndian(|r.address|, 2) +
    BigEndian(|r.payload|, 4) + BigEndian(ToUint64(r.ttl), 8)
  }

  function BodyOf(r: Record): seq<Byte> {
    r.service + r.id + r.address + r.payload
  }

  function FrameOf(crc: Checksum, r: Record): (f: seq<Byte>)
    ensures |f| == HEADER_SIZE + |BodyOf(r)| + CRC_SIZE
  {
    HeaderOf(r) + BodyOf(r) + BigEndian(crc(HeaderOf(r) + BodyOf(r)), 4)
  }

  function FramesOf(crc: Checksum, rs: seq<Record>): seq<Byte> {
    if rs == [] then [] else FrameOf(crc, rs[0]) + FramesOf(crc, rs[1..])
  }

  // ---------------------------------------------------------------- decoding

  datatype Header =
    | BadHeader
    | Header(op: Byte, timestamp: Int64, ttl: Int64,
             serviceLen: nat, idLen: nat, addressLen: nat, payloadLen: nat)

  function BodyLen(h: Header): nat
    requires h.Header?
  {
    h.serviceLen + h.idLen + h.addressLen + h.payloadLen
  }

  /** Eight big-endian bytes as a signed 64-bit integer. */
  function Signed64(s: seq<Byte>): Int64
    requires |s| == 8
  {
    Widths();
    ToInt64(FromBigEndian(s))
  }

  function ParseHeader(h: seq<Byte>): Header {
    if |h| != HEADER_SIZE then BadHeader
    else if FromBigEndian(h[0..4]) != MAGIC || h[4] != VERSION then BadHeader
    else
      var op, ttl := h[5], Signed64(h[24..32]);
      var serviceLen, idLen, addressLen := FromBigEndian(h[14..16]), FromBigEndian(h[16..18]), FromBigEndian(h[18..20]);
      var payloadLen := FromBigEndian(h[20..24]);
      if payloadLen > MAX_PAYLOAD_LEN then BadHeader
      else if !WellShaped(op, serviceLen, idLen, addressLen, payloadLen, ttl) then BadHeader
      else Header(op, Signed64(h[6..14]), ttl, serviceLen, idLen, addressLen, payloadLen)
  }

  /** The record a parsed header and a body of the announced length stand for. */
  function WithBody(h: Header, body: seq<Byte>): Record
    requires h.Header? && |body| == BodyLen(h)
  {
    var a, b, c := h.serviceLen, h.serviceLen + h.idLen, h.serviceLen + h.idLen + h.addressLen;
    Record(h.op, h.timestamp, body[..a], body[a..b], body[b..c], h.ttl, body[c..])
  }

  datatype Next = End | Torn | Frame(record: Record, length: nat)

  /** What replay finds at the front of `s`. */
  function NextFrame(crc: Checksum, s: seq<Byte>): (n: Next)
    ensures n.Frame? ==> 0 < n.length <= |s|
  {
    if s == [] then End
    else if |s| < HEADER_SIZE then Torn
    else
      var h := ParseHeader(s[..HEADER_SIZE]);
      if h.BadHeader? then Torn
      else
        var n := HEADER_SIZE + BodyLen(h);
        if |s| < n + CRC_SIZE then Torn
        else if crc(s[..n]) != FromBigEndian(s[n..n + CRC_SIZE]) then Torn
        else Frame(WithBody(h, s[HEADER_SIZE..n]), n + CRC_SIZE)
  }

  /** `failed` is the error return of the apply callback, which stops replay at once. */
  datatype Replayed = Replayed(records: seq<Record>, validBytes: nat, truncated: bool, failed: bool)

  function Replay(crc: Checksum, accepts: Record -> bool, s: seq<Byte>): (r: Replayed)
    decreases |s|
  {
    match NextFrame(crc, s)
    case End => Replayed([], 0, false, false)
    case Torn => Replayed([], 0, true, false)
    case Frame(record, n) =>
      if !accepts(record) then Replayed([], 0, false, true)
      else
        var rest := Replay(crc, accepts, s[n..]);
        rest.(records := [record] + rest.records, validBytes := n + rest.validBytes)
  }

  // ---------------------------------------------------------------- one frame

  /** The pieces of an encoded header, at the offsets the parser reads. */
  lemma HeaderFields(r: Record)
    ensures var h := HeaderOf(r);
            && h[0..4] == BigEndian(MAGIC, 4) && h[4] == VERSION && h[5] == r.op
            && h[6..14] == BigEndian(ToUint64(r.timestamp), 8)
            && h[14..16] == BigEndian(|r.service|, 2) && h[16..18] == BigEndian(|r.id|, 2)
            && h[18..20] == BigEndian(|r.address|, 2) && h[20..24] == BigEndian(|r.payload|, 4)
            && h[24..32] == BigEndian(ToUint64(r.ttl), 8)
  {
  }

  /** A frame byte by byte: the fixed header, the four fields in order, and the checksum of all that precedes it. */
  lemma FrameLayout(crc: Checksum, r: Record)
    requires Encodable(r)
    ensures var f := FrameOf(crc, r);
            var a := 32 + |r.service|;
            var b := a + |r.id|;
            var c := b + |r.address|;
            var d := c + |r.payload|;
            && |f| == d + 4
            && FromBigEndian(f[0..4]) == 0x41475257 && f[4] == 1 && f[5] == r.op
            && Signed64(f[6..14]) == r.timestamp && Signed64(f[24..32]) == r.ttl
            && FromBigEndian(f[14..16]) == |r.service| && FromBigEndian(f[16..18]) == |r.id|
            && FromBigEndian(f[18..20]) == |r.address| && FromBigEndian(f[20..24]) == |r.payload|
            && f[32..a] == r.service && f[a..b] == r.id && f[b..c] == r.address && f[c..d] == r.payload
            && FromBigEndian(f[d..]) == crc(f[..d])
  {
    hide BigEndian, FromBigEndian, Signed64, HeaderOf;
    HeaderFields(r);
    Widths();
    BigEndianRoundTrip(0x41475257, 4);
    BigEndianRoundTrip(|r.service|, 2);
    BigEndianRoundTrip(|r.id|, 2);
    BigEndianRoundTrip(|r.address|, 2);
    BigEndianRoundTrip(|r.payload|, 4);
    SignedRoundTrip(r.timestamp);
    SignedRoundTrip(r.ttl);
    var f := FrameOf(crc, r);
    var d := 32 + |BodyOf(r)|;
    BigEndianRoundTrip(crc(HeaderOf(r) + BodyOf(r)), 4);
    assert f[..32] == HeaderOf(r) && f[..d] == HeaderOf(r) + BodyOf(r);
    assert f[d..] == BigEndian(crc(HeaderOf(r) + BodyOf(r)), 4);
    HeaderSlices(f, HeaderOf(r));
    BodySlices(f, r);
  }

  lemma HeaderSlices(f: seq<Byte>, h: seq<Byte>)
    requires |f| >= 32 && f[..32] == h
    ensures f[0..4] == h[0..4] && f[4] == h[4] && f[5] == h[5] && f[6..14] == h[6..14]
    ensures f[14..16] == h[14..16] && f[16..18] == h[16..18] && f[18..20] == h[18..20] && f[20..24] == h[20..24]
    ensures f[24..32] == h[24..32]
  {
  }

  lemma BodySlices(f: seq<Byte>, r: Record)
    requires var d := 32 + |BodyOf(r)|; d <= |f| && f[32..d] == BodyOf(r)
    ensures var a := 32 + |r.service|;
            var b := a + |r.id|;
            var c := b + |r.address|;
            f[32..a] == r.service && f[a..b] == r.id && f[b..c] == r.address && f[c..c + |r.payload|] == r.payload
  {
    var d := 32 + |BodyOf(r)|;
    var x, y, z := |r.service|, |r.service| + |r.id|, |r.service| + |r.id| + |r.address|;
    BodySplits(r, Header(r.op, r.timestamp, r.ttl, |r.service|, |r.id|, |r.address|, |r.payload|));
    hide BodyOf;
    SliceOfSlice(f, 32, d, 0, x);
    SliceOfSlice(f, 32, d, x, y);
    SliceOfSlice(f, 32, d, y, z);
    SliceOfSlice(f, 32, d, z, d - 32);
  }

  lemma SliceOfSlice(s: seq<Byte>, from: nat, to: nat, i: nat, j: nat)
    requires from <= to <= |s| && i <= j <= to - from
    ensures s[from..to][i..j] == s[from + i..from + j]
  {
    var a, b := s[from..to][i..j], s[from + i..from + j];
    forall k | 0 <= k < j - i
      ensures a[k] == b[k]
    {
      assert s[from..to][i + k] == s[from + i + k];
    }
  }

  lemma SignedRoundTrip(x: Int64)
    ensures Signed64(BigEndian(ToUint64(x), 8)) == x
  {
    Widths();
    BigEndianRoundTrip(ToUint64(x), 8);
  }

  lemma ParseEncodedHeader(r: Record)
    requires Encodable(r)
    ensures ParseHeader(HeaderOf(r)) ==
            if Valid(r) then Header(r.op, r.timestamp, r.ttl, |r.service|, |r.id|, |r.address|, |r.payload|)
            else BadHeader
  {
    HeaderFields(r);
    Widths();
    BigEndianRoundTrip(MAGIC, 4);
    BigEndianRoundTrip(|r.service|, 2);
    BigEndianRoundTrip(|r.id|, 2);
    BigEndianRoundTrip(|r.address|, 2);
    BigEndianRoundTrip(|r.payload|, 4);
    SignedRoundTrip(r.timestamp);
    SignedRoundTrip(r.ttl);
  }

  lemma BodySplits(r: Record, h: Header)
    requires h == Header(r.op, r.timestamp, r.ttl, |r.service|, |r.id|, |r.address|, |r.payload|)
    ensures |BodyOf(r)| == BodyLen(h) && WithBody(h, BodyOf(r)) == r
  {
    var a, b, c := |r.service|, |r.service| + |r.id|, |r.service| + |r.id| + |r.address|;
    var body := BodyOf(r);
    assert body[..a] == r.service;
    assert body[a..b] == r.id;
    assert body[b..c] == r.address;
    assert body[c..] == r.payload;
  }

  /** Whatever follows it, an encodable record reads back exactly when the parser's shape rules hold. */
  lemma FrameReadsBack(crc: Checksum, r: Record, rest: seq<Byte>)
    requires Encodable(r)
    ensures NextFrame(crc, FrameOf(crc, r) + rest) ==
            if Valid(r) then Frame(r, |FrameOf(crc, r)|) else Torn
  {
    hide HeaderOf, BodyOf, ParseHeader, WithBody, BigEndian, FromBigEndian;
    var s := FrameOf(crc, r) + rest;
    ParseEncodedHeader(r);
    assert s[..HEADER_SIZE] == HeaderOf(r);
    if Valid(r) {
      var h := ParseHeader(HeaderOf(r));
      BodySplits(r, h);
      var n := HEADER_SIZE + BodyLen(h);
      assert s[..n] == HeaderOf(r) + BodyOf(r);
      assert s[HEADER_SIZE..n] == BodyOf(r);
      assert s[n..n + CRC_SIZE] == BigEndian(crc(s[..n]), 4);
      Widths();
      BigEndianRoundTrip(crc(s[..n]), 4);
    }
  }

  lemma EmptyLogEnds(crc: Checksum)
    ensures NextFrame(crc, []) == End
  {
  }

  /** A non-empty strict prefix of a valid frame is reported as torn. */
  lemma TornFrame(crc: Checksum, r: Record, k: nat)
    requires Valid(r) && 0 < k < |FrameOf(crc, r)|
    ensures NextFrame(crc, FrameOf(crc, r)[..k]) == Torn
  {
    var f := FrameOf(crc, r);
    if k >= HEADER_SIZE {
      ParseEncodedHeader(r);
      assert f[..k][..HEADER_SIZE] == HeaderOf(r);
    }
  }

  /** The other direction: whatever bytes were accepted as a frame are the encoding of what was read. */
  lemma AcceptedHeaderIsEncoded(bytes: seq<Byte>, r: Record)
    requires |bytes| == HEADER_SIZE
    requires var h := ParseHeader(bytes);
             h.Header? && h == Header(r.op, r.timestamp, r.ttl, |r.service|, |r.id|, |r.address|, |r.payload|)
    ensures HeaderOf(r) == bytes && Valid(r)
  {
    Widths();
    hide BigEndian, FromBigEndian, Pow256;
    BigEndianCanonical(bytes[0..4]);
    BigEndianCanonical(bytes[6..14]);
    BigEndianCanonical(bytes[14..16]);
    BigEndianCanonical(bytes[16..18]);
    BigEndianCanonical(bytes[18..20]);
    BigEndianCanonical(bytes[20..24]);
    BigEndianCanonical(bytes[24..32]);
    assert bytes == bytes[0..4] + [bytes[4]] + [bytes[5]] + bytes[6..14] + bytes[14..16] + bytes[16..18]
                    + bytes[18..20] + bytes[20..24] + bytes[24..32];
  }

  lemma BodyRejoins(h: Header, body: seq<Byte>)
    requires h.Header? && |body| == BodyLen(h)
    ensures var r := WithBody(h, body);
            && BodyOf(r) == body
            && h == Header(r.op, r.timestamp, r.ttl, |r.service|, |r.id|, |r.address|, |r.payload|)
  {
  }

  lemma AcceptedFrameIsEncoded(crc: Checksum, s: seq<Byte>)
    requires NextFrame(crc, s).Frame?
    ensures var n := NextFrame(crc, s);
            Valid(n.record) && FrameOf(crc, n.record) == s[..n.length]
  {
    hide HeaderOf, ParseHeader, BigEndian, FromBigEndian, WithBody, BodyOf, Valid;
    var h := ParseHeader(s[..HEADER_SIZE]);
    var n := HEADER_SIZE + BodyLen(h);
    var body := s[HEADER_SIZE..n];
    var r := WithBody(h, body);
    BodyRejoins(h, body);
    AcceptedHeaderIsEncoded(s[..HEADER_SIZE], r);
    assert s[..n] == s[..HEADER_SIZE] + body;
    BigEndianCanonical(s[n..n + CRC_SIZE]);
    assert s[..n + CRC_SIZE] == s[..n] + s[n..n + CRC_SIZE];
  }

  // ---------------------------------------------------------------- whole logs

  predicate AllValid(accepts: Record -> bool, rs: seq<Record>) {
    forall i :: 0 <= i < |rs| ==> Valid(rs[i]) && accepts(rs[i])
  }

  /** `tail` is what a crash can leave of one more frame: nothing, or a strict prefix of it. */
  ghost predicate TornTail(crc: Checksum, tail: seq<Byte>) {
    tail == [] || exists r: Record, k: nat :: TornAt(crc, r, k, tail)
  }

  ghost predicate TornAt(crc: Checksum, r: Record, k: nat, tail: seq<Byte>) {
    Valid(r) && 0 < k < |FrameOf(crc, r)| && tail == FrameOf(crc, r)[..k]
  }

  /** Main round trip: a log of valid records with any torn tail replays to exactly those records. */
  lemma {:induction false} ReplayOfLog(crc: Checksum, accepts: Record -> bool, rs: seq<Record>, tail: seq<Byte>)
    requires AllValid(accepts, rs) && TornTail(crc, tail)
    ensures Replay(crc, accepts, FramesOf(crc, rs) + tail) == Replayed(rs, |FramesOf(crc, rs)|, tail != [], false)
  {
    EmptyLogEnds(crc);
    hide FrameOf, NextFrame;
    if rs == [] {
      assert FramesOf(crc, rs) + tail == tail;
      if tail != [] {
        var r, k :| TornAt(crc, r, k, tail);
        TornFrame(crc, r, k);
      }
    } else {
      var rest := FramesOf(crc, rs[1..]) + tail;
      ConcatAssociates(FrameOf(crc, rs[0]), FramesOf(crc, rs[1..]), tail);
      FrameReadsBack(crc, rs[0], rest);
      CutConcat(FrameOf(crc, rs[0]), rest);
      ReplayOfLog(crc, accepts, rs[1..], tail);
      assert rs == [rs[0]] + rs[1..];
    }
  }

  /** Encoding undoes replay: on arbitrary bytes, the prefix kept is the log of the records returned. */
  lemma {:induction false} ReplayIsCanonical(crc: Checksum, accepts: Record -> bool, s: seq<Byte>)
    ensures var r := Replay(crc, accepts, s);
            && r.validBytes <= |s| && AllValid(accepts, r.records)
            && s[..r.validBytes] == FramesOf(crc, r.records)
    decreases |s|
  {
    hide FrameOf, NextFrame;
    var next := NextFrame(crc, s);
    if next.Frame? && accepts(next.record) {
      var n := next.length;
      AcceptedFrameIsEncoded(crc, s);
      ReplayIsCanonical(crc, accepts, s[n..]);
      var r := Replay(crc, accepts, s);
      var rest := Replay(crc, accepts, s[n..]);
      assert s[..r.validBytes] == s[..n] + s[n..][..rest.validBytes];
      assert r.records[0] == next.record && r.records[1..] == rest.records;
    }
  }

  /** Truncating to `validBytes` is idempotent: the second replay sees the same records and no damage. */
  lemma TruncationIsStable(crc: Checksum, accepts: Record -> bool, s: seq<Byte>)
    ensures var r := Replay(crc, accepts, s);
            r.validBytes <= |s| &&
            Replay(crc, accepts, s[..r.validBytes]) == Replayed(r.records, r.validBytes, false, false)
  {
    var r := Replay(crc, accepts, s);
    ReplayIsCanonical(crc, accepts, s);
    ReplayOfLog(crc, accepts, r.records, []);
    assert FramesOf(crc, r.records) + [] == s[..r.validBytes];
  }

  lemma {:induction false} FramesOfConcat(crc: Checksum, a: seq<Record>, b: seq<Record>)
    ensures FramesOf(crc, a + b) == FramesOf(crc, a) + FramesOf(crc, b)
  {
    hide FrameOf;
    if a == [] {
      assert a + b == b;
    } else {
      FramesOfConcat(crc, a[1..], b);
      ConcatAssociates(FrameOf(crc, a[0]), FramesOf(crc, a[1..]), FramesOf(crc, b));
      assert (a + b)[0] == a[0] && (a + b)[1..] == a[1..] + b;
    }
  }

  /** A log cut at any byte is whole frames followed by a torn tail. */
  lemma {:induction false} CutLog(crc: Checksum, rs: seq<Record>, k: nat) returns (n: nat, tail: seq<Byte>)
    requires k <= |FramesOf(crc, rs)|
    requires forall i :: 0 <= i < |rs| ==> Valid(rs[i])
    ensures n <= |rs| && TornTail(crc, tail)
    ensures FramesOf(crc, rs)[..k] == FramesOf(crc, rs[..n]) + tail
    ensures n < |rs| ==> k < |FramesOf(crc, rs[..n + 1])|
  {
    hide FrameOf, FramesOf;
    FramesOfNone(crc);
    if rs == [] {
      n, tail := 0, [];
    } else {
      var f, rest := FrameOf(crc, rs[0]), FramesOf(crc, rs[1..]);
      FramesHead(crc, rs, |rs|);
      FramesHead(crc, rs, 1);
      assert rs[..|rs|] == rs && rs[1..][..|rs| - 1] == rs[1..] && rs[1..][..0] == [];
      if k < |f| {
        n, tail := 0, f[..k];
        assert rs[..0] == [];
        assert (f + rest)[..k] == tail;
        assert k > 0 ==> TornAt(crc, rs[0], k, tail);
      } else {
        var m: nat;
        m, tail := CutLog(crc, rs[1..], k - |f|);
        n := m + 1;
        TakeConcat(f, rest, k);
        FramesHead(crc, rs, n);
        ConcatAssociates(f, FramesOf(crc, rs[1..][..m]), tail);
        if n < |rs| {
          FramesHead(crc, rs, n + 1);
        }
      }
    }
  }

  lemma FramesOfNone(crc: Checksum)
    ensures FramesOf(crc, []) == []
  {
  }

  lemma FramesHead(crc: Checksum, rs: seq<Record>, n: nat)
    requires 0 < n <= |rs|
    ensures FramesOf(crc, rs[..n]) == FrameOf(crc, rs[0]) + FramesOf(crc, rs[1..][..n - 1])
  {
    hide FrameOf;
    assert rs[..n][1..] == rs[1..][..n - 1];
  }

  lemma LongerLogIsLonger(crc: Checksum, rs: seq<Record>, m: nat, n: nat)
    requires m <= n <= |rs|
    ensures |FramesOf(crc, rs[..m])| <= |FramesOf(crc, rs[..n])|
  {
    assert rs[..n] == rs[..m] + rs[m..n];
    FramesOfConcat(crc, rs[..m], rs[m..n]);
  }

  /**
   Crash anywhere: when only the first `k` bytes of a log survive, replay returns exactly the
   records whose frames fit in `k` bytes -- a prefix of append order, never a middle record.
   */
  lemma CrashKeepsPrefix(crc: Checksum, accepts: Record -> bool, rs: seq<Record>, k: nat) returns (n: nat)
    requires AllValid(accepts, rs) && k <= |FramesOf(crc, rs)|
    ensures n <= |rs|
    ensures Replay(crc, accepts, FramesOf(crc, rs)[..k]).records == rs[..n]
    ensures !Replay(crc, accepts, FramesOf(crc, rs)[..k]).failed
    ensures forall m :: 0 <= m <= |rs| ==> (|FramesOf(crc, rs[..m])| <= k <==> m <= n)
  {
    var tail;
    n, tail := CutLog(crc, rs, k);
    ReplayOfLog(crc, accepts, rs[..n], tail);
    hide FramesOf, Replay;
    forall m | 0 <= m <= |rs| ensures |FramesOf(crc, rs[..m])| <= k <==> m <= n {
      if m <= n {
        LongerLogIsLonger(crc, rs, m, n);
      } else {
        LongerLogIsLonger(crc, rs, n + 1, m);
      }
    }
  }

  // ---------------------------------------------------------------- the code's own form

  /** Writes `v` big-endian into the next `width` bytes of `out`. */
  method PutBigEndian(out: array<Byte>, offset: nat, v: nat, width: nat)
    requires offset + width <= out.Length
    modifies out
    ensures out[..offset + width] == old(out[..offset]) + BigEndian(v, width)
    ensures forall j :: offset + width <= j < out.Length ==> out[j] == old(out[j])
  {
    var rest, i := v, width;
    while i > 0
      invariant 0 <= i <= width
      invariant BigEndian(v, width) == BigEndian(rest, i) + out[offset + i..offset + width]
      invariant out[..offset] == old(out[..offset])
      invariant forall j :: offset + width <= j < out.Length ==> out[j] == old(out[j])
    {
      i := i - 1;
      out[offset + i] := rest % 256;
      rest := rest / 256;
      assert out[offset + i..offset + width] == [out[offset + i]] + out[offset + i + 1..offset + width];
    }
    assert out[..offset + width] == out[..offset] + out[offset..offset + width];
  }

  /** Copies `src` into the next bytes of `out` and returns the offset behind it. */
  method CopyInto(out: array<Byte>, offset: nat, src: seq<Byte>) returns (next: nat)
    requires offset + |src| <= out.Length
    modifies out
    ensures next == offset + |src|
    ensures out[..next] == old(out[..offset]) + src
  {
    for i := 0 to |src|
      invariant out[..offset + i] == old(out[..offset]) + src[..i]
    {
      out[offset + i] := src[i];
    }
    next := offset + |src|;
  }

  /** Fills the first 32 bytes of `out` and leaves the rest alone. */
  method PutHeader(out: array<Byte>, r: Record)
    requires Encodable(r) && out.Length >= HEADER_SIZE
    modifies out
    ensures out[..HEADER_SIZE] == HeaderOf(r)
    ensures forall j :: HEADER_SIZE <= j < out.Length ==> out[j] == old(out[j])
  {
    hide BigEndian;
    PutBigEndian(out, 0, MAGIC, 4);
    out[4], out[5] := VERSION, r.op;
    assert out[..6] == out[..4] + [VERSION] + [r.op];
    PutBigEndian(out, 6, ToUint64(r.timestamp), 8);
    PutBigEndian(out, 14, |r.service|, 2);
    PutBigEndian(out, 16, |r.id|, 2);
    PutBigEndian(out, 18, |r.address|, 2);
    PutBigEndian(out, 20, |r.payload|, 4);
    PutBigEndian(out, 24, ToUint64(r.ttl), 8);
  }

  /** Copies the four variable-length fields behind the header. */
  method PutBody(out: array<Byte>, r: Record) returns (next: nat)
    requires out.Length >= HEADER_SIZE + |BodyOf(r)|
    modifies out
    ensures next == HEADER_SIZE + |BodyOf(r)|
    ensures out[..next] == old(out[..HEADER_SIZE]) + BodyOf(r)
  {
    ghost var header := out[..HEADER_SIZE];
    next := CopyInto(out, HEADER_SIZE, r.service);
    next := CopyInto(out, next, r.id);
    ConcatAssociates(header, r.service, r.id);
    next := CopyInto(out, next, r.address);
    ConcatAssociates(header, r.service + r.id, r.address);
    next := CopyInto(out, next, r.payload);
    ConcatAssociates(header, r.service + r.id + r.address, r.payload);
  }

  /**
   Fills one buffer with the frame of `record`, or refuses an oversized record. A record without a
   time of its own gets the current one, `wall`.
   */
  method EncodeRecord(crc: Checksum, record: Record, timed: bool, wall: Int64) returns (out: array?<Byte>)
    ensures out == null <==> !Encodable(record)
    ensures out != null ==>
              fresh(out) && out[..] == FrameOf(crc, if timed then record else record.(timestamp := wall))
  {
    var r := if timed then record else record.(timestamp := wall);
    if |r.service| > 0xffff || |r.id| > 0xffff || |r.address| > 0xffff || |r.payload| > MAX_PAYLOAD_LEN {
      return null;
    }
    var bodyLen := |r.service| + |r.id| + |r.address| + |r.payload|;
    assert bodyLen == |BodyOf(r)|;
    hide BigEndian, HeaderOf, BodyOf;
    out := new Byte[HEADER_SIZE + bodyLen + CRC_SIZE](_ => 0);
    PutHeader(out, r);
    var offset := PutBody(out, r);
    PutBigEndian(out, offset, crc(out[..offset]), 4);
    assert out[..] == out[..offset + 4];
  }

  /** Reads one frame at the front of `rest`: header, body, checksum. */
  method ReadFrame(crc: Checksum, rest: seq<Byte>) returns (next: Next)
    requires rest != []
    ensures next == NextFrame(crc, rest) && !next.End?
  {
    hide BigEndian, FromBigEndian, ParseHeader;
    if |rest| < HEADER_SIZE {
      return Torn;
    }
    var header := ParseHeader(rest[..HEADER_SIZE]);
    if header.BadHeader? {
      return Torn;
    }
    var n := HEADER_SIZE + BodyLen(header);
    if |rest| < n + CRC_SIZE {
      return Torn;
    }
    if crc(rest[..n]) != FromBigEndian(rest[n..n + CRC_SIZE]) {
      return Torn;
    }
    return Frame(WithBody(header, rest[HEADER_SIZE..n]), n + CRC_SIZE);
  }

  /** The result of replaying a prefix whole, then the rest. */
  function After(done: Replayed, rest: Replayed): Replayed {
    Replayed(done.records + rest.records, done.validBytes + rest.validBytes, rest.truncated, rest.failed)
  }

  lemma AfterOne(crc: Checksum, accepts: Record -> bool, done: Replayed, s: seq<Byte>)
    requires NextFrame(crc, s).Frame? && accepts(NextFrame(crc, s).record)
    ensures var next := NextFrame(crc, s);
            After(done, Replay(crc, accepts, s)) ==
            After(Replayed(done.records + [next.record], done.validBytes + next.length, false, false),
                  Replay(crc, accepts, s[next.length..]))
  {
    hide NextFrame;
    var next := NextFrame(crc, s);
    ConcatAssociates(done.records, [next.record], Replay(crc, accepts, s[next.length..]).records);
  }

  /** Where replay stops, and with what. */
  lemma AfterStop(crc: Checksum, accepts: Record -> bool, done: Replayed, s: seq<Byte>)
    requires !done.truncated && !done.failed
    ensures var next, all := NextFrame(crc, s), After(done, Replay(crc, accepts, s));
            && (next.End? ==> all == done)
            && (next.Torn? ==> all == done.(truncated := true))
            && (next.Frame? && !accepts(next.record) ==> all == done.(failed := true))
  {
    hide NextFrame;
    assert done.records + [] == done.records;
  }

  lemma AfterNothing(r: Replayed)
    ensures After(Replayed([], 0, false, false), r) == r
  {
    assert [] + r.records == r.records;
  }

  /** The replay loop: stops where the log stops making sense and counts what it kept. */
  method ReplayLog(crc: Checksum, accepts: Record -> bool, file: seq<Byte>) returns (result: Replayed)
    ensures result == Replay(crc, accepts, file)
  {
    hide NextFrame, Replay, After;
    result := Replayed([], 0, false, false);
    EmptyLogEnds(crc);
    AfterNothing(Replay(crc, accepts, file));
    assert file[0..] == file;
    while result.validBytes < |file|
      invariant result.validBytes <= |file| && !result.truncated && !result.failed
      invariant Replay(crc, accepts, file) == After(result, Replay(crc, accepts, file[result.validBytes..]))
    {
      var rest := file[result.validBytes..];
      var next := ReadFrame(crc, rest);
      AfterStop(crc, accepts, result, rest);
      if next.Torn? {
        return result.(truncated := true);
      }
      if !accepts(next.record) {
        return result.(failed := true);
      }
      AfterOne(crc, accepts, result, rest);
      result := Replayed(result.records + [next.record], result.validBytes + next.length, false, false);
      assert rest[next.length..] == file[result.validBytes..];
    }
    AfterStop(crc, accepts, result, file[result.validBytes..]);
    assert file[result.validBytes..] == [];
  }
}
