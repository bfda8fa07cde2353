/** The write-ahead log: record frames, payloads and segments
    (crates/persistence/src/record.rs and wal.rs).  The checksum is any function
    of the record body; names are byte strings. */
module Wal {
  import opened Basics
  import opened Bytes

  type Crc = seq<Byte> -> Word

  /** A mutation of the store, as one record carries it. */
  datatype Mutation =
    | MapPut(stamp: nat, ttl: nat, map_: seq<Byte>, key: seq<Byte>, value: seq<Byte>)
    | MapRemove(stamp: nat, map_: seq<Byte>, key: seq<Byte>)
    | AuxState(kind: Byte, name: seq<Byte>, state: seq<Byte>)

  function Tag(m: Mutation): nat {
    match m
    case MapPut(_, _, _, _, _) => 1
    case MapRemove(_, _, _) => 2
    case AuxState(_, _, _) => 3
  }

  function Payload(m: Mutation): seq<Byte> {
    match m
    case MapPut(stamp, ttl, name, key, value) =>
      Le(stamp, 8) + Le(ttl, 8) + Prefixed(name) + Prefixed(key) + Prefixed(value)
    case MapRemove(stamp, name, key) => Le(stamp, 8) + Prefixed(name) + Prefixed(key)
    case AuxState(kind, name, state) => [kind] + Prefixed(name) + Prefixed(state)
  }

  /** Numbers fit their fields and lengths their prefixes. */
  predicate Fits(m: Mutation) {
    && 2 + |Payload(m)| < U32
    && (m.MapPut? ==> m.stamp < U64 && m.ttl < U64)
    && (m.MapRemove? ==> m.stamp < U64)
  }

  function ParsePut(p: seq<Byte>): Option<Mutation> {
    if |p| < 16 then None
    else match ReadPrefixed(p, 16)
      case Short => None
      case Got(name, o1) =>
        match ReadPrefixed(p, o1)
        case Short => None
        case Got(key, o2) =>
          match ReadPrefixed(p, o2)
          case Short => None
          case Got(value, _) => Some(MapPut(FromLe(p[0..8]), FromLe(p[8..16]), name, key, value))
  }

  function ParseRemove(p: seq<Byte>): Option<Mutation> {
    if |p| < 8 then None
    else match ReadPrefixed(p, 8)
      case Short => None
      case Got(name, o1) =>
        match ReadPrefixed(p, o1)
        case Short => None
        case Got(key, _) => Some(MapRemove(FromLe(p[0..8]), name, key))
  }

  function ParseAux(p: seq<Byte>): Option<Mutation> {
    if |p| == 0 then None
    else match ReadPrefixed(p, 1)
      case Short => None
      case Got(name, o1) =>
        match ReadPrefixed(p, o1)
        case Short => None
        case Got(state, _) => Some(AuxState(p[0], name, state))
  }

  function Parse(tag: nat, payload: seq<Byte>): Option<Mutation> {
    if tag == 1 then ParsePut(payload)
    else if tag == 2 then ParseRemove(payload)
    else if tag == 3 then ParseAux(payload)
    else None
  }

  lemma PutRoundTrip(m: Mutation)
    requires m.MapPut? && Fits(m)
    ensures ParsePut(Payload(m)) == Some(m)
  {
    var head := Le(m.stamp, 8) + Le(m.ttl, 8);
    Le64(m.stamp);
    Le64(m.ttl);
    assert head[0..8] == Le(m.stamp, 8) && head[8..16] == Le(m.ttl, 8);
    PutParts(head, m.map_, m.key, m.value, Payload(m));
  }

  lemma PutParts(head: seq<Byte>, name: seq<Byte>, key: seq<Byte>, value: seq<Byte>, p: seq<Byte>)
    requires |head| == 16 && |name| < U32 && |key| < U32 && |value| < U32
    requires p == head + Prefixed(name) + Prefixed(key) + Prefixed(value)
    ensures ParsePut(p) == Some(MapPut(FromLe(head[0..8]), FromLe(head[8..16]), name, key, value))
  {
    var o1 := 16 + 4 + |name|;
    ThreeStrings(p, head, name, key, value);
    Heads(head, Prefixed(name), Prefixed(key), Prefixed(value));
    PutFrom(p, MapPut(FromLe(head[0..8]), FromLe(head[8..16]), name, key, value),
            o1, o1 + 4 + |key|, o1 + 4 + |key| + 4 + |value|);
  }

  lemma Heads(head: seq<Byte>, a: seq<Byte>, b: seq<Byte>, c: seq<Byte>)
    requires |head| == 16
    ensures (head + a + b + c)[0..8] == head[0..8] && (head + a + b + c)[8..16] == head[8..16]
  {
    assert head + a + b + c == head + (a + b + c);
  }

  lemma PutFrom(p: seq<Byte>, m: Mutation, o1: nat, o2: nat, o3: nat)
    requires m.MapPut? && |p| >= 16
    requires FromLe(p[0..8]) == m.stamp && FromLe(p[8..16]) == m.ttl
    requires ReadPrefixed(p, 16) == Got(m.map_, o1)
    requires ReadPrefixed(p, o1) == Got(m.key, o2)
    requires ReadPrefixed(p, o2) == Got(m.value, o3)
    ensures ParsePut(p) == Some(m)
  {
  }

  /** Consecutive length-prefixed strings read back in order. */
  lemma ThreeStrings(p: seq<Byte>, head: seq<Byte>, a: seq<Byte>, b: seq<Byte>, c: seq<Byte>)
    requires |a| < U32 && |b| < U32 && |c| < U32
    requires p == head + Prefixed(a) + Prefixed(b) + Prefixed(c)
    ensures var oa := |head|;
            var ob := oa + 4 + |a|;
            var oc := ob + 4 + |b|;
            && ReadPrefixed(p, oa) == Got(a, ob)
            && ReadPrefixed(p, ob) == Got(b, oc)
            && ReadPrefixed(p, oc) == Got(c, oc + 4 + |c|)
  {
    var pa, pb, pc := Prefixed(a), Prefixed(b), Prefixed(c);
    Regroup(head, pa, pb, pc);
    ReadsPrefixed(p, head, a, pb + pc);
    ReadsPrefixed(p, head + pa, b, pc);
    ReadsPrefixed(p, head + pa + pb, c, []);
  }

  lemma Regroup(head: seq<Byte>, a: seq<Byte>, b: seq<Byte>, c: seq<Byte>)
    ensures head + a + b + c == head + a + (b + c)
    ensures head + a + b + c == head + a + b + c + []
  {
  }

  lemma RemoveRoundTrip(m: Mutation)
    requires m.MapRemove? && Fits(m)
    ensures ParseRemove(Payload(m)) == Some(m)
  {
    var head := Le(m.stamp, 8);
    Le64(m.stamp);
    TwoStrings(head, m.map_, m.key);
    assert Payload(m)[0..8] == head;
  }

  lemma TwoStrings(head: seq<Byte>, a: seq<Byte>, b: seq<Byte>)
    requires |a| < U32 && |b| < U32
    ensures var p := head + Prefixed(a) + Prefixed(b);
            var ob := |head| + 4 + |a|;
            && ReadPrefixed(p, |head|) == Got(a, ob)
            && ReadPrefixed(p, ob) == Got(b, ob + 4 + |b|)
  {
    var pa, pb := Prefixed(a), Prefixed(b);
    assert head + pa + pb == head + pa + pb + [];
    ReadsPrefixed(head + pa + pb, head, a, pb);
    ReadsPrefixed(head + pa + pb, head + pa, b, []);
  }

  lemma AuxRoundTrip(m: Mutation)
    requires m.AuxState? && Fits(m)
    ensures ParseAux(Payload(m)) == Some(m)
  {
    TwoStrings([m.kind], m.name, m.state);
  }

  /** Parsing a payload gives back the mutation it was made from. */
  lemma PayloadRoundTrip(m: Mutation)
    requires Fits(m)
    ensures Parse(Tag(m), Payload(m)) == Some(m)
  {
    match m
    case MapPut(_, _, _, _, _) => PutRoundTrip(m);
    case MapRemove(_, _, _) => RemoveRoundTrip(m);
    case AuxState(_, _, _) => AuxRoundTrip(m);
  }

  // ---------- frames ----------

  const HEADER := 8

  function Body(m: Mutation): seq<Byte> {
    Le(Tag(m), 2) + Payload(m)
  }

  /** `[length][checksum][type][payload]`, the length counting type and payload. */
  function Frame(crc: Crc, m: Mutation): seq<Byte> {
    Le(|Body(m)|, 4) + Le(crc(Body(m)), 4) + Body(m)
  }

  datatype Decoded = Record(tag: nat, payload: seq<Byte>, consumed: nat) | NeedMore | Torn

  function Decode(crc: Crc, bytes: seq<Byte>): (d: Decoded)
    ensures d.Record? ==> HEADER + 2 <= d.consumed <= |bytes|
  {
    if |bytes| < HEADER then NeedMore
    else
      var bodyLen := FromLe(bytes[0..4]);
      var sum := FromLe(bytes[4..8]);
      if bodyLen < 2 then Torn
      else if |bytes| < HEADER + bodyLen then NeedMore
      else
        var body := bytes[HEADER..HEADER + bodyLen];
        var tag := FromLe(body[0..2]);
        if crc(body) != sum || tag < 1 || tag > 3 then Torn
        else Record(tag, body[2..], HEADER + bodyLen)
  }

  lemma FrameParts(crc: Crc, m: Mutation, rest: seq<Byte>)
    requires Fits(m)
    ensures var s := Frame(crc, m) + rest;
            && |Frame(crc, m)| == HEADER + |Body(m)|
            && FromLe(s[0..4]) == |Body(m)|
            && FromLe(s[4..8]) == crc(Body(m))
            && s[HEADER..HEADER + |Body(m)|] == Body(m)
  {
    Le32(|Body(m)|);
    Le32(crc(Body(m)));
    FourPieces(Le(|Body(m)|, 4), Le(crc(Body(m)), 4), Body(m), rest);
  }

  lemma FourPieces(len: seq<Byte>, sum: seq<Byte>, body: seq<Byte>, rest: seq<Byte>)
    requires |len| == 4 && |sum| == 4
    ensures var s := len + sum + body + rest;
            && s[0..4] == len
            && s[4..8] == sum
            && s[8..8 + |body|] == body
  {
    Piece([], len, sum + body + rest);
    assert [] + len + (sum + body + rest) == len + sum + body + rest;
    Piece(len, sum, body + rest);
    assert len + sum + (body + rest) == len + sum + body + rest;
    Piece(len + sum, body, rest);
  }

  /** A complete frame decodes to its record, whatever follows it. */
  lemma FrameRoundTrip(crc: Crc, m: Mutation, rest: seq<Byte>)
    requires Fits(m)
    ensures Decode(crc, Frame(crc, m) + rest) == Record(Tag(m), Payload(m), |Frame(crc, m)|)
  {
    FrameParts(crc, m, rest);
    Le16(Tag(m));
    assert Body(m)[0..2] == Le(Tag(m), 2) && Body(m)[2..] == Payload(m);
  }

  /** A frame cut short by a crash never decodes. */
  lemma TornFrame(crc: Crc, m: Mutation, n: nat)
    requires Fits(m) && n < |Frame(crc, m)|
    ensures !Decode(crc, Frame(crc, m)[..n]).Record?
  {
    FrameParts(crc, m, []);
    assert Frame(crc, m) + [] == Frame(crc, m);
    if n >= HEADER { assert Frame(crc, m)[..n][0..4] == Frame(crc, m)[0..4]; }
  }

  // ---------- segments ----------

  datatype Rec = Rec(tag: nat, payload: seq<Byte>)

  function RecOf(m: Mutation): Rec {
    Rec(Tag(m), Payload(m))
  }

  predicate AllFit(ms: seq<Mutation>) {
    forall i :: 0 <= i < |ms| ==> Fits(ms[i])
  }

  function Frames(crc: Crc, ms: seq<Mutation>): (fs: seq<seq<Byte>>)
    ensures |fs| == |ms| && forall i :: 0 <= i < |ms| ==> fs[i] == Frame(crc, ms[i])
  {
    seq(|ms|, i requires 0 <= i < |ms| => Frame(crc, ms[i]))
  }

  /** The bytes of a segment to which `ms` were appended. */
  function Segment(crc: Crc, ms: seq<Mutation>): seq<Byte> {
    Concat(Frames(crc, ms))
  }

  /** The records a reader gets: it stops at the first frame that does not decode. */
  function Records(crc: Crc, bytes: seq<Byte>): seq<Rec>
    decreases |bytes|
  {
    match Decode(crc, bytes)
    case Record(tag, payload, consumed) => [Rec(tag, payload)] + Records(crc, bytes[consumed..])
    case _ => []
  }

  /** Read a whole segment, stopping at a torn or corrupt tail. */
  method ReadSegment(crc: Crc, bytes: seq<Byte>) returns (out: seq<Rec>)
    ensures out == Records(crc, bytes)
  {
    out := [];
    var rest := bytes;
    while rest != []
      invariant out + Records(crc, rest) == Records(crc, bytes)
      decreases |rest|
    {
      var d := Decode(crc, rest);
      if !d.Record? { break; }
      out, rest := out + [Rec(d.tag, d.payload)], rest[d.consumed..];
    }
  }

  /** How many parts lie whole within the first `n` bytes. */
  function Whole(parts: seq<seq<Byte>>, n: nat): (k: nat)
    ensures k <= |parts|
    decreases |parts|
  {
    if parts == [] || n < |parts[0]| then 0 else 1 + Whole(parts[1..], n - |parts[0]|)
  }

  lemma {:induction false} WholeMonotone(parts: seq<seq<Byte>>, a: nat, b: nat)
    requires a <= b
    ensures Whole(parts, a) <= Whole(parts, b)
    decreases |parts|
  {
    if parts != [] && |parts[0]| <= a { WholeMonotone(parts[1..], a - |parts[0]|, b - |parts[0]|); }
  }

  function MutationsOf(rs: seq<Rec>): seq<Mutation> {
    if rs == [] then []
    else (match Parse(rs[0].tag, rs[0].payload)
          case None => []
          case Some(m) => [m]) + MutationsOf(rs[1..])
  }

  /** What replaying a segment file applies, record by record. */
  function Replayed(crc: Crc, bytes: seq<Byte>): seq<Mutation> {
    MutationsOf(Records(crc, bytes))
  }

  /** Read back, `f` is `m` when whole and nothing when cut. */
  ghost predicate Carries<T(!new)>(read: seq<Byte> -> seq<T>, f: seq<Byte>, m: T) {
    && (forall rest :: read(f + rest) == [m] + read(rest))
    && (forall n: nat :: n < |f| ==> read(f[..n]) == [])
  }

  function Reader(crc: Crc): seq<Byte> -> seq<Mutation> {
    bytes => Replayed(crc, bytes)
  }

  lemma FrameCarries(crc: Crc, m: Mutation)
    requires Fits(m)
    ensures Carries(Reader(crc), Frame(crc, m), m)
  {
    var f := Frame(crc, m);
    forall rest ensures Reader(crc)(f + rest) == [m] + Reader(crc)(rest) {
      ReadsFirst(crc, m, rest);
    }
    forall n: nat | n < |f| ensures Reader(crc)(f[..n]) == [] {
      TornFrame(crc, m, n);
    }
  }

  lemma ReadsFirst(crc: Crc, m: Mutation, rest: seq<Byte>)
    requires Fits(m)
    ensures Replayed(crc, Frame(crc, m) + rest) == [m] + Replayed(crc, rest)
  {
    FrameRoundTrip(crc, m, rest);
    PayloadRoundTrip(m);
    assert (Frame(crc, m) + rest)[|Frame(crc, m)|..] == rest;
    var rs := Records(crc, Frame(crc, m) + rest);
    assert rs == [RecOf(m)] + Records(crc, rest);
    assert rs[1..] == Records(crc, rest);
  }

  ghost predicate AllCarry<T(!new)>(read: seq<Byte> -> seq<T>, parts: seq<seq<Byte>>, ms: seq<T>) {
    && |parts| == |ms|
    && (forall i :: 0 <= i < |ms| ==> Carries(read, parts[i], ms[i]))
  }

  lemma {:induction false} CutConcat<T(!new)>(read: seq<Byte> -> seq<T>, parts: seq<seq<Byte>>, ms: seq<T>, n: nat)
    requires AllCarry(read, parts, ms) && n <= |Concat(parts)| && read([]) == []
    ensures read(Concat(parts)[..n]) == ms[..Whole(parts, n)]
    decreases |ms|
  {
    if ms == [] {
      assert Concat(parts)[..n] == [];
    } else {
      var f, rest := parts[0], Concat(parts[1..]);
      assert Carries(read, parts[0], ms[0]);
      if n < |f| {
        assert (f + rest)[..n] == f[..n];
      } else {
        CutConcat(read, parts[1..], ms[1..], n - |f|);
        assert (f + rest)[..n] == f + rest[..n - |f|];
      }
    }
  }

  /** Cut a segment at any byte: what reads back is a prefix of what was
      appended, namely every record that survived whole. */
  lemma CutSegment(crc: Crc, ms: seq<Mutation>, n: nat)
    requires AllFit(ms) && n <= |Segment(crc, ms)|
    ensures Replayed(crc, Segment(crc, ms)[..n]) == ms[..Whole(Frames(crc, ms), n)]
  {
    forall i | 0 <= i < |ms| ensures Carries(Reader(crc), Frames(crc, ms)[i], ms[i]) {
      FrameCarries(crc, ms[i]);
    }
    CutConcat(Reader(crc), Frames(crc, ms), ms, n);
  }

  lemma {:induction false} WholeConcat(parts: seq<seq<Byte>>)
    ensures Whole(parts, |Concat(parts)|) == |parts|
    decreases |parts|
  {
    if parts != [] { WholeConcat(parts[1..]); }
  }

  /** An uncut segment reads back as exactly what was appended. */
  lemma WholeSegment(crc: Crc, ms: seq<Mutation>)
    requires AllFit(ms)
    ensures Replayed(crc, Segment(crc, ms)) == ms
  {
    var bytes := Segment(crc, ms);
    CutSegment(crc, ms, |bytes|);
    WholeConcat(Frames(crc, ms));
    assert bytes[..|bytes|] == bytes && ms[..|ms|] == ms;
  }

  lemma SegmentAppend(crc: Crc, ms: seq<Mutation>, m: Mutation)
    ensures Segment(crc, ms + [m]) == Segment(crc, ms) + Frame(crc, m)
  {
    ConcatAppend(Frames(crc, ms), Frame(crc, m));
    assert Frames(crc, ms + [m]) == Frames(crc, ms) + [Frame(crc, m)];
  }
}
