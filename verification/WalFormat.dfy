/** The log's records byte for byte: what decodes is exactly what was framed, and
    damage is never read as a record (crates/persistence/src/record.rs, wal.rs). */
module WalFormat {
  import opened Bytes
  import opened Wal

  lemma OneDigit(b: Byte, r: nat)
    ensures (b + 256 * r) % 256 == b && (b + 256 * r) / 256 == r
  {
  }

  lemma {:induction false} LeOfBytes(s: seq<Byte>)
    ensures Le(FromLe(s), |s|) == s
    decreases |s|
  {
    if s != [] {
      var r := FromLe(s[1..]);
      LeOfBytes(s[1..]);
      OneDigit(s[0], r);
      assert Le(s[0] + 256 * r, |s|) == [s[0]] + Le(r, |s| - 1);
    }
  }

  lemma {:induction false} FromLeBound(s: seq<Byte>)
    ensures FromLe(s) < Pow256(|s|)
    decreases |s|
  {
    if s != [] { FromLeBound(s[1..]); }
  }

  /** A record's bytes: the length of type and payload, their checksum, the type and
      the payload. */
  function Framed(crc: Crc, tag: nat, payload: seq<Byte>): seq<Byte> {
    Le(2 + |payload|, 4) + Le(crc(Le(tag, 2) + payload), 4) + (Le(tag, 2) + payload)
  }

  lemma FramedParts(crc: Crc, tag: nat, payload: seq<Byte>, rest: seq<Byte>)
    requires 2 + |payload| < U32
    ensures var s, body := Framed(crc, tag, payload) + rest, Le(tag, 2) + payload;
            && |Framed(crc, tag, payload)| == HEADER + |body|
            && FromLe(s[0..4]) == |body|
            && FromLe(s[4..8]) == crc(body)
            && s[HEADER..HEADER + |body|] == body
  {
    var body := Le(tag, 2) + payload;
    Le32(|body|);
    Le32(crc(body));
    FourPieces(Le(|body|, 4), Le(crc(body), 4), body, rest);
  }

  lemma FramedDecodes(crc: Crc, tag: nat, payload: seq<Byte>, rest: seq<Byte>)
    requires 1 <= tag <= 3 && 2 + |payload| < U32
    ensures Decode(crc, Framed(crc, tag, payload) + rest) == Record(tag, payload, HEADER + 2 + |payload|)
  {
    FramedParts(crc, tag, payload, rest);
    Le16(tag);
    var body := Le(tag, 2) + payload;
    assert body[0..2] == Le(tag, 2) && body[2..] == payload;
  }

  lemma Split(bytes: seq<Byte>, n: nat)
    requires HEADER + n <= |bytes|
    ensures bytes[..HEADER + n] == bytes[0..4] + bytes[4..8] + bytes[HEADER..HEADER + n]
  {
  }

  lemma DecodedIsFramed(crc: Crc, bytes: seq<Byte>)
    requires Decode(crc, bytes).Record?
    ensures var d := Decode(crc, bytes);
            && 1 <= d.tag <= 3 && 2 + |d.payload| < U32 && d.consumed <= |bytes|
            && bytes[..d.consumed] == Framed(crc, d.tag, d.payload)
  {
    var n := FromLe(bytes[0..4]);
    var body := bytes[HEADER..HEADER + n];
    Split(bytes, n);
    FromLeBound(bytes[0..4]);
    Pow256Is();
    LeOfBytes(bytes[0..4]);
    LeOfBytes(bytes[4..8]);
    LeOfBytes(body[0..2]);
    assert body == body[0..2] + body[2..];
  }

  /** Bytes decode to a record exactly when they begin with that record's frame;
      so a frame with any byte of its type or payload changed decodes only if the
      checksum happens to agree. */
  lemma DecodeIff(crc: Crc, bytes: seq<Byte>, tag: nat, payload: seq<Byte>, consumed: nat)
    ensures Decode(crc, bytes) == Record(tag, payload, consumed) <==>
            && 1 <= tag <= 3 && 2 + |payload| < U32
            && consumed == HEADER + 2 + |payload| <= |bytes|
            && bytes[..consumed] == Framed(crc, tag, payload)
  {
    if Decode(crc, bytes) == Record(tag, payload, consumed) {
      DecodedIsFramed(crc, bytes);
    } else if 1 <= tag <= 3 && 2 + |payload| < U32 && consumed == HEADER + 2 + |payload| <= |bytes| {
      if bytes[..consumed] == Framed(crc, tag, payload) {
        assert bytes == Framed(crc, tag, payload) + bytes[consumed..];
        FramedDecodes(crc, tag, payload, bytes[consumed..]);
      }
    }
  }

  /** What is torn stays torn, whatever is written after it; and a header that no
      record can have, its length being below two, is torn. */
  lemma TornIsFinal(crc: Crc, bytes: seq<Byte>, rest: seq<Byte>)
    requires || Decode(crc, bytes).Torn?
             || (|bytes| >= HEADER && (bytes[0..4] == [0, 0, 0, 0] || bytes[0..4] == [1, 0, 0, 0]))
    ensures Decode(crc, bytes).Torn? && Decode(crc, bytes + rest).Torn?
  {
    var all := bytes + rest;
    assert all[0..4] == bytes[0..4] && all[4..8] == bytes[4..8];
    SmallLe(0);
    SmallLe(1);
    Le32(0);
    Le32(1);
    var n := FromLe(bytes[0..4]);
    if n >= 2 { assert all[HEADER..HEADER + n] == bytes[HEADER..HEADER + n]; }
  }

  /** A frame not yet all there asks for more. */
  lemma CutAsksForMore(crc: Crc, tag: nat, payload: seq<Byte>, n: nat)
    requires 2 + |payload| < U32 && n < HEADER + 2 + |payload|
    ensures Decode(crc, Framed(crc, tag, payload)[..n]).NeedMore?
  {
    var f := Framed(crc, tag, payload);
    FramedParts(crc, tag, payload, []);
    assert f + [] == f;
    if n >= HEADER { assert f[..n][0..4] == f[0..4]; }
  }

  /** After whole records, whatever does not decode ends the segment. */
  lemma {:induction false} GarbageEnds(crc: Crc, ms: seq<Mutation>, junk: seq<Byte>)
    requires AllFit(ms) && !Decode(crc, junk).Record?
    ensures Replayed(crc, Segment(crc, ms) + junk) == ms
    decreases |ms|
  {
    if ms == [] {
      assert Segment(crc, ms) + junk == junk;
    } else {
      var rest := ms[1..];
      assert Frames(crc, ms)[1..] == Frames(crc, rest);
      assert Segment(crc, ms) + junk == Frame(crc, ms[0]) + (Segment(crc, rest) + junk);
      ReadsFirst(crc, ms[0], Segment(crc, rest) + junk);
      GarbageEnds(crc, rest, junk);
      assert ms == [ms[0]] + rest;
    }
  }

  // ---------- the layout on disk ----------

  lemma SmallLe(x: Byte)
    ensures Le(x, 2) == [x, 0] && Le(x, 4) == [x, 0, 0, 0] && Le(x, 8) == [x, 0, 0, 0, 0, 0, 0, 0]
  {
    assert Le(0, 1) == [0] && Le(0, 2) == [0, 0] && Le(0, 3) == [0, 0, 0] && Le(0, 4) == [0, 0, 0, 0];
    assert Le(0, 5) == [0, 0, 0, 0, 0] && Le(0, 6) == [0, 0, 0, 0, 0, 0] && Le(0, 7) == [0, 0, 0, 0, 0, 0, 0];
  }

  lemma LowByteFirst()
    ensures Le(0x0403_0201, 4) == [1, 2, 3, 4]
  {
    assert Le(0x04, 1) == [4] && Le(0x0403, 2) == [3, 4] && Le(0x0403_02, 3) == [2, 3, 4];
  }

  lemma Nest<T>(h: seq<T>, s: seq<T>, t: seq<T>, x: seq<T>, y: seq<T>, z: seq<T>)
    ensures h + (s + t + x + y + z) == h + s + t + x + y + z
  {
  }

  lemma NestLess<T>(h: seq<T>, s: seq<T>, x: seq<T>, y: seq<T>)
    ensures h + (s + x + y) == h + s + x + y
  {
  }

  /** A put on disk, byte for byte. */
  lemma PutOnDisk(crc: Crc, stamp: Byte, ttl: Byte, a: Byte, b: Byte, c: Byte, d: Byte)
    ensures var body := [1, 0] + [stamp, 0, 0, 0, 0, 0, 0, 0] + [ttl, 0, 0, 0, 0, 0, 0, 0] +
                        [1, 0, 0, 0, a] + [2, 0, 0, 0, b, c] + [1, 0, 0, 0, d];
            Frame(crc, MapPut(stamp, ttl, [a], [b, c], [d])) == [34, 0, 0, 0] + Le(crc(body), 4) + body
  {
    SmallLe(1);
    SmallLe(2);
    SmallLe(34);
    SmallLe(stamp);
    SmallLe(ttl);
    var x, y, z := Prefixed([a]), Prefixed([b, c]), Prefixed([d]);
    assert x == [1, 0, 0, 0, a] && y == [2, 0, 0, 0, b, c] && z == [1, 0, 0, 0, d];
    Nest(Le(1, 2), Le(stamp, 8), Le(ttl, 8), x, y, z);
    assert |Body(MapPut(stamp, ttl, [a], [b, c], [d]))| == 34;
  }

  /** A remove on disk. */
  lemma RemoveOnDisk(crc: Crc, stamp: Byte, a: Byte, b: Byte)
    ensures var body := [2, 0] + [stamp, 0, 0, 0, 0, 0, 0, 0] + [1, 0, 0, 0, a] + [1, 0, 0, 0, b];
            Frame(crc, MapRemove(stamp, [a], [b])) == [20, 0, 0, 0] + Le(crc(body), 4) + body
  {
    SmallLe(1);
    SmallLe(2);
    SmallLe(20);
    SmallLe(stamp);
    var x, y := Prefixed([a]), Prefixed([b]);
    assert x == [1, 0, 0, 0, a] && y == [1, 0, 0, 0, b];
    NestLess(Le(2, 2), Le(stamp, 8), x, y);
    assert |Body(MapRemove(stamp, [a], [b]))| == 20;
  }

  /** An installed state on disk. */
  lemma StateOnDisk(crc: Crc, kind: Byte, a: Byte, b: Byte)
    ensures var body := [3, 0] + [kind] + [1, 0, 0, 0, a] + [1, 0, 0, 0, b];
            Frame(crc, AuxState(kind, [a], [b])) == [13, 0, 0, 0] + Le(crc(body), 4) + body
  {
    SmallLe(1);
    SmallLe(3);
    SmallLe(13);
    var x, y := Prefixed([a]), Prefixed([b]);
    assert x == [1, 0, 0, 0, a] && y == [1, 0, 0, 0, b];
    NestLess(Le(3, 2), [kind], x, y);
    assert |Body(AuxState(kind, [a], [b]))| == 13;
  }
}
