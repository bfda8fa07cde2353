/** Log segments as files that grow (crates/persistence/src/record.rs, wal.rs). */
module WalMachine {
  import opened Bytes
  import opened Wal

  /** Append a framed record to a buffer: header with a placeholder, then the body,
      then the checksum of the body patched into the header. */
  method EncodeRecord(crc: Crc, buf: seq<Byte>, m: Mutation) returns (out: seq<Byte>)
    ensures out == buf + Frame(crc, m)
  {
    var body := Le(Tag(m), 2) + Payload(m);
    out := Enclose(crc, buf, Le(|body|, 4), body);
  }

  method Enclose(crc: Crc, buf: seq<Byte>, len: seq<Byte>, body: seq<Byte>) returns (out: seq<Byte>)
    requires |len| == 4
    ensures out == buf + (len + Le(crc(body), 4) + body)
  {
    var start, hole := |buf|, Le(0, 4);
    out := buf + len + hole + body;
    Sections(buf, len, hole, body);
    var sum := Le(crc(out[start + HEADER..]), 4);
    out := out[..start + 4] + sum + out[start + 8..];
    assert buf + len + sum + body == buf + (len + sum + body);
  }

  lemma Sections(buf: seq<Byte>, len: seq<Byte>, hole: seq<Byte>, body: seq<Byte>)
    requires |len| == 4 && |hole| == 4
    ensures var s := buf + len + hole + body;
            s[|buf| + 8..] == body && s[..|buf| + 4] == buf + len
  {
  }

  class WalSegment {
    var file: seq<Byte>
    var bytes: nat

    /** The file is whole, and holds the frames of `ms`. */
    ghost predicate Holds(crc: Crc, ms: seq<Mutation>)
      reads this
    {
      bytes == |file| && file == Segment(crc, ms)
    }

    constructor ()
      ensures forall crc :: Holds(crc, [])
    {
      file, bytes := [], 0;
    }

    /** Append one framed record. */
    method Append(crc: Crc, m: Mutation, ghost ms: seq<Mutation>)
      requires Holds(crc, ms)
      modifies this
      ensures Holds(crc, ms + [m])
    {
      var framed := EncodeRecord(crc, [], m);
      assert framed == Frame(crc, m);
      SegmentAppend(crc, ms, m);
      file, bytes := file + framed, bytes + |framed|;
    }
  }
}
