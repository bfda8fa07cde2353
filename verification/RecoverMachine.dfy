/** Restart as it is carried out: directory scans, the snapshot, then the segments
    in order (crates/persistence/src/lib.rs). */
module RecoverMachine {
  import opened Bytes
  import opened Wal
  import opened Recovery
  import opened Persistence
  import opened Sets

  /** The highest number among the files of one kind. */
  method Latest(files: set<nat>) returns (g: nat)
    ensures g == Top(files)
  {
    g := 0;
    var left := files;
    while left != {}
      invariant left <= files
      invariant forall x :: x in files && x !in left ==> x <= g
      invariant g == 0 || g in files - left
      invariant left != files ==> g in files - left
      decreases |left|
    {
      var x := AnyOf(left);
      if x >= g { g := x; }
      left := left - {x};
    }
    if files != {} { assert IsTop(files, g); }
  }

  method LatestOnDisk(d: Disk) returns (g: nat)
    ensures g == LatestGeneration(d)
    ensures forall n :: n in d.wal || n in d.snaps ==> n <= g
  {
    var w := Latest(d.wal.Keys);
    var p := Latest(d.snaps.Keys);
    g := if w > p then w else p;
  }

  method ReplaySegment(crc: Crc, s: Store, bytes: seq<Byte>) returns (out: Store)
    ensures out == ReplayAll(s, Replayed(crc, bytes))
  {
    var rs := ReadSegment(crc, bytes);
    out := s;
    var i := 0;
    while i < |rs|
      invariant 0 <= i <= |rs|
      invariant ReplayAll(out, MutationsOf(rs[i..])) == ReplayAll(s, MutationsOf(rs))
    {
      var m := Parse(rs[i].tag, rs[i].payload);
      assert rs[i..][1..] == rs[i + 1..];
      if m.Some? {
        ReplayAllConcat(out, [m.value], MutationsOf(rs[i + 1..]));
        ReplayOne(out, m.value);
        out := Replay(out, m.value);
      } else {
        assert [] + MutationsOf(rs[i + 1..]) == MutationsOf(rs[i + 1..]);
      }
      i := i + 1;
    }
    assert rs[i..] == [];
  }

  lemma ReplayOne(s: Store, m: Mutation)
    ensures ReplayAll(s, [m]) == Replay(s, m)
  {
    assert [m][..0] == [];
  }

  /** Load the newest snapshot, then replay every segment not older than it. */
  method Recover(crc: Crc, d: Disk) returns (s: Store)
    ensures s == Recovered(WalCodec(crc), d)
  {
    var base := Latest(d.snaps.Keys);
    var last := Latest(d.wal.Keys);
    s := if base in d.snaps then d.snaps[base] else map[];
    s := ReplayRange(crc, WalCodec(crc), s, d.wal, base, last + 1);
  }

  /** Replay segments `from` up to `until`, skipping generations with no file. */
  method ReplayRange(
    crc: Crc, ghost c: Codec, loaded: Store, wal: map<nat, seq<Byte>>, from: nat, until: nat)
    returns (s: Store)
    requires c == WalCodec(crc)
    ensures s == ReplaySegments(c, loaded, wal, from, until)
  {
    s := loaded;
    var g := from;
    while g < until
      invariant from <= g && (g <= until || g == from)
      invariant s == ReplaySegments(c, loaded, wal, from, g)
    {
      if g in wal { s := ReplaySegment(crc, s, wal[g]); }
      g := g + 1;
    }
  }

  /** Drop every file with a generation below `keep`. */
  method PruneBelow(d: Disk, keep: nat) returns (out: Disk)
    ensures forall g :: g in out.wal <==> g in d.wal && g >= keep
    ensures forall g :: g in out.snaps <==> g in d.snaps && g >= keep
    ensures forall g :: g in out.wal ==> out.wal[g] == d.wal[g]
    ensures forall g :: g in out.snaps ==> out.snaps[g] == d.snaps[g]
  {
    out := d;
    var left := d.wal.Keys;
    while left != {}
      invariant left <= d.wal.Keys && out.snaps == d.snaps
      invariant forall g :: g in out.wal <==> g in d.wal && (g in left || g >= keep)
      invariant forall g :: g in out.wal ==> out.wal[g] == d.wal[g]
      decreases |left|
    {
      var g := AnyOf(left);
      if g < keep { out := out.(wal := out.wal - {g}); }
      left := left - {g};
    }
    var rest := d.snaps.Keys;
    while rest != {}
      invariant rest <= d.snaps.Keys
      invariant forall g :: g in out.wal <==> g in d.wal && g >= keep
      invariant forall g :: g in out.wal ==> out.wal[g] == d.wal[g]
      invariant forall g :: g in out.snaps <==> g in d.snaps && (g in rest || g >= keep)
      invariant forall g :: g in out.snaps ==> out.snaps[g] == d.snaps[g]
      decreases |rest|
    {
      var g := AnyOf(rest);
      if g < keep { out := out.(snaps := out.snaps - {g}); }
      rest := rest - {g};
    }
  }
}
