/** Cluster views and ring-wise replica assignment
    (crates/server/src/membership.rs).  Members are kept in join order and dead
    ones stay as tombstones, so ring positions never shift on a death. */
module Membership {
  import opened Basics

  type Uuid = (int, int)

  datatype Member = Member(uuid: Uuid, joinId: nat)

  /** `backups` is the number of backups wanted per partition. */
  datatype View = View(members: seq<Member>, alive: seq<bool>, backups: nat)

  ghost predicate Wf(v: View) {
    |v.members| == |v.alive|
  }

  ghost predicate UniqueUuids(v: View) {
    forall i, j :: 0 <= i < j < |v.members| ==> v.members[i].uuid != v.members[j].uuid
  }

  /** Ring position `j` steps after `home` among `n`. */
  function At(home: nat, j: nat, n: nat): nat
    requires home < n && j < n
  {
    if home + j < n then home + j else home + j - n
  }

  lemma AtIsMod(home: nat, j: nat, n: nat)
    requires home < n && j < n
    ensures (home + j) % n == At(home, j, n)
  {
    if home + j >= n { ModWraps(home + j - n, n); }
  }

  lemma ModWraps(r: nat, n: nat)
    requires r < n
    ensures (r + n) % n == r
  {
    assert (r + n) == 1 * n + r;
  }

  lemma Grows(k: int, n: nat)
    requires k >= 1
    ensures k * n >= n
  {
    assert k * n == (k - 1) * n + n;
  }

  /** Quotient and remainder are determined. */
  lemma OneRemainder(a: int, b: int, c: int, d: int, n: nat)
    requires 0 <= b < n && 0 <= d < n && a * n + b == c * n + d
    ensures b == d
  {
    assert (a - c) * n == d - b && (c - a) * n == b - d;
    if a > c { Grows(a - c, n); }
    if c > a { Grows(c - a, n); }
  }

  lemma Division(m: nat, n: nat)
    requires n > 0
    ensures m == m / n * n + m % n && 0 <= m % n < n
  {
  }

  lemma ModIs(m: nat, q: int, r: nat, n: nat)
    requires r < n && m == q * n + r
    ensures m % n == r
  {
    Division(m, n);
    OneRemainder(m / n, m % n, q, r, n);
  }

  /** Partition `p` finds `(p + j) % n` at `j` steps from its home. */
  lemma Spot(p: nat, j: nat, n: nat)
    requires j < n
    ensures At(p % n, j, n) == (p + j) % n
  {
    Division(p, n);
    var q, home := p / n, p % n;
    if home + j < n {
      ModIs(p + j, q, home + j, n);
    } else {
      assert p + j == (q + 1) * n + (home + j - n);
      ModIs(p + j, q + 1, home + j - n, n);
    }
  }

  /** The live positions met on the ring walk from `home`, from step `j` on. */
  function LiveFrom(alive: seq<bool>, home: nat, j: nat): seq<nat>
    requires home < |alive| && j <= |alive|
    decreases |alive| - j
  {
    if j == |alive| then []
    else
      var i := At(home, j, |alive|);
      (if alive[i] then [i] else []) + LiveFrom(alive, home, j + 1)
  }

  function Home(v: View, p: nat): nat
    requires 0 < |v.alive|
  {
    p % |v.alive|
  }

  /** All live members in ring order from the partition's home. */
  function Ring(v: View, p: nat): seq<nat>
    requires 0 < |v.alive|
  {
    LiveFrom(v.alive, Home(v, p), 0)
  }

  /** The reference: the holders of a partition, owner first, are the first
      `backups + 1` live members on the ring, or the dead home when nobody lives. */
  function Holders(v: View, p: nat): seq<nat>
    requires 0 < |v.alive|
  {
    var ring := Ring(v, p);
    if ring == [] then [Home(v, p)] else ring[..Min(v.backups + 1, |ring|)]
  }

  // ---------- the walks of the source compute this ----------

  /** Partition `p` meets a live member `j` steps on, at position `(p + j) % n`. */
  predicate LiveStep(alive: seq<bool>, p: nat, j: nat) {
    j < |alive| && alive[(p + j) % |alive|]
  }

  /** The first alive member from the home, or the home. */
  method Owner(v: View, p: nat) returns (owner: nat)
    requires Wf(v) && 0 < |v.members|
    ensures owner == Holders(v, p)[0]
    ensures OwnerAt(v.alive, p, owner)
  {
    var n := |v.members|;
    var home := p % n;
    OwnerByPosition(v, p);
    for j := 0 to n
      invariant Ring(v, p) == LiveFrom(v.alive, home, j)
    {
      AtIsMod(home, j, n);
      var i := (home + j) % n;
      if v.alive[i] {
        return i;
      }
    }
    owner := home;
  }

  /** At the least number of steps that meets a live member, or at none. */
  ghost predicate OwnerAt(alive: seq<bool>, p: nat, owner: nat)
    requires 0 < |alive|
  {
    || (owner == p % |alive| && forall e: nat :: !LiveStep(alive, p, e))
    || (exists j: nat :: LiveStep(alive, p, j) && owner == (p + j) % |alive| &&
                         forall e: nat :: e < j ==> !LiveStep(alive, p, e))
  }

  lemma OwnerByPosition(v: View, p: nat)
    requires 0 < |v.alive|
    ensures OwnerAt(v.alive, p, Holders(v, p)[0])
  {
    var steps := HoldersByPosition(v, p);
    if steps == [] {
      forall e: nat ensures !LiveStep(v.alive, p, e) { assert e !in steps; }
    } else {
      var j := steps[0];
      assert j in steps;
      assert forall e: nat :: e < j ==> e !in steps;
    }
  }

  method CountLive(v: View) returns (count: nat)
    requires Wf(v) && 0 < |v.members|
    ensures forall p: nat :: count == |Ring(v, p)|
  {
    count := 0;
    for k := 0 to |v.alive|
      invariant count == |LiveSet(v.alive[..k])|
    {
      OneMoreLive(v.alive, k);
      if v.alive[k] {
        count := count + 1;
      }
    }
    assert v.alive[..|v.alive|] == v.alive;
    forall p: nat ensures count == |Ring(v, p)| {
      RingIsLive(v, p);
    }
  }

  /** The next live members after the owner, at most `backups` of them. */
  method BackupsOf(v: View, p: nat) returns (out: seq<nat>)
    requires Wf(v) && 0 < |v.members|
    ensures out == Holders(v, p)[1..]
  {
    var n := |v.members|;
    var owner := Owner(v, p);
    var live := CountLive(v);
    var want := Min(v.backups, if live == 0 then 0 else live - 1);
    out := [];
    if live > 0 {
      AfterOwner(v, p);
      out := Collect(v, owner, want);
    }
  }

  /** The walk of `backups_of`: the first `want` live members after `owner`. */
  method Collect(v: View, owner: nat, want: nat) returns (out: seq<nat>)
    requires Wf(v) && owner < |v.members| && want <= |LiveFrom(v.alive, owner, 1)|
    ensures out == LiveFrom(v.alive, owner, 1)[..want]
  {
    var n := |v.members|;
    ghost var after := LiveFrom(v.alive, owner, 1);
    out := [];
    var j := 1;
    while |out| < want && j < n
      invariant 1 <= j <= n && |out| <= want
      invariant out + LiveFrom(v.alive, owner, j) == after
    {
      AtIsMod(owner, j, n);
      var i := (owner + j) % n;
      ghost var rest := LiveFrom(v.alive, owner, j + 1);
      if v.alive[i] {
        assert out + ([i] + rest) == (out + [i]) + rest;
        out := out + [i];
      }
      j := j + 1;
    }
    assert out == after[..|out|];
  }

  // ---------- the ring lists every live member once ----------

  function LiveSet(alive: seq<bool>): set<nat> {
    set i: nat | i < |alive| && alive[i]
  }

  lemma OneMoreLive(alive: seq<bool>, k: nat)
    requires k < |alive|
    ensures |LiveSet(alive[..k + 1])| == |LiveSet(alive[..k])| + if alive[k] then 1 else 0
  {
    if alive[k] {
      assert LiveSet(alive[..k + 1]) == LiveSet(alive[..k]) + {k};
    } else {
      assert LiveSet(alive[..k + 1]) == LiveSet(alive[..k]);
    }
  }

  /** What the walk from step `j` meets: live positions that many steps away. */
  lemma {:induction false} WalkMeets(alive: seq<bool>, home: nat, j: nat, i: nat)
    requires home < |alive| && j <= |alive|
    ensures i in LiveFrom(alive, home, j) <==>
            exists d {:trigger At(home, d, |alive|)} :: j <= d < |alive| && i == At(home, d, |alive|) && alive[i]
    decreases |alive| - j
  {
    if j < |alive| { WalkMeets(alive, home, j + 1, i); }
  }

  lemma {:induction false} WalkDistinct(alive: seq<bool>, home: nat, j: nat)
    requires home < |alive| && j <= |alive|
    ensures Distinct(LiveFrom(alive, home, j))
    decreases |alive| - j
  {
    if j < |alive| {
      WalkDistinct(alive, home, j + 1);
      WalkMeets(alive, home, j + 1, At(home, j, |alive|));
    }
  }

  lemma StepsTo(home: nat, i: nat, n: nat) returns (d: nat)
    requires home < n && i < n
    ensures d < n && At(home, d, n) == i
  {
    d := if i >= home then i - home else i + n - home;
  }

  function Elems<T>(s: seq<T>): set<T> {
    set x | x in s
  }

  lemma {:induction false} DistinctSize(s: seq<nat>)
    requires Distinct(s)
    ensures |Elems(s)| == |s|
  {
    if s != [] {
      var init, last := s[..|s| - 1], s[|s| - 1];
      DistinctSize(init);
      assert last !in init;
      assert Elems(s) == Elems(init) + {last};
    }
  }

  /** The ring of a partition is its live members, each once. */
  lemma RingIsLive(v: View, p: nat)
    requires 0 < |v.alive|
    ensures Distinct(Ring(v, p))
    ensures forall i: nat :: i in Ring(v, p) <==> i < |v.alive| && v.alive[i]
    ensures |Ring(v, p)| == |LiveSet(v.alive)|
  {
    var home, n, ring := Home(v, p), |v.alive|, Ring(v, p);
    WalkDistinct(v.alive, home, 0);
    forall i: nat ensures i in ring <==> i < n && v.alive[i] {
      WalkMeets(v.alive, home, 0, i);
      if i < n { var d := StepsTo(home, i, n); }
    }
    DistinctSize(ring);
    assert Elems(ring) == LiveSet(v.alive);
  }

  // ---------- walking on from the owner ----------

  lemma AtAt(home: nat, d: nat, j: nat, n: nat)
    requires home < n && d < n && j < n
    ensures At(At(home, d, n), j, n) == if d + j < n then At(home, d + j, n) else At(home, d + j - n, n)
  {
  }

  /** From a position `d` steps after `home`, with nobody live before it, the walk
      sees what the walk from `home` sees after `d` steps. */
  lemma {:induction false} WalkOn(alive: seq<bool>, home: nat, d: nat, j: nat)
    requires home < |alive| && d < |alive| && j <= |alive|
    requires forall e :: 0 <= e < d ==> !alive[At(home, e, |alive|)]
    ensures LiveFrom(alive, At(home, d, |alive|), j) == if d + j <= |alive| then LiveFrom(alive, home, d + j) else []
    decreases |alive| - j
  {
    var n := |alive|;
    if j < n {
      WalkOn(alive, home, d, j + 1);
      AtAt(home, d, j, n);
    }
  }

  /** The first live position of a walk is at some step, with nobody live before. */
  lemma {:induction false} FirstLive(alive: seq<bool>, home: nat, j: nat) returns (d: nat)
    requires home < |alive| && j <= |alive| && LiveFrom(alive, home, j) != []
    ensures j <= d < |alive| && LiveFrom(alive, home, j)[0] == At(home, d, |alive|)
    ensures LiveFrom(alive, home, j) == LiveFrom(alive, home, d)
    ensures LiveFrom(alive, home, d) == [At(home, d, |alive|)] + LiveFrom(alive, home, d + 1)
    ensures forall e :: j <= e < d ==> !alive[At(home, e, |alive|)]
    decreases |alive| - j
  {
    if alive[At(home, j, |alive|)] {
      d := j;
    } else {
      d := FirstLive(alive, home, j + 1);
    }
  }

  /** The walk from the owner's successor is the rest of the ring. */
  lemma AfterOwner(v: View, p: nat)
    requires 0 < |v.alive| && Ring(v, p) != []
    ensures Ring(v, p)[0] < |v.alive| && LiveFrom(v.alive, Ring(v, p)[0], 1) == Ring(v, p)[1..]
  {
    var home := Home(v, p);
    var d := FirstLive(v.alive, home, 0);
    WalkOn(v.alive, home, d, 1);
  }

  // ---------- what holders are ----------

  /** The holders are distinct live members, the owner first, and there are
      exactly `min(backups, live - 1)` backups, as long as anyone is live. */
  lemma HoldersAreLive(v: View, p: nat)
    requires 0 < |v.alive| && LiveSet(v.alive) != {}
    ensures Distinct(Holders(v, p))
    ensures |Holders(v, p)| == 1 + Min(v.backups, |LiveSet(v.alive)| - 1)
    ensures forall i: nat :: i in Holders(v, p) ==> i < |v.alive| && v.alive[i]
  {
    RingIsLive(v, p);
    var ring := Ring(v, p);
    assert forall i :: i in Holders(v, p) ==> i in ring;
  }

  // ---------- which members these are ----------

  predicate Rising(steps: seq<nat>) {
    forall x, y :: 0 <= x < y < |steps| ==> steps[x] < steps[y]
  }

  predicate LiveAt(alive: seq<bool>, home: nat, j: nat)
    requires home < |alive|
  {
    j < |alive| && alive[At(home, j, |alive|)]
  }

  /** The steps from `j` on that meet a live member. */
  function StepsFrom(alive: seq<bool>, home: nat, j: nat): seq<nat>
    requires home < |alive| && j <= |alive|
    decreases |alive| - j
  {
    if j == |alive| then []
    else (if LiveAt(alive, home, j) then [j] else []) + StepsFrom(alive, home, j + 1)
  }

  lemma {:induction false} StepsHas(alive: seq<bool>, home: nat, j: nat, e: nat)
    requires home < |alive| && j <= |alive|
    ensures e in StepsFrom(alive, home, j) <==> j <= e && LiveAt(alive, home, e)
    decreases |alive| - j
  {
    if j < |alive| { StepsHas(alive, home, j + 1, e); }
  }

  lemma {:induction false} StepsRise(alive: seq<bool>, home: nat, j: nat)
    requires home < |alive| && j <= |alive|
    ensures var steps := StepsFrom(alive, home, j);
            Rising(steps) && forall x :: 0 <= x < |steps| ==> j <= steps[x] < |alive|
    decreases |alive| - j
  {
    if j < |alive| { StepsRise(alive, home, j + 1); }
  }

  lemma {:induction false} StepsLead(alive: seq<bool>, home: nat, j: nat)
    requires home < |alive| && j <= |alive|
    ensures var steps, live := StepsFrom(alive, home, j), LiveFrom(alive, home, j);
            && |steps| == |live|
            && forall x :: 0 <= x < |steps| ==> steps[x] < |alive| && live[x] == At(home, steps[x], |alive|)
    decreases |alive| - j
  {
    if j < |alive| { StepsLead(alive, home, j + 1); }
  }

  lemma SameStep(alive: seq<bool>, p: nat, j: nat)
    requires 0 < |alive|
    ensures LiveStep(alive, p, j) <==> LiveAt(alive, p % |alive|, j)
  {
    if j < |alive| { Spot(p, j, |alive|); }
  }

  /** By positions alone: the holders of partition `p` are at `(p + j) % n` for the
      first `backups + 1` steps `j` that meet a live member, in that order, and at
      `p % n` when nobody lives. */
  lemma HoldersByPosition(v: View, p: nat) returns (steps: seq<nat>)
    requires 0 < |v.alive|
    ensures Rising(steps) && forall j: nat :: j in steps <==> LiveStep(v.alive, p, j)
    ensures steps == [] ==> Holders(v, p) == [p % |v.alive|]
    ensures steps != [] ==>
              && |Holders(v, p)| == Min(v.backups + 1, |steps|)
              && forall k :: 0 <= k < |Holders(v, p)| ==> Holders(v, p)[k] == (p + steps[k]) % |v.alive|
  {
    var home := Home(v, p);
    steps := StepsFrom(v.alive, home, 0);
    StepsRise(v.alive, home, 0);
    StepsLead(v.alive, home, 0);
    forall j: nat ensures j in steps <==> LiveStep(v.alive, p, j) {
      StepsHas(v.alive, home, 0, j);
      SameStep(v.alive, p, j);
    }
    forall k | 0 <= k < |steps| ensures Ring(v, p)[k] == (p + steps[k]) % |v.alive| {
      Spot(p, steps[k], |v.alive|);
    }
  }

  /** With everybody alive, a member owns the partitions congruent to its position
      and backs up those of the members before it. */
  lemma EveryoneAlive(v: View, p: nat, k: nat)
    requires 0 < |v.alive| && forall i :: 0 <= i < |v.alive| ==> v.alive[i]
    requires k <= v.backups && k < |v.alive|
    ensures k < |Holders(v, p)| && Holders(v, p)[k] == (p + k) % |v.alive|
  {
    var n := |v.alive|;
    var steps := HoldersByPosition(v, p);
    forall j: nat | j < n ensures LiveStep(v.alive, p, j) { }
    AllSteps(steps, n);
  }

  lemma {:induction false} AllSteps(steps: seq<nat>, n: nat)
    requires Rising(steps) && forall j: nat :: j in steps <==> j < n
    ensures |steps| == n && forall k :: 0 <= k < n ==> steps[k] == k
    decreases n
  {
    forall x | 0 <= x < |steps| ensures steps[x] < n { assert steps[x] in steps; }
    if n > 0 {
      var m, last := n - 1, |steps| - 1;
      assert m in steps;
      var x :| 0 <= x < |steps| && steps[x] == m;
      assert steps[last] in steps && x == last;
      var front := steps[..last];
      forall j: nat ensures j in front <==> j < m {
        if j in front { assert j in steps; }
        if j < m { assert j in steps; assert steps == front + [m]; }
      }
      AllSteps(front, m);
    }
  }
}
