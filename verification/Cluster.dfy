/** How views change: joins, revivals, deaths and published views
    (crates/server/src/membership.rs), and what migration keeps over any
    sequence of changes. */
module ClusterChanges {
  import opened Basics
  import opened Membership
  import opened Migration

  /** The first position with this uuid. */
  function IndexOfUuid(members: seq<Member>, u: Uuid): Option<nat> {
    if members == [] then None
    else if members[0].uuid == u then Some(0)
    else match IndexOfUuid(members[1..], u)
      case Some(i) => Some(i + 1)
      case None => None
  }

  lemma {:induction false} IndexIs(members: seq<Member>, u: Uuid)
    ensures IndexOfUuid(members, u).None? ==> forall i :: 0 <= i < |members| ==> members[i].uuid != u
    ensures IndexOfUuid(members, u).Some? ==>
              IndexOfUuid(members, u).value < |members| && members[IndexOfUuid(members, u).value].uuid == u
    ensures IndexOfUuid(members, u).Some? ==>
              forall i :: 0 <= i < IndexOfUuid(members, u).value ==> members[i].uuid != u
  {
    if members != [] && members[0].uuid != u {
      IndexIs(members[1..], u);
      assert forall i :: 0 < i < |members| ==> members[i] == members[1..][i - 1];
    }
  }

  predicate HasJoinId(members: seq<Member>, j: nat) {
    exists i :: 0 <= i < |members| && members[i].joinId == j
  }

  function MaxJoinId(members: seq<Member>): (m: nat)
    ensures forall i :: 0 <= i < |members| ==> members[i].joinId <= m
    ensures m == 0 || HasJoinId(members, m)
  {
    if members == [] then 0
    else
      var m := MaxJoinId(members[..|members| - 1]);
      if members[|members| - 1].joinId > m then members[|members| - 1].joinId else m
  }

  /** The join id a newcomer gets: its own if it is fresh, else the next one. */
  function AssignJoinId(members: seq<Member>, j: nat): (r: nat)
    ensures !HasJoinId(members, r) && r != 0
  {
    if j == 0 || HasJoinId(members, j) then MaxJoinId(members) + 1 else j
  }

  function Join(v: View, m: Member): (r: (View, Option<nat>))
    requires Wf(v)
    ensures Wf(r.0)
  {
    IndexIs(v.members, m.uuid);
    match IndexOfUuid(v.members, m.uuid)
    case Some(i) =>
      if v.alive[i] then (v, None) else (v.(alive := v.alive[i := true]), Some(v.members[i].joinId))
    case None =>
      var j := AssignJoinId(v.members, m.joinId);
      (v.(members := v.members + [m.(joinId := j)], alive := v.alive + [true]), Some(j))
  }

  function Remove(v: View, u: Uuid): (r: (View, bool))
    requires Wf(v)
    ensures Wf(r.0)
  {
    IndexIs(v.members, u);
    match IndexOfUuid(v.members, u)
    case Some(i) => if v.alive[i] then (v.(alive := v.alive[i := false]), true) else (v, false)
    case None => (v, false)
  }

  // ---------- the cluster object ----------

  class Cluster {
    var members: seq<Member>
    var alive: seq<bool>
    const backups: nat
    var generation: nat
    var memberListVersion: nat
    var partitionListVersion: nat

    function View(): View
      reads this
    {
      Membership.View.View(members, alive, backups)
    }

    ghost predicate Valid()
      reads this
    {
      Wf(View())
    }

    constructor (members: seq<Member>, backups: nat)
      ensures Valid() && View() == Membership.View.View(members, seq(|members|, i => true), backups)
      ensures generation == memberListVersion == partitionListVersion == 1
    {
      this.members, this.backups := members, backups;
      alive := seq(|members|, i => true);
      generation, memberListVersion, partitionListVersion := 1, 1, 1;
    }

    method Bump()
      modifies this`generation, this`memberListVersion, this`partitionListVersion
      ensures generation == old(generation) + 1
      ensures memberListVersion == old(memberListVersion) + 1 && partitionListVersion == old(partitionListVersion) + 1
    {
      generation, memberListVersion, partitionListVersion :=
        generation + 1, memberListVersion + 1, partitionListVersion + 1;
    }

    method FindUuid(u: Uuid) returns (r: Option<nat>)
      ensures r == IndexOfUuid(members, u)
    {
      for i := 0 to |members|
        invariant IndexOfUuid(members, u) == match IndexOfUuid(members[i..], u)
                                             case Some(k) => Some(i + k)
                                             case None => None
      {
        assert members[i..][0] == members[i] && members[i..][1..] == members[i + 1..];
        if members[i].uuid == u {
          return Some(i);
        }
      }
      r := None;
    }

    /** Idempotent: marking a dead or unknown member dead changes nothing. */
    method RemoveMember(u: Uuid) returns (changed: bool)
      requires Valid()
      modifies this
      ensures Valid() && View() == Remove(old(View()), u).0 && changed == Remove(old(View()), u).1
      ensures generation == old(generation) + if changed then 1 else 0
    {
      IndexIs(members, u);
      var at := FindUuid(u);
      changed := false;
      if at.Some? && alive[at.value] {
        alive := alive[at.value := false];
        Bump();
        changed := true;
      }
    }

    /** Adds or revives; a live member asking again changes nothing. */
    method AddMember(m: Member) returns (joinId: Option<nat>)
      requires Valid()
      modifies this
      ensures Valid() && View() == Join(old(View()), m).0 && joinId == Join(old(View()), m).1
      ensures generation == old(generation) + if joinId.Some? then 1 else 0
    {
      IndexIs(members, m.uuid);
      var at := FindUuid(m.uuid);
      if at.Some? {
        if alive[at.value] {
          return None;
        }
        alive := alive[at.value := true];
        Bump();
        return Some(members[at.value].joinId);
      }
      var j := AssignJoinId(members, m.joinId);
      members, alive := members + [m.(joinId := j)], alive + [true];
      Bump();
      joinId := Some(j);
    }

    /** A published view is taken over only if it is newer. */
    method SetView(g: nat, ms: seq<Member>, al: seq<bool>) returns (taken: bool)
      requires Valid() && |ms| == |al|
      modifies this
      ensures Valid() && taken == (g > old(generation))
      ensures if taken then View() == Membership.View.View(ms, al, backups) && generation == g
              else View() == old(View()) && generation == old(generation)
    {
      taken := g > generation;
      if taken {
        members, alive, generation := ms, al, g;
        memberListVersion, partitionListVersion := memberListVersion + 1, partitionListVersion + 1;
      }
    }
  }

  // ---------- sequences of changes ----------

  /** One member joins or comes back, or several die at once. */
  datatype Change = Joins(member: Member) | Die(uuids: set<Uuid>)

  function Next(v: View, c: Change): (w: View)
    requires Wf(v)
    ensures Wf(w)
  {
    match c
    case Joins(m) => Join(v, m).0
    case Die(us) =>
      v.(alive := seq(|v.alive|, i requires 0 <= i < |v.alive| => v.alive[i] && v.members[i].uuid !in us))
  }

  // ---------- what changes mean for who is live ----------

  function LiveUuids(v: View): set<Uuid>
    requires Wf(v)
  {
    set i | 0 <= i < |v.members| && v.alive[i] :: v.members[i].uuid
  }

  predicate Known(v: View, u: Uuid) {
    exists i :: 0 <= i < |v.members| && v.members[i].uuid == u
  }

  /** One above every join id, the least such. */
  predicate IsNextId(members: seq<Member>, j: nat) {
    && (forall i :: 0 <= i < |members| ==> members[i].joinId < j)
    && (j == 1 || (j > 0 && HasJoinId(members, j - 1)))
  }

  /** A join is refused exactly to a live member. It leaves everyone at their place
      and makes that member live and nobody dead; one known but dead gets its old
      join id back; a new one comes last, with the join id it asked for if that is
      nobody's, and otherwise with the one after the highest. */
  lemma JoinMeans(v: View, m: Member)
    requires Wf(v) && UniqueUuids(v)
    ensures var (w, joined) := Join(v, m);
            && (joined.None? <==> m.uuid in LiveUuids(v))
            && (joined.None? ==> w == v)
            && LiveUuids(w) == LiveUuids(v) + {m.uuid}
            && w.backups == v.backups
            && (Known(v, m.uuid) ==> w.members == v.members)
            && (forall i :: 0 <= i < |v.members| && v.members[i].uuid == m.uuid && joined.Some? ==>
                  joined.value == v.members[i].joinId)
            && (!Known(v, m.uuid) ==>
                  joined.Some? && w.members == v.members + [Member(m.uuid, joined.value)] &&
                  if m.joinId != 0 && !HasJoinId(v.members, m.joinId) then joined.value == m.joinId
                  else IsNextId(v.members, joined.value))
  {
    IndexIs(v.members, m.uuid);
    var w := Join(v, m).0;
    var at := IndexOfUuid(v.members, m.uuid);
    if at.Some? {
      assert v.members[at.value].uuid == m.uuid;
      assert v.alive[at.value] ==> m.uuid in LiveUuids(v);
      assert w.alive[at.value] && w.members[at.value].uuid == m.uuid;
    } else {
      assert w.alive[|v.members|] && w.members[|v.members|].uuid == m.uuid;
    }
    forall u | u in LiveUuids(v) ensures u in LiveUuids(w) {
      var i :| 0 <= i < |v.members| && v.alive[i] && v.members[i].uuid == u;
      assert w.alive[i] && w.members[i].uuid == u;
    }
  }

  /** Deaths leave everyone at their place and exactly the others live. */
  lemma DeathMeans(v: View, us: set<Uuid>)
    requires Wf(v)
    ensures var w := Next(v, Die(us));
            w.members == v.members && w.backups == v.backups && LiveUuids(w) == LiveUuids(v) - us
  {
    var w := Next(v, Die(us));
    forall u | u in LiveUuids(v) - us ensures u in LiveUuids(w) {
      var i :| 0 <= i < |v.members| && v.alive[i] && v.members[i].uuid == u;
      assert w.alive[i];
    }
  }

  /** Removing a member is its death alone, and says whether it was live. */
  lemma RemoveIsDeath(v: View, u: Uuid)
    requires Wf(v) && UniqueUuids(v)
    ensures Remove(v, u).0 == Next(v, Die({u})) && Remove(v, u).1 == (u in LiveUuids(v))
  {
    IndexIs(v.members, u);
    var at := IndexOfUuid(v.members, u);
    if at.Some? { assert v.alive[at.value] ==> v.members[at.value].uuid in LiveUuids(v); }
    assert Remove(v, u).0.alive == Next(v, Die({u})).alive;
  }

  /** Removals one after the other. */
  function RemoveAll(v: View, us: seq<Uuid>): (w: View)
    requires Wf(v)
    ensures Wf(w)
    decreases |us|
  {
    if us == [] then v else Remove(RemoveAll(v, us[..|us| - 1]), us[|us| - 1]).0
  }

  /** Removing members one by one, in any order, is their death at once. */
  lemma {:induction false} RemovalsAreDeaths(v: View, us: seq<Uuid>)
    requires Wf(v) && UniqueUuids(v)
    ensures RemoveAll(v, us) == Next(v, Die(set u | u in us))
    decreases |us|
  {
    var all := set u | u in us;
    if us == [] {
      assert Next(v, Die({})).alive == v.alive;
    } else {
      var front, last := us[..|us| - 1], us[|us| - 1];
      RemovalsAreDeaths(v, front);
      NextKeepsUnique(v, Die(set u | u in front));
      RemoveIsDeath(RemoveAll(v, front), last);
      assert forall u :: u in us <==> u in front || u == last;
      assert RemoveAll(v, us).alive == Next(v, Die(all)).alive;
    }
  }

  lemma NextKeepsUnique(v: View, c: Change)
    requires Wf(v) && UniqueUuids(v)
    ensures UniqueUuids(Next(v, c))
  {
    if c.Joins? { IndexIs(v.members, c.member.uuid); }
  }

  /** A view and who has which data. */
  datatype State = State(view: View, has: Data)

  ghost function Step(s: State, c: Change, count: nat): (r: State)
    requires Wf(s.view)
    ensures Wf(r.view)
  {
    State(Next(s.view, c), Migrated(s.view, Next(s.view, c), count, s.has))
  }

  ghost function After(s: State, cs: seq<Change>, count: nat): (r: State)
    requires Wf(s.view)
    ensures Wf(r.view)
    decreases |cs|
  {
    if cs == [] then s else Step(After(s, cs[..|cs| - 1], count), cs[|cs| - 1], count)
  }

  /** Change `k` leaves a holder of `p` alive. */
  ghost predicate SurvivesAt(s: State, cs: seq<Change>, count: nat, p: nat, k: nat)
    requires Wf(s.view) && k < |cs|
  {
    var v := After(s, cs[..k], count).view;
    Survives(v, Next(v, cs[k]), p)
  }

  /** Over any sequence of joins, revivals and deaths of which each leaves a holder
      of `p` alive, with the plans delivered after each, every owner and backup of
      `p` has its data. */
  lemma {:induction false} PartitionIsNeverLost(s: State, cs: seq<Change>, count: nat, p: nat)
    requires Wf(s.view) && p < count && Populated(s.view, s.has, p)
    requires forall k :: 0 <= k < |cs| ==> SurvivesAt(s, cs, count, p, k)
    ensures Populated(After(s, cs, count).view, After(s, cs, count).has, p)
    decreases |cs|
  {
    if cs != [] {
      var n := |cs| - 1;
      var init := cs[..n];
      forall k | 0 <= k < n ensures SurvivesAt(s, init, count, p, k) {
        assert init[..k] == cs[..k] && SurvivesAt(s, cs, count, p, k);
      }
      PartitionIsNeverLost(s, init, count, p);
      assert SurvivesAt(s, cs, count, p, n);
      var before := After(s, init, count);
      MigrationPopulates(before.view, Next(before.view, cs[n]), count, before.has, p);
    }
  }

  lemma {:induction false} AfterKeepsUnique(s: State, cs: seq<Change>, count: nat)
    requires Wf(s.view) && UniqueUuids(s.view)
    ensures UniqueUuids(After(s, cs, count).view)
    decreases |cs|
  {
    if cs != [] {
      AfterKeepsUnique(s, cs[..|cs| - 1], count);
      NextKeepsUnique(After(s, cs[..|cs| - 1], count).view, cs[|cs| - 1]);
    }
  }

  /** Over any such sequence from members with unique ids: when members die and a
      holder of `p` is spared, the new owner of `p` is an old holder, and the one
      member that sends `p` to the others. */
  lemma FailoverOverTime(s: State, cs: seq<Change>, count: nat, dead: set<Uuid>, p: nat)
    requires Wf(s.view) && UniqueUuids(s.view) && 0 < |After(s, cs, count).view.members|
    requires var v := After(s, cs, count).view; Spared(v, Next(v, Die(dead)), p)
    ensures var v := After(s, cs, count).view;
            var w := Next(v, Die(dead));
            && Holders(w, p) != []
            && Holders(w, p)[0] in Holders(v, p)
            && Holders(w, p)[0] < |w.members|
            && Sender(v, w, p) == Some(w.members[Holders(w, p)[0]].uuid)
  {
    AfterKeepsUnique(s, cs, count);
    var v := After(s, cs, count).view;
    var k := OwnerIsSender(v, Next(v, Die(dead)), p);
  }

  // ---------- few deaths at a time ----------

  /** Fewer than all, and no more than there are backups, die at once. */
  ghost predicate Tolerable(v: View, c: Change)
    requires Wf(v)
  {
    c.Die? ==> LiveSet(Next(v, c).alive) != {} && |LiveSet(v.alive) - LiveSet(Next(v, c).alive)| <= v.backups
  }

  lemma JoinKeepsAlive(v: View, m: Member, i: nat)
    requires Wf(v) && i < |v.members| && v.alive[i]
    ensures var w := Join(v, m).0; i < |w.members| && w.alive[i] && w.members[i] == v.members[i]
  {
    IndexIs(v.members, m.uuid);
  }

  /** A tolerable change leaves a holder of every partition alive. */
  lemma ChangeSurvives(v: View, c: Change, p: nat)
    requires Wf(v) && 0 < |v.members| && LiveSet(v.alive) != {} && Tolerable(v, c)
    ensures Survives(v, Next(v, c), p) && LiveSet(Next(v, c).alive) != {}
  {
    var w := Next(v, c);
    HoldersInRange(v, p);
    HoldersAreLive(v, p);
    var k := 0;
    if c.Die? {
      FewDeathsSpare(v, w, p);
      k := FailoverLandsOnData(v, w, p);
    }
    var i := Holders(v, p)[k];
    assert i in Holders(v, p);
    if c.Joins? { JoinKeepsAlive(v, c.member, i); }
    assert v.members[i].uuid == HolderUuids(v, p)[k];
    assert AliveIn(v, v.members[i].uuid) && AliveIn(w, v.members[i].uuid);
    SomeoneLive(w, v.members[i].uuid);
  }

  ghost predicate TolerableAt(s: State, cs: seq<Change>, count: nat, k: nat)
    requires Wf(s.view) && k < |cs|
  {
    Tolerable(After(s, cs[..k], count).view, cs[k])
  }

  ghost predicate Peopled(v: View) {
    0 < |v.members| && LiveSet(v.alive) != {}
  }

  lemma StaysPeopled(v: View, c: Change)
    requires Wf(v) && Peopled(v) && Tolerable(v, c)
    ensures Peopled(Next(v, c))
  {
    ChangeSurvives(v, c, 0);
    IndexIs(v.members, if c.Joins? then c.member.uuid else (0, 0));
  }

  lemma {:induction false} SomeoneIsLeft(s: State, cs: seq<Change>, count: nat, k: nat)
    requires Wf(s.view) && Peopled(s.view) && k <= |cs|
    requires forall i :: 0 <= i < |cs| ==> TolerableAt(s, cs, count, i)
    ensures Peopled(After(s, cs[..k], count).view)
    decreases k
  {
    if k == 0 {
      assert cs[..0] == [];
    } else {
      SomeoneIsLeft(s, cs, count, k - 1);
      assert TolerableAt(s, cs, count, k - 1);
      AfterOne(s, cs, count, k - 1, k);
      StaysPeopledAt(s, cs, count, k - 1);
    }
  }

  lemma StaysPeopledAt(s: State, cs: seq<Change>, count: nat, k: nat)
    requires Wf(s.view) && k < |cs| && TolerableAt(s, cs, count, k) && Peopled(After(s, cs[..k], count).view)
    ensures Peopled(Next(After(s, cs[..k], count).view, cs[k]))
  {
    StaysPeopled(After(s, cs[..k], count).view, cs[k]);
  }

  lemma AfterOne(s: State, cs: seq<Change>, count: nat, k: nat, next: nat)
    requires Wf(s.view) && next == k + 1 <= |cs|
    ensures After(s, cs[..next], count).view == Next(After(s, cs[..k], count).view, cs[k])
  {
    assert cs[..next][..k] == cs[..k];
  }

  /** In particular, if never more members die at once than there are backups, no
      partition is ever lost. */
  lemma DataIsNeverLost(s: State, cs: seq<Change>, count: nat, p: nat)
    requires Wf(s.view) && Peopled(s.view) && p < count && Populated(s.view, s.has, p)
    requires forall k :: 0 <= k < |cs| ==> TolerableAt(s, cs, count, k)
    ensures Populated(After(s, cs, count).view, After(s, cs, count).has, p)
  {
    forall k | 0 <= k < |cs| ensures SurvivesAt(s, cs, count, p, k) {
      SomeoneIsLeft(s, cs, count, k);
      assert TolerableAt(s, cs, count, k);
      ChangeSurvives(After(s, cs[..k], count).view, cs[k], p);
    }
    PartitionIsNeverLost(s, cs, count, p);
  }
}
