/** The join as the object a pipeline drives. */
module JoinMachine {
  import M = JoinModel
  import opened Sets

  class JoinProcessor {
    var left: M.Buffer
    var right: M.Buffer
    const retention: int

    function View(): M.Buffers
      reads this
    {
      M.Buffers(left, right)
    }

    constructor (retention: int)
      ensures this.retention == retention && View() == M.EMPTY
    {
      this.retention := retention;
      left, right := map[], map[];
    }

    /** Emit one output per buffered record of the other side, then buffer. */
    method Take(r: M.Record) returns (out: seq<M.Output>)
      modifies this
      ensures (View(), out) == M.Step(retention, old(View()), M.Data(r))
    {
      var entry := M.Entry(r.ts, r.payload);
      if r.side.Left? {
        out := MeetAll(r, if r.key in right then right[r.key] else []);
        left := left[r.key := (if r.key in left then left[r.key] else []) + [entry]];
      } else {
        out := MeetAll(r, if r.key in left then left[r.key] else []);
        right := right[r.key := (if r.key in right then right[r.key] else []) + [entry]];
      }
    }

    method Advance(w: int) returns (out: seq<M.Output>)
      modifies this
      ensures (View(), out) == M.Step(retention, old(View()), M.Watermark(w))
    {
      if retention != M.FOREVER {
        var l := EvictBelow(left, w - retention);
        var r := EvictBelow(right, w - retention);
        left, right := l, r;
      }
      out := [M.Passed(w)];
    }

    /** Drain the inbox. */
    method Process(inbox: seq<M.Item>) returns (out: seq<M.Output>)
      modifies this
      ensures (View(), out) == M.Run(retention, old(View()), inbox, |inbox|)
    {
      out := [];
      var i := 0;
      while i < |inbox|
        invariant 0 <= i <= |inbox|
        invariant (View(), out) == M.Run(retention, old(View()), inbox, i)
      {
        var more: seq<M.Output> := [];
        match inbox[i] {
          case Data(r) => more := Take(r);
          case Junk =>
          case Watermark(w) => more := Advance(w);
          case Done => more := [M.Finished];
        }
        out, i := out + more, i + 1;
      }
    }
  }

  method MeetAll(r: M.Record, others: seq<M.Entry>) returns (out: seq<M.Output>)
    ensures out == M.Meetings(r, others)
  {
    out := [];
    var i := 0;
    while i < |others|
      invariant 0 <= i <= |others|
      invariant out == M.Meetings(r, others)[..i]
    {
      var o := others[i].payload;
      out := out + [if r.side.Left? then M.Joined(r.key, r.payload, o) else M.Joined(r.key, o, r.payload)];
      i := i + 1;
    }
  }

  method RetainFresh(list: seq<M.Entry>, cutoff: int) returns (out: seq<M.Entry>)
    ensures out == M.Fresh(list, cutoff)
  {
    out := [];
    var i := 0;
    while i < |list|
      invariant 0 <= i <= |list|
      invariant out == M.Fresh(list[..i], cutoff)
    {
      assert list[..i + 1][..i] == list[..i];
      if list[i].ts >= cutoff { out := out + [list[i]]; }
      i := i + 1;
    }
    assert list[..i] == list;
  }

  /** Drop old entries key by key, and the keys left with none. */
  method EvictBelow(b: M.Buffer, cutoff: int) returns (out: M.Buffer)
    ensures out == M.Evict(b, cutoff)
  {
    out := map[];
    var left := b.Keys;
    while left != {}
      invariant left <= b.Keys
      invariant forall k :: k in out <==> k in b && k !in left && M.Fresh(b[k], cutoff) != []
      invariant forall k :: k in out ==> out[k] == M.Fresh(b[k], cutoff)
      decreases |left|
    {
      var k := AnyOf(left);
      var list := RetainFresh(b[k], cutoff);
      if list != [] { out := out[k := list]; }
      left := left - {k};
    }
  }
}
