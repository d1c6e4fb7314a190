/** The two coroutines of view counting as one process runs them, each tied to the schedule of atomic
    steps it takes when nothing interferes. */
module ViewCounterProcess {
  import opened Prelude
  import opened ViewCount

  /** The flush schedule of worker 0 for a batch: swap every counter, seal, then settle. */
  function Takes(n: nat): seq<Step> {
    seq(n, i => TakeNext(0, false))
  }

  /** The state of the deployment while worker 0 is collecting. */
  ghost function During(x: World, redis: Tally, batch: seq<Post>, next: nat, deltas: Tally): World
    requires |x.workers| == 1
  {
    x.(redis := redis, workers := [x.workers[0].(phase := Collecting(batch, next, deltas))])
  }

  function SumOver(batch: seq<Post>, m: Tally): nat {
    if batch == [] then 0 else SumOver(batch[..|batch| - 1], m) + At(m, batch[|batch| - 1])
  }

  /** Sealing and settling a fully collected batch. */
  lemma Settle(x: World, order: seq<Post>, redis: Tally, deltas: Tally, commits: bool)
    requires |x.workers| == 1 && x.workers[0].pending == Elements(order) && x.workers[0].phase == Idle
    requires Run(x, [BeginFlush(0, order)] + Takes(|order|)) == During(x, redis, order, |order|, deltas)
    ensures Run(x, [BeginFlush(0, order)] + Takes(|order|) + [Seal(0)]
                   + if deltas == map[] then [] else if commits then [Commit(0)] else [Fail(0)])
            == x.(redis := redis, workers := [x.workers[0].(pending := {})],
                  views := if deltas != map[] && commits then Grown(x.views, deltas) else x.views,
                  dropped := if deltas == map[] then x.dropped
                             else Plus(x.dropped, if commits then Orphans(x.views, deltas) else deltas))
  {
    var collected := [BeginFlush(0, order)] + Takes(|order|);
    SealAfter(x, order, redis, deltas);
    RunExtend(x, collected, Seal(0));
    if deltas == map[] {
      assert collected + [Seal(0)] + [] == collected + [Seal(0)];
    } else {
      EndAfter(x, redis, deltas, commits);
      RunExtend(x, collected + [Seal(0)], if commits then Commit(0) else Fail(0));
    }
  }

  lemma EndAfter(x: World, redis: Tally, deltas: Tally, commits: bool)
    requires |x.workers| == 1 && x.workers[0].phase == Idle
    ensures var y := x.(redis := redis, workers := [x.workers[0].(pending := {}, phase := Committing(deltas))]);
            var last := if commits then Commit(0) else Fail(0);
            && Enabled(y, last)
            && Next(y, last)
               == x.(redis := redis, workers := [x.workers[0].(pending := {})],
                     views := if commits then Grown(x.views, deltas) else x.views,
                     dropped := Plus(x.dropped, if commits then Orphans(x.views, deltas) else deltas))
  {
    var y := x.(redis := redis, workers := [x.workers[0].(pending := {}, phase := Committing(deltas))]);
    assert y.workers[0].(phase := Idle) == x.workers[0].(pending := {});
  }

  lemma SealAfter(x: World, order: seq<Post>, redis: Tally, deltas: Tally)
    requires |x.workers| == 1 && x.workers[0].pending == Elements(order) && x.workers[0].phase == Idle
    ensures var y := During(x, redis, order, |order|, deltas);
            && Enabled(y, Seal(0))
            && Next(y, Seal(0))
               == x.(redis := redis,
                     workers := [x.workers[0].(pending := {},
                                               phase := if deltas == map[] then Idle else Committing(deltas))])
  {
    var y := During(x, redis, order, |order|, deltas);
    var k := Sealed(y.workers[0]);
    assert k.pending == {};
    assert Next(y, Seal(0)).workers == [k];
  }

  class ViewCounter {
    var redis: Tally
    var dedup: map<string, nat>
    var views: Tally
    var pending: set<Post>
    ghost var accepted: Tally
    ghost var dropped: Tally

    ghost function State(): World
      reads this
    {
      World(redis, dedup, views, [Worker(pending, Idle, map[], map[], multiset{}, multiset{})], accepted, dropped)
    }

    constructor (views: Tally)
      ensures AtRest(State()) && State().views == views
    {
      this.views := views;
      redis, dedup, pending := map[], map[], {};
      accepted, dropped := map[], map[];
    }

    /** Counts a view unless this viewer was already counted within the window. */
    method RecordView(p: Post, user: Option<nat>, ipHash: Option<string>) returns (counted: bool)
      modifies this
      ensures var key := DedupKey(p, user, ipHash);
              counted <==> (user == None && ipHash == None) || key !in old(dedup) || old(dedup)[key] == 0
      ensures State() == Recorded(old(State()), p, user, ipHash)
    {
      if user.Some? || ipHash.Some? {
        var key := DedupKey(p, user, ipHash);
        dedup := Mark(dedup, key);
        if dedup[key] > 1 {
          return false;
        }
      }
      redis := Bump(redis, p, 1);
      accepted := Bump(accepted, p, 1);
      pending := pending + {p};
      counted := true;
    }

    /** Redis GETSET of one counter to zero. */
    method GetSetZero(p: Post) returns (delta: nat)
      modifies this`redis
      ensures redis == old(redis)[p := 0] && delta == At(old(redis), p)
    {
      delta := At(redis, p);
      redis := redis[p := 0];
    }

    /** Swaps every counter of the batch for zero and keeps the positive deltas. */
    method Collect(order: seq<Post>) returns (deltas: Tally, total: nat)
      requires Distinct(order)
      modifies this`redis
      ensures redis == ZeroAll(old(redis), order)
      ensures deltas == DeltasOf(old(redis), order) && total == SumOver(order, old(redis))
    {
      ghost var before := redis;
      deltas, total := map[], 0;
      var i := 0;
      while i < |order|
        invariant 0 <= i <= |order|
        invariant redis == ZeroAll(before, order[..i])
        invariant deltas == DeltasOf(before, order[..i]) && total == SumOver(order[..i], before)
      {
        var p := order[i];
        TakeOneTally(before, order, i);
        var delta := GetSetZero(p);
        if delta > 0 {
          deltas := deltas[p := delta];
        }
        total := total + delta;
        i := i + 1;
      }
      assert order[..i] == order;
    }

    /** One UPDATE per delta, all inside one transaction. */
    method WriteBack(order: seq<Post>, deltas: Tally)
      requires Distinct(order) && forall p :: p in deltas ==> p in order
      modifies this`views
      ensures views == Grown(old(views), deltas)
    {
      var staged, i := views, 0;
      while i < |order|
        invariant 0 <= i <= |order| && views == old(views) && staged.Keys == views.Keys
        invariant forall p :: p in views ==> staged[p] == views[p] + if p in order[..i] then At(deltas, p) else 0
      {
        OneMore(order, i);
        NotEarlier(order, i);
        if order[i] in deltas && order[i] in staged {
          staged := staged[order[i] := staged[order[i]] + deltas[order[i]]];
        }
        i := i + 1;
      }
      assert order[..i] == order;
      assert staged == Grown(views, deltas);
      views := staged;
    }

    /** Writes the pending counters back; `order` is the arbitrary order in which the set is listed and
        `commits` says whether the database transaction succeeds. The result is None for an exception. */
    method FlushOnce(order: seq<Post>, commits: bool) returns (r: Option<nat>)
      requires Distinct(order) && Elements(order) == pending
      modifies this
      ensures State() == Flushed(old(State()), order, commits)
      ensures r.None? <==> !commits && SumOver(order, old(redis)) > 0
      ensures r.Some? ==> r.value == SumOver(order, old(redis))
    {
      if order == [] {
        return Some(0);
      }
      ghost var before := redis;
      var deltas, total := Collect(order);
      pending := pending - set p | p in order;
      assert pending == {};
      NoDeltasIffZero(before, order);
      if deltas == map[] {
        return Some(0);
      }
      if !commits {
        dropped := Plus(dropped, deltas);
        return None;
      }
      dropped := Plus(dropped, Orphans(views, deltas));
      forall p | p in deltas
        ensures p in order
      {
        DeltaAt(before, order, p);
      }
      WriteBack(order, deltas);
      r := Some(total);
    }
  }

  /** The same identified viewer, twice in a row: the second view is refused and counts nothing. */
  method ViewTwice(counter: ViewCounter, p: Post, user: Option<nat>, ipHash: Option<string>)
    returns (first: bool, second: bool)
    requires user.Some? || ipHash.Some?
    modifies counter
    ensures !second
    ensures first <==> DedupKey(p, user, ipHash) !in old(counter.dedup) || old(counter.dedup)[DedupKey(p, user, ipHash)] == 0
    ensures At(counter.redis, p) == At(old(counter.redis), p) + (if first then 1 else 0)
    ensures At(counter.accepted, p) == At(old(counter.accepted), p) + (if first then 1 else 0)
    ensures counter.pending == old(counter.pending) + (if first then {p} else {})
  {
    first := counter.RecordView(p, user, ipHash);
    second := counter.RecordView(p, user, ipHash);
  }

  /** A visit as one transition: the viewer is marked as seen, and a new one is counted and noted. */
  function Recorded(x: World, p: Post, user: Option<nat>, ipHash: Option<string>): World
    requires |x.workers| == 1
  {
    var seen := x.(dedup := MarkVisit(x.dedup, p, user, ipHash));
    if !Passes(x.dedup, user, ipHash, p) then seen
    else seen.(redis := Bump(x.redis, p, 1), accepted := Bump(x.accepted, p, 1),
               workers := [x.workers[0].(pending := x.workers[0].pending + {p})])
  }

  /** A visit is the schedule of its atomic steps, run without interference. */
  lemma RecordViewIsSchedule(x: World, p: Post, user: Option<nat>, ipHash: Option<string>)
    requires |x.workers| == 1
    ensures Run(x, if Passes(x.dedup, user, ipHash, p) then FullVisit(p, user, ipHash) else [Visit(0, p, user, ipHash, false)])
            == Recorded(x, p, user, ipHash)
  {
    if Passes(x.dedup, user, ipHash, p) {
      assert Run(x, []) == x;
      FullVisitEffect(x, [], p, user, ipHash);
      assert [] + FullVisit(p, user, ipHash) == FullVisit(p, user, ipHash);
    } else {
      Single(x, Visit(0, p, user, ipHash, false));
      assert x.workers[0].approved + multiset{} == x.workers[0].approved;
    }
  }

  /** A flush as one transition: pending counters become zero, and their values reach the rows that
      exist, or are dropped. */
  function Flushed(x: World, order: seq<Post>, commits: bool): World
    requires |x.workers| == 1
  {
    var d := DeltasOf(x.redis, order);
    if order == [] then x
    else x.(redis := ZeroAll(x.redis, order), workers := [x.workers[0].(pending := {})],
            views := if d != map[] && commits then Grown(x.views, d) else x.views,
            dropped := if d == map[] then x.dropped
                       else Plus(x.dropped, if commits then Orphans(x.views, d) else d))
  }

  /** A flush is the schedule of its atomic steps, run without interference. */
  lemma FlushIsSchedule(x: World, order: seq<Post>, commits: bool)
    requires |x.workers| == 1 && x.workers[0].phase == Idle && order != []
    requires Distinct(order) && Elements(order) == x.workers[0].pending
    ensures Run(x, FlushSteps(order, SumOver(order, x.redis), commits)) == Flushed(x, order, commits)
  {
    CollectSchedule(x, order, |order|);
    assert order[..|order|] == order;
    Settle(x, order, ZeroAll(x.redis, order), DeltasOf(x.redis, order), commits);
    NoDeltasIffZero(x.redis, order);
  }

  lemma {:induction false} CollectSchedule(x: World, order: seq<Post>, i: nat)
    requires |x.workers| == 1 && x.workers[0].phase == Idle && order != [] && i <= |order|
    requires Distinct(order) && Elements(order) == x.workers[0].pending
    ensures Run(x, [BeginFlush(0, order)] + Takes(i))
            == During(x, ZeroAll(x.redis, order[..i]), order, i, DeltasOf(x.redis, order[..i]))
  {
    if i == 0 {
      BeginOnly(x, order);
      assert ZeroAll(x.redis, order[..0]) == x.redis;
    } else {
      CollectSchedule(x, order, i - 1);
      TakeOneTally(x.redis, order, i - 1);
      TakeOne(x, ZeroAll(x.redis, order[..i - 1]), order, i - 1, DeltasOf(x.redis, order[..i - 1]));
    }
  }

  /** A successful flush of one process moves every pending increment into its row, and only those. */
  lemma SuccessfulFlushMovesPending(x: World, order: seq<Post>, p: Post)
    requires |x.workers| == 1 && Elements(order) == x.workers[0].pending && p in x.views
    ensures var y := Flushed(x, order, true);
            && y.views.Keys == x.views.Keys
            && y.views[p] == x.views[p] + (if p in x.workers[0].pending then At(x.redis, p) else 0)
            && At(y.redis, p) == (if p in x.workers[0].pending then 0 else At(x.redis, p))
            && At(y.dropped, p) == At(x.dropped, p)
  {
    assert p in order <==> p in Elements(order);
    DeltaAt(x.redis, order, p);
    ZeroAt(x.redis, order, p);
  }

  /** What a flush does to any one post. */
  ghost predicate FlushedAt(x: World, y: World, commits: bool, p: Post)
    requires |x.workers| == 1
  {
    var taken := if p in x.workers[0].pending then At(x.redis, p) else 0;
    && At(y.redis, p) == At(x.redis, p) - taken && y.views.Keys == x.views.Keys
    && (p in x.views ==> y.views[p] == x.views[p] + if commits then taken else 0)
    && At(y.dropped, p) == At(x.dropped, p) + if commits && p in x.views then 0 else taken
  }

  /** A pending counter becomes zero; its value is added to the row when the commit succeeds and the row exists, and
      is dropped otherwise. */
  lemma FlushIs(x: World, order: seq<Post>, commits: bool, p: Post)
    requires |x.workers| == 1 && Elements(order) == x.workers[0].pending
    ensures FlushedAt(x, Flushed(x, order, commits), commits, p)
  {
    assert p in order <==> p in Elements(order);
    DeltaAt(x.redis, order, p);
    ZeroAt(x.redis, order, p);
  }

  /** Nothing stays pending, and nothing else of the deployment changes. */
  lemma FlushLeavesNothingPending(x: World, order: seq<Post>, commits: bool)
    requires |x.workers| == 1 && Elements(order) == x.workers[0].pending
    ensures var y := Flushed(x, order, commits);
            y.workers == [x.workers[0].(pending := {})] && y.dedup == x.dedup && y.accepted == x.accepted
  {
    if order == [] {
      assert x.workers[0].pending == {};
      assert x.workers == [x.workers[0].(pending := {})];
    }
  }

  function FlushSteps(order: seq<Post>, total: nat, commits: bool): seq<Step> {
    [BeginFlush(0, order)] + Takes(|order|) + [Seal(0)]
    + if total == 0 then [] else if commits then [Commit(0)] else [Fail(0)]
  }

  /** The positive counters of a batch. */
  function DeltasOf(m: Tally, batch: seq<Post>): Tally {
    if batch == [] then map[]
    else
      var n := |batch| - 1;
      var front := DeltasOf(m, batch[..n]);
      if At(m, batch[n]) > 0 then front[batch[n] := m[batch[n]]] else front
  }

  function ZeroAll(m: Tally, batch: seq<Post>): Tally {
    if batch == [] then m else ZeroAll(m, batch[..|batch| - 1])[batch[|batch| - 1] := 0]
  }

  lemma {:induction false} DeltaAt(m: Tally, batch: seq<Post>, p: Post)
    ensures p in DeltasOf(m, batch) <==> p in batch && At(m, p) > 0
    ensures At(DeltasOf(m, batch), p) == if p in batch then At(m, p) else 0
  {
    if batch != [] {
      var n := |batch| - 1;
      DeltaAt(m, batch[..n], p);
      assert p in batch <==> p in batch[..n] || p == batch[n];
    }
  }

  lemma {:induction false} ZeroAt(m: Tally, batch: seq<Post>, p: Post)
    ensures At(ZeroAll(m, batch), p) == if p in batch then 0 else At(m, p)
  {
    if batch != [] {
      var n := |batch| - 1;
      ZeroAt(m, batch[..n], p);
      assert p in batch <==> p in batch[..n] || p == batch[n];
    }
  }

  /** Reading the counter of the next post after the earlier ones were emptied. */
  lemma TakeOneTally(m: Tally, order: seq<Post>, i: nat)
    requires i < |order| && Distinct(order)
    ensures At(ZeroAll(m, order[..i]), order[i]) == At(m, order[i])
    ensures ZeroAll(m, order[..i])[order[i] := 0] == ZeroAll(m, order[..i + 1])
    ensures SumOver(order[..i + 1], m) == SumOver(order[..i], m) + At(m, order[i])
    ensures DeltasOf(m, order[..i + 1])
            == if At(m, order[i]) > 0 then DeltasOf(m, order[..i])[order[i] := At(m, order[i])]
               else DeltasOf(m, order[..i])
  {
    NotEarlier(order, i);
    OneMore(order, i);
    ZeroAt(m, order[..i], order[i]);
  }

  lemma {:induction false} NoDeltasIffZero(m: Tally, batch: seq<Post>)
    ensures DeltasOf(m, batch) == map[] <==> SumOver(batch, m) == 0
  {
    if batch != [] {
      var n := |batch| - 1;
      NoDeltasIffZero(m, batch[..n]);
      if DeltasOf(m, batch[..n]) != map[] {
        var p :| p in DeltasOf(m, batch[..n]);
        assert p in DeltasOf(m, batch);
      } else if At(m, batch[n]) > 0 {
        assert batch[n] in DeltasOf(m, batch);
      }
    }
  }

  lemma Single(x: World, s: Step)
    requires Enabled(x, s)
    ensures Run(x, [s]) == Next(x, s)
  {
    assert Run(x, []) == x;
    RunExtend(x, [], s);
    assert [] + [s] == [s];
  }

  lemma BeginOnly(x: World, order: seq<Post>)
    requires |x.workers| == 1 && x.workers[0].phase == Idle && order != []
    requires Distinct(order) && Elements(order) == x.workers[0].pending
    ensures Run(x, [BeginFlush(0, order)] + Takes(0)) == During(x, x.redis, order, 0, map[])
  {
    Single(x, BeginFlush(0, order));
    assert [BeginFlush(0, order)] + Takes(0) == [BeginFlush(0, order)];
  }

  lemma TakeOne(x: World, redis: Tally, order: seq<Post>, i: nat, deltas: Tally)
    requires |x.workers| == 1 && i < |order|
    requires Run(x, [BeginFlush(0, order)] + Takes(i)) == During(x, redis, order, i, deltas)
    ensures var d := At(redis, order[i]);
            Run(x, [BeginFlush(0, order)] + Takes(i + 1))
            == During(x, redis[order[i] := 0], order, i + 1, if d > 0 then deltas[order[i] := d] else deltas)
  {
    var before := [BeginFlush(0, order)] + Takes(i);
    TakeDuring(x, redis, order, i, deltas);
    RunExtend(x, before, TakeNext(0, false));
    assert before + [TakeNext(0, false)] == [BeginFlush(0, order)] + Takes(i + 1);
  }

  lemma TakeDuring(x: World, redis: Tally, order: seq<Post>, i: nat, deltas: Tally)
    requires |x.workers| == 1 && i < |order|
    ensures var y, d := During(x, redis, order, i, deltas), At(redis, order[i]);
            && Enabled(y, TakeNext(0, false))
            && Next(y, TakeNext(0, false))
               == During(x, redis[order[i] := 0], order, i + 1, if d > 0 then deltas[order[i] := d] else deltas)
  {
  }
}
