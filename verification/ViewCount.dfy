/** View counting with write-back: shared counters, per-process pending sets and batched flushes,
    as interleaved atomic steps of any number of workers. */
module ViewCount {
  import opened Prelude
  import opened Decimal

  type Post = nat

  /** Counters by post; a missing key reads as zero. */
  type Tally = map<Post, nat>

  function At(m: Tally, p: Post): nat {
    if p in m then m[p] else 0
  }

  function Bump(m: Tally, p: Post, d: nat): Tally {
    m[p := At(m, p) + d]
  }

  // ---------------------------------------------------------------- keys

  function Scope(user: Option<nat>, ipHash: Option<string>): string {
    match user
    case Some(u) => "u" + Digits(u)
    case None => "i" + (if ipHash.Some? then ipHash.value else "None")
  }

  function DedupKey(p: Post, user: Option<nat>, ipHash: Option<string>): string {
    "view:dedup:" + Digits(p) + ":" + Scope(user, ipHash)
  }

  function CountKey(p: Post): string {
    "view:count:" + Digits(p)
  }

  /** Two viewers share a deduplication key only when they are the same viewer of the same post. */
  lemma DedupKeyIdentifiesViewer(
      p: Post, user: Option<nat>, ip: Option<string>, p': Post, user': Option<nat>, ip': Option<string>)
    requires DedupKey(p, user, ip) == DedupKey(p', user', ip')
    requires user.None? ==> ip.Some?
    requires user'.None? ==> ip'.Some?
    ensures p == p' && user == user' && (user.None? ==> ip == ip')
  {
    var prefix := "view:dedup:";
    var s, s' := Scope(user, ip), Scope(user', ip');
    assert DedupKey(p, user, ip)[|prefix|..] == Digits(p) + [':'] + s;
    assert DedupKey(p', user', ip')[|prefix|..] == Digits(p') + [':'] + s';
    NumberThenSeparator(p, p', ':', s, s');
    assert s[0] == s'[0] && s[1..] == s'[1..];
    if user.Some? {
      assert s[1..] == Digits(user.value) && s'[1..] == Digits(user'.value);
      DigitsInjective(user.value, user'.value);
    }
  }

  lemma CountKeyIdentifiesPost(p: Post, p': Post, user: Option<nat>, ip: Option<string>)
    ensures CountKey(p) == CountKey(p') ==> p == p'
    ensures CountKey(p) != DedupKey(p', user, ip)
  {
    assert CountKey(p)[|"view:count:"|..] == Digits(p);
    assert CountKey(p')[|"view:count:"|..] == Digits(p');
    if CountKey(p) == CountKey(p') {
      DigitsInjective(p, p');
    }
    assert CountKey(p)[5] == 'c' && DedupKey(p', user, ip)[5] == 'd';
  }

  // ---------------------------------------------------------------- the state machine

  datatype Phase =
    | Idle
    | Collecting(batch: seq<Post>, next: nat, deltas: Tally)
    | Committing(deltas: Tally)

  /** One process: its pending set, its flush task, its in-memory fallback counters for posts and for
      deduplication keys (`seen`), and the requests that passed deduplication but have not been counted
      (`approved`) or not yet been noted as pending (`arriving`). */
  datatype Worker = Worker(
    pending: set<Post>, phase: Phase, memory: Tally, seen: map<string, nat>,
    approved: multiset<Post>, arriving: multiset<Post>)

  const FRESH := Worker({}, Idle, map[], map[], multiset{}, multiset{})

  /** The deployment. `views` is the database column; `accepted` and `dropped` are history only:
      increments ever counted, and increments that left the counters without reaching the database. */
  datatype World = World(
    redis: Tally, dedup: map<string, nat>, views: Tally, workers: seq<Worker>,
    accepted: Tally, dropped: Tally)

  /** `degraded` says that Redis did not answer and the process's own memory served the call. */
  datatype Step =
    | Visit(w: nat, post: Post, user: Option<nat>, ipHash: Option<string>, degraded: bool)
    | Count(w: nat, post: Post, degraded: bool)
    | Note(w: nat, post: Post)
    | BeginFlush(w: nat, batch: seq<Post>)
    | TakeNext(w: nat, degraded: bool)
    | Seal(w: nat)
    | Commit(w: nat)
    | Fail(w: nat)
    | ForgetKey(key: string)
    | ForgetSeen(w: nat, key: string)
    | EvictMemory(w: nat, post: Post)
    | Restart(w: nat)

  ghost predicate Enabled(x: World, s: Step) {
    (!s.ForgetKey? ==> s.w < |x.workers|) &&
    match s
    case Visit(_, _, _, _, _) => true
    case Count(w, p, _) => p in x.workers[w].approved
    case Note(w, p) => p in x.workers[w].arriving
    case BeginFlush(w, batch) =>
      x.workers[w].phase.Idle? && batch != [] && Distinct(batch) && Elements(batch) == x.workers[w].pending
    case TakeNext(w, _) => x.workers[w].phase.Collecting? && x.workers[w].phase.next < |x.workers[w].phase.batch|
    case Seal(w) => x.workers[w].phase.Collecting? && x.workers[w].phase.next >= |x.workers[w].phase.batch|
    case Commit(w) => x.workers[w].phase.Committing?
    case Fail(w) => !x.workers[w].phase.Idle?
    case ForgetKey(_) => true
    case ForgetSeen(_, _) => true
    case EvictMemory(_, _) => true
    case Restart(_) => true
  }

  /** The deduplication counters that serve a visit. */
  function Store(x: World, w: nat, degraded: bool): map<string, nat>
    requires w < |x.workers|
  {
    if degraded then x.workers[w].seen else x.dedup
  }

  predicate Seen(dedup: map<string, nat>, key: string) {
    key in dedup && dedup[key] > 0
  }

  predicate Passes(dedup: map<string, nat>, user: Option<nat>, ipHash: Option<string>, p: Post) {
    (user.None? && ipHash.None?) || !Seen(dedup, DedupKey(p, user, ipHash))
  }

  function Mark(dedup: map<string, nat>, key: string): map<string, nat> {
    dedup[key := (if key in dedup then dedup[key] else 0) + 1]
  }

  /** The database update: rows that exist grow by their delta. */
  function Grown(views: Tally, deltas: Tally): Tally {
    map p | p in views :: views[p] + At(deltas, p)
  }

  /** Deltas for posts whose row no longer exists update nothing. */
  function Orphans(views: Tally, deltas: Tally): Tally {
    map p | p in deltas && p !in views :: deltas[p]
  }

  function Plus(a: Tally, b: Tally): Tally {
    map p | p in a.Keys + b.Keys :: At(a, p) + At(b, p)
  }

  function Held(k: Worker): Tally {
    if k.phase.Idle? then map[] else k.phase.deltas
  }

  function Taken(k: Worker, delta: nat): Worker
    requires k.phase.Collecting? && k.phase.next < |k.phase.batch|
  {
    var c := k.phase;
    k.(phase := c.(next := c.next + 1, deltas := if delta > 0 then c.deltas[c.batch[c.next] := delta] else c.deltas))
  }

  function Sealed(k: Worker): Worker
    requires k.phase.Collecting?
  {
    k.(pending := k.pending - (set p | p in k.phase.batch),
       phase := if k.phase.deltas == map[] then Idle else Committing(k.phase.deltas))
  }

  ghost function Next(x: World, s: Step): World
    requires Enabled(x, s)
  {
    match s
    case Visit(w, p, user, ip, degraded) =>
      var k := x.workers[w];
      var passed := if Passes(Store(x, w, degraded), user, ip, p) then multiset{p} else multiset{};
      if degraded
      then x.(workers := x.workers[w := k.(seen := MarkVisit(k.seen, p, user, ip), approved := k.approved + passed)])
      else x.(dedup := MarkVisit(x.dedup, p, user, ip), workers := x.workers[w := k.(approved := k.approved + passed)])
    case Count(w, p, degraded) =>
      var k := x.workers[w].(approved := x.workers[w].approved - multiset{p},
                             arriving := x.workers[w].arriving + multiset{p});
      x.(redis := if degraded then x.redis else Bump(x.redis, p, 1),
         workers := x.workers[w := if degraded then k.(memory := Bump(k.memory, p, 1)) else k],
         accepted := Bump(x.accepted, p, 1))
    case Note(w, p) =>
      var k := x.workers[w];
      x.(workers := x.workers[w := k.(arriving := k.arriving - multiset{p}, pending := k.pending + {p})])
    case BeginFlush(w, batch) =>
      x.(workers := x.workers[w := x.workers[w].(phase := Collecting(batch, 0, map[]))])
    case TakeNext(w, degraded) =>
      var k := x.workers[w];
      var p := k.phase.batch[k.phase.next];
      if degraded
      then x.(workers := x.workers[w := Taken(k, At(k.memory, p)).(memory := k.memory[p := 0])])
      else x.(redis := x.redis[p := 0], workers := x.workers[w := Taken(k, At(x.redis, p))])
    case Seal(w) =>
      x.(workers := x.workers[w := Sealed(x.workers[w])])
    case Commit(w) =>
      var k := x.workers[w];
      x.(views := Grown(x.views, k.phase.deltas),
         dropped := Plus(x.dropped, Orphans(x.views, k.phase.deltas)),
         workers := x.workers[w := k.(phase := Idle)])
    case Fail(w) =>
      var k := x.workers[w];
      x.(dropped := Plus(x.dropped, k.phase.deltas), workers := x.workers[w := k.(phase := Idle)])
    case ForgetKey(key) =>
      x.(dedup := x.dedup - {key})
    case ForgetSeen(w, key) =>
      x.(workers := x.workers[w := x.workers[w].(seen := x.workers[w].seen - {key})])
    case Restart(w) =>
      var k := x.workers[w];
      x.(dropped := Plus(x.dropped, Plus(k.memory, Held(k))), workers := x.workers[w := FRESH])
    case EvictMemory(w, p) =>
      var k := x.workers[w];
      x.(dropped := Bump(x.dropped, p, At(k.memory, p)), workers := x.workers[w := k.(memory := k.memory[p := 0])])
  }

  /** Every schedule: steps that are not enabled at their turn do nothing. */
  ghost function Run(x: World, steps: seq<Step>): World
    decreases |steps|
  {
    if steps == [] then x
    else
      var y := Run(x, steps[..|steps| - 1]);
      var s := steps[|steps| - 1];
      if Enabled(y, s) then Next(y, s) else y
  }

  /** A flush may start in any idle process and takes each pending post once, in any order. */
  lemma FlushCanStartIff(x: World, w: nat, batch: seq<Post>)
    ensures Enabled(x, BeginFlush(w, batch)) <==>
              && w < |x.workers| && x.workers[w].phase == Idle && batch != []
              && (forall i, j :: 0 <= i < j < |batch| ==> batch[i] != batch[j])
              && forall p :: p in batch <==> p in x.workers[w].pending
  {
    if w < |x.workers| {
      assert Elements(batch) == x.workers[w].pending <==> forall p :: p in batch <==> p in x.workers[w].pending by {
        assert forall p :: p in batch <==> p in Elements(batch);
      }
    }
  }

  /** At any moment a deduplication key may expire, in Redis or in a process; a fallback counter may be evicted; and a
      process may stop, losing its memory and what it carries. */
  lemma FaultsAre(x: World, w: nat, key: string, p: Post)
    requires w < |x.workers|
    ensures Enabled(x, ForgetKey(key)) && Next(x, ForgetKey(key)) == x.(dedup := x.dedup - {key})
    ensures Enabled(x, ForgetSeen(w, key)) && Enabled(x, EvictMemory(w, p)) && Enabled(x, Restart(w))
    ensures Next(x, ForgetSeen(w, key)) == x.(workers := x.workers[w := x.workers[w].(seen := x.workers[w].seen - {key})])
    ensures var z := Next(x, EvictMemory(w, p));
            && z == x.(workers := x.workers[w := x.workers[w].(memory := x.workers[w].memory[p := 0])], dropped := z.dropped)
            && At(z.dropped, p) == At(x.dropped, p) + At(x.workers[w].memory, p)
    ensures var z, k := Next(x, Restart(w)), x.workers[w];
            && z == x.(workers := x.workers[w := Worker({}, Idle, map[], map[], multiset{}, multiset{})], dropped := z.dropped)
            && At(z.dropped, p) == At(x.dropped, p) + At(k.memory, p) + if k.phase.Idle? then 0 else At(k.phase.deltas, p)
  {
  }

  // ---------------------------------------------------------------- conservation

  /** What a worker itself carries for a post: fallback counter plus deltas taken but not committed. */
  function Share(k: Worker, p: Post): nat {
    At(k.memory, p) + At(Held(k), p)
  }

  function Carried(ks: seq<Worker>, p: Post): nat {
    if ks == [] then 0 else Carried(ks[..|ks| - 1], p) + Share(ks[|ks| - 1], p)
  }

  lemma {:induction false} CarriedUpdate(ks: seq<Worker>, w: nat, k: Worker, p: Post)
    requires w < |ks|
    ensures Carried(ks[w := k], p) == Carried(ks, p) - Share(ks[w], p) + Share(k, p)
  {
    var n := |ks| - 1;
    if w < n {
      assert ks[w := k][..n] == ks[..n][w := k];
      CarriedUpdate(ks[..n], w, k, p);
    } else {
      assert ks[w := k][..n] == ks[..n];
    }
  }

  /** Everywhere an increment can be: database, shared counter, a worker, or dropped. */
  function Accounted(x: World, p: Post): nat {
    At(x.views, p) + At(x.redis, p) + Carried(x.workers, p) + At(x.dropped, p)
  }

  /** Batches have no repeats and no delta for a post still to be taken. */
  ghost predicate Orderly(k: Worker) {
    k.phase.Collecting? ==>
      && Distinct(k.phase.batch) && k.phase.next <= |k.phase.batch|
      && forall i :: k.phase.next <= i < |k.phase.batch| ==> k.phase.batch[i] !in k.phase.deltas
  }

  ghost predicate AllOrderly(x: World) {
    forall w :: 0 <= w < |x.workers| ==> Orderly(x.workers[w])
  }

  lemma TakenStaysOrderly(k: Worker, delta: nat)
    requires Orderly(k) && k.phase.Collecting? && k.phase.next < |k.phase.batch|
    ensures Orderly(Taken(k, delta))
  {
    assert forall i :: k.phase.next < i < |k.phase.batch| ==> k.phase.batch[i] != k.phase.batch[k.phase.next];
  }

  /** Replacing one worker by an orderly one. */
  lemma OneOrderly(x: World, y: World, w: nat)
    requires AllOrderly(x) && w < |x.workers| == |y.workers|
    requires y.workers == x.workers[w := y.workers[w]] && Orderly(y.workers[w])
    ensures AllOrderly(y)
  {
  }

  lemma MoverStaysOrderly(x: World, s: Step)
    requires AllOrderly(x) && Enabled(x, s) && !s.ForgetKey?
    ensures s.w < |Next(x, s).workers| && Orderly(Next(x, s).workers[s.w])
  {
    var k := x.workers[s.w];
    assert Orderly(k);
    if s.TakeNext? {
      TakenStaysOrderly(k, At(if s.degraded then k.memory else x.redis, k.phase.batch[k.phase.next]));
    }
  }

  lemma StepKeepsOrderly(x: World, s: Step)
    requires AllOrderly(x) && Enabled(x, s)
    ensures AllOrderly(Next(x, s))
  {
    if s.ForgetKey? {
      assert Next(x, s).workers == x.workers;
    } else {
      OneWorkerMoves(x, s);
      MoverStaysOrderly(x, s);
      OneOrderly(x, Next(x, s), s.w);
    }
  }

  /** The books of a post as seen by one worker's step. */
  ghost predicate Balanced(x: World, y: World, w: nat, p: Post)
    requires w < |x.workers| && w < |y.workers|
  {
    && y.workers == x.workers[w := y.workers[w]]
    && At(y.views, p) + At(y.redis, p) + Share(y.workers[w], p) + At(y.dropped, p) - At(y.accepted, p)
       == At(x.views, p) + At(x.redis, p) + Share(x.workers[w], p) + At(x.dropped, p) - At(x.accepted, p)
  }

  /** Taking a counter adds its value to the deltas of that post alone. */
  lemma TakenHolds(k: Worker, delta: nat, p: Post)
    requires Orderly(k) && k.phase.Collecting? && k.phase.next < |k.phase.batch|
    ensures At(Held(Taken(k, delta)), p) == At(Held(k), p) + if p == k.phase.batch[k.phase.next] then delta else 0
    ensures Taken(k, delta).memory == k.memory
  {
  }

  lemma TakeBalances(x: World, w: nat, degraded: bool, p: Post)
    requires AllOrderly(x) && Enabled(x, TakeNext(w, degraded))
    ensures Balanced(x, Next(x, TakeNext(w, degraded)), w, p)
  {
    var k := x.workers[w];
    assert Orderly(k);
    var q := k.phase.batch[k.phase.next];
    TakenHolds(k, At(if degraded then k.memory else x.redis, q), p);
    assert At((if degraded then k.memory else x.redis)[q := 0], p)
        == if p == q then 0 else At(if degraded then k.memory else x.redis, p);
  }

  lemma FlushStepBalances(x: World, s: Step, p: Post)
    requires Enabled(x, s) && (s.Seal? || s.BeginFlush?)
    ensures Balanced(x, Next(x, s), s.w, p)
  {
  }

  lemma EndStepBalances(x: World, s: Step, p: Post)
    requires Enabled(x, s) && (s.Commit? || s.Fail?)
    ensures Balanced(x, Next(x, s), s.w, p)
  {
    var d := x.workers[s.w].phase.deltas;
    assert At(Plus(x.dropped, Orphans(x.views, d)), p) == At(x.dropped, p) + At(Orphans(x.views, d), p);
    assert At(Plus(x.dropped, d), p) == At(x.dropped, p) + At(d, p);
    assert p in x.views ==> At(Grown(x.views, d), p) == At(x.views, p) + At(d, p);
  }

  lemma RequestStepBalances(x: World, s: Step, p: Post)
    requires Enabled(x, s) && (s.Note? || s.ForgetSeen? || s.EvictMemory?)
    ensures Balanced(x, Next(x, s), s.w, p)
  {
  }

  lemma VisitBalances(x: World, s: Step, p: Post)
    requires Enabled(x, s) && s.Visit?
    ensures Balanced(x, Next(x, s), s.w, p)
  {
  }

  lemma RestartBalances(x: World, w: nat, p: Post)
    requires Enabled(x, Restart(w))
    ensures Balanced(x, Next(x, Restart(w)), w, p)
  {
    var k := x.workers[w];
    assert At(Plus(k.memory, Held(k)), p) == At(k.memory, p) + At(Held(k), p);
  }

  lemma CountBalances(x: World, w: nat, q: Post, degraded: bool, p: Post)
    requires Enabled(x, Count(w, q, degraded))
    ensures Balanced(x, Next(x, Count(w, q, degraded)), w, p)
  {
  }

  /** One step moves increments between places but neither creates nor destroys any. */
  lemma StepConserves(x: World, s: Step, p: Post)
    requires AllOrderly(x) && Enabled(x, s)
    ensures Accounted(Next(x, s), p) - At(Next(x, s).accepted, p) == Accounted(x, p) - At(x.accepted, p)
  {
    if s.ForgetKey? {
    } else {
      if s.TakeNext? {
        TakeBalances(x, s.w, s.degraded, p);
      } else if s.Seal? || s.BeginFlush? {
        FlushStepBalances(x, s, p);
      } else if s.Commit? || s.Fail? {
        EndStepBalances(x, s, p);
      } else if s.Count? {
        CountBalances(x, s.w, s.post, s.degraded, p);
      } else if s.Restart? {
        RestartBalances(x, s.w, p);
      } else if s.Visit? {
        VisitBalances(x, s, p);
      } else {
        RequestStepBalances(x, s, p);
      }
      var y := Next(x, s);
      CarriedUpdate(x.workers, s.w, y.workers[s.w], p);
    }
  }

  lemma {:induction false} RunConserves(x: World, steps: seq<Step>, p: Post)
    requires AllOrderly(x)
    ensures AllOrderly(Run(x, steps))
    ensures Accounted(Run(x, steps), p) - At(Run(x, steps).accepted, p) == Accounted(x, p) - At(x.accepted, p)
    decreases |steps|
  {
    if steps != [] {
      var y, s := Run(x, steps[..|steps| - 1]), steps[|steps| - 1];
      RunConserves(x, steps[..|steps| - 1], p);
      if Enabled(y, s) {
        StepKeepsOrderly(y, s);
        StepConserves(y, s, p);
      }
    }
  }

  /** A deployment at rest: empty counters, given database rows, any number of workers. */
  ghost predicate AtRest(x: World) {
    && x.redis == map[] && x.accepted == map[] && x.dropped == map[]
    && forall w :: 0 <= w < |x.workers| ==>
         x.workers[w] == FRESH
  }

  lemma {:induction false} NothingCarried(ks: seq<Worker>, p: Post)
    requires forall w :: 0 <= w < |ks| ==> ks[w].memory == map[] && ks[w].phase == Idle
    ensures Carried(ks, p) == 0
  {
    if ks != [] {
      NothingCarried(ks[..|ks| - 1], p);
    }
  }

  /** For every schedule of every number of workers: the accepted increments of a post are exactly
      those committed, still in the shared counter, carried by workers, or dropped. In particular the
      database never gains more than was accepted, and it gains all of it once nothing is in flight
      and nothing was dropped. */
  lemma EveryViewIsAccountedFor(x: World, steps: seq<Step>, p: Post)
    requires AtRest(x)
    ensures var y := Run(x, steps);
            && At(y.accepted, p) == (At(y.views, p) - At(x.views, p)) + At(y.redis, p) + Carried(y.workers, p)
                                    + At(y.dropped, p)
            && At(y.views, p) - At(x.views, p) <= At(y.accepted, p)
            && (At(y.redis, p) == Carried(y.workers, p) == At(y.dropped, p) == 0
                ==> At(y.views, p) == At(x.views, p) + At(y.accepted, p))
  {
    RunConserves(x, steps, p);
    NothingCarried(x.workers, p);
  }

  // ---------------------------------------------------------------- when increments are dropped

  /** A flush that ends in failure puts nothing back: the shared counters are untouched and exactly the
      captured deltas move to `dropped`. The module's own notes say they stay in Redis. */
  lemma FailureLosesCapturedDeltas(x: World, w: nat, p: Post)
    requires Enabled(x, Fail(w))
    ensures var y := Next(x, Fail(w));
            && y.redis == x.redis && y.views == x.views
            && At(y.dropped, p) == At(x.dropped, p) + At(Held(x.workers[w]), p)
            && Share(y.workers[w], p) == Share(x.workers[w], p) - At(Held(x.workers[w]), p)
  {
  }

  /** So nothing is lost, as the notes have it, exactly when the flush had captured nothing. */
  lemma FailureLosesNothingIff(x: World, w: nat)
    requires Enabled(x, Fail(w))
    ensures (forall p :: At(Next(x, Fail(w)).dropped, p) == At(x.dropped, p))
            <==> forall p :: At(Held(x.workers[w]), p) == 0
  {
    forall p
      ensures At(Next(x, Fail(w)).dropped, p) == At(x.dropped, p) + At(Held(x.workers[w]), p)
    {
      FailureLosesCapturedDeltas(x, w, p);
    }
  }

  /** No other step drops anything, except a commit for a row that is gone, an evicted fallback counter, and a
      process that stops with something in its hands. */
  lemma DroppedGrowsIff(x: World, s: Step, p: Post)
    requires Enabled(x, s)
    ensures At(Next(x, s).dropped, p) > At(x.dropped, p) <==>
            || (s.Fail? && At(Held(x.workers[s.w]), p) > 0)
            || (s.Commit? && p !in x.views && At(Held(x.workers[s.w]), p) > 0)
            || (s.EvictMemory? && s.post == p && At(x.workers[s.w].memory, p) > 0)
            || (s.Restart? && Share(x.workers[s.w], p) > 0)
  {
    if s.Commit? || s.Fail? {
      var d := x.workers[s.w].phase.deltas;
      assert At(Plus(x.dropped, Orphans(x.views, d)), p) == At(x.dropped, p) + At(Orphans(x.views, d), p);
    } else if s.Restart? {
      RestartBalances(x, s.w, p);
    }
  }

  // ---------------------------------------------------------------- is every waiting increment still pending?

  /** Some worker will come back to this post: it is pending, or about to be noted as pending. */
  ghost predicate Tracked(ks: seq<Worker>, p: Post) {
    exists w :: 0 <= w < |ks| && Tracks(ks[w], p)
  }

  predicate Tracks(k: Worker, p: Post) {
    p in k.pending || p in k.arriving
  }

  /** Sealing a batch forgets a post exactly when it is in the batch and nobody else tracks it, even if
      its counter has grown again since it was taken. */
  lemma SealKeepsTrackedIff(x: World, w: nat, p: Post)
    requires Enabled(x, Seal(w)) && Tracked(x.workers, p)
    ensures Tracked(Next(x, Seal(w)).workers, p) <==>
            || p !in x.workers[w].phase.batch
            || p in x.workers[w].arriving
            || exists v :: 0 <= v < |x.workers| && v != w && Tracks(x.workers[v], p)
  {
    OneReplaced(x.workers, w, Sealed(x.workers[w]), p);
  }

  /** A process that stops takes its pending set with it: its posts stay tracked only by the others. */
  lemma RestartKeepsTrackedIff(x: World, w: nat, p: Post)
    requires Enabled(x, Restart(w))
    ensures Tracked(Next(x, Restart(w)).workers, p) <==> exists v :: 0 <= v < |x.workers| && v != w && Tracks(x.workers[v], p)
  {
    OneReplaced(x.workers, w, FRESH, p);
  }

  lemma OneReplaced(ks: seq<Worker>, w: nat, k: Worker, p: Post)
    requires w < |ks|
    ensures Tracked(ks[w := k], p) <==>
            Tracks(k, p) || exists v :: 0 <= v < |ks| && v != w && Tracks(ks[v], p)
  {
    if Tracks(k, p) {
      assert Tracks(ks[w := k][w], p);
    }
    if v :| 0 <= v < |ks| && v != w && Tracks(ks[v], p) {
      assert Tracks(ks[w := k][v], p);
    }
  }

  /** Every post with an increment waiting in Redis is tracked by somebody. */
  ghost predicate SharedCovered(x: World) {
    forall p :: At(x.redis, p) > 0 ==> Tracked(x.workers, p)
  }

  /** Every post with an increment waiting in a process's own memory is tracked by that process: nobody else can
      collect it. */
  ghost predicate OwnCovered(k: Worker) {
    forall p :: At(k.memory, p) > 0 ==> Tracks(k, p)
  }

  ghost predicate Covered(x: World) {
    SharedCovered(x) && forall w :: 0 <= w < |x.workers| ==> OwnCovered(x.workers[w])
  }

  ghost predicate Elsewhere(x: World, w: nat, p: Post) {
    exists v :: 0 <= v < |x.workers| && v != w && Tracks(x.workers[v], p)
  }

  /** The step lets go of a post whose shared counter is positive and that nobody else tracks. */
  ghost predicate StrandsShared(x: World, s: Step)
    requires Enabled(x, s)
  {
    match s
    case Seal(w) =>
      exists p :: At(x.redis, p) > 0 && p in x.workers[w].phase.batch && p !in x.workers[w].arriving && !Elsewhere(x, w, p)
    case Restart(w) => exists p :: At(x.redis, p) > 0 && !Elsewhere(x, w, p)
    case _ => false
  }

  /** The step lets go of a post whose fallback counter in the same process is positive. */
  ghost predicate StrandsOwn(x: World, s: Step)
    requires Enabled(x, s)
  {
    match s
    case Seal(w) =>
      exists p :: At(x.workers[w].memory, p) > 0 && p in x.workers[w].phase.batch && p !in x.workers[w].arriving
    case _ => false
  }

  ghost predicate Strands(x: World, s: Step)
    requires Enabled(x, s)
  {
    StrandsShared(x, s) || StrandsOwn(x, s)
  }

  /** Every step but the end of a deduplication window moves one worker. */
  lemma OneWorkerMoves(x: World, s: Step)
    requires Enabled(x, s) && !s.ForgetKey?
    ensures |Next(x, s).workers| == |x.workers| && Next(x, s).workers == x.workers[s.w := Next(x, s).workers[s.w]]
  {
  }

  lemma StillTracks(x: World, s: Step, p: Post)
    requires Enabled(x, s) && !s.ForgetKey? && !s.Seal? && !s.Restart?
    requires Tracks(x.workers[s.w], p)
    ensures s.w < |Next(x, s).workers| && Tracks(Next(x, s).workers[s.w], p)
  {
  }

  /** A shared counter only becomes positive by a count, which is tracked at once. */
  lemma GrowthIsTracked(x: World, s: Step, p: Post)
    requires Enabled(x, s) && At(x.redis, p) == 0 && At(Next(x, s).redis, p) > 0
    ensures !s.ForgetKey? && s.w < |Next(x, s).workers| && Tracks(Next(x, s).workers[s.w], p)
  {
  }

  /** Only a seal or a restart can let go of a waiting increment. */
  lemma OtherStepKeepsTracked(x: World, s: Step, p: Post)
    requires Enabled(x, s) && !s.Seal? && !s.Restart?
    requires At(x.redis, p) > 0 ==> Tracked(x.workers, p)
    ensures At(Next(x, s).redis, p) > 0 ==> Tracked(Next(x, s).workers, p)
  {
    if At(Next(x, s).redis, p) > 0 {
      if At(x.redis, p) == 0 {
        GrowthIsTracked(x, s, p);
      } else if s.ForgetKey? {
        assert Next(x, s).workers == x.workers;
      } else {
        OneWorkerMoves(x, s);
        var v :| 0 <= v < |x.workers| && Tracks(x.workers[v], p);
        if v == s.w {
          StillTracks(x, s, p);
        }
        assert Tracks(Next(x, s).workers[v], p);
      }
    }
  }

  lemma StepKeepsSharedIff(x: World, s: Step)
    requires SharedCovered(x) && Enabled(x, s)
    ensures SharedCovered(Next(x, s)) <==> !StrandsShared(x, s)
  {
    if s.Seal? {
      forall p | At(x.redis, p) > 0
        ensures Tracked(Next(x, s).workers, p)
                <==> !(p in x.workers[s.w].phase.batch && p !in x.workers[s.w].arriving && !Elsewhere(x, s.w, p))
      {
        SealKeepsTrackedIff(x, s.w, p);
      }
      assert Next(x, s).redis == x.redis;
    } else if s.Restart? {
      forall p
        ensures Tracked(Next(x, s).workers, p) <==> Elsewhere(x, s.w, p)
      {
        RestartKeepsTrackedIff(x, s.w, p);
      }
      assert Next(x, s).redis == x.redis;
    } else {
      forall p
        ensures At(Next(x, s).redis, p) > 0 ==> Tracked(Next(x, s).workers, p)
      {
        OtherStepKeepsTracked(x, s, p);
      }
    }
  }

  lemma SealedOwnIff(k: Worker)
    requires k.phase.Collecting? && OwnCovered(k)
    ensures OwnCovered(Sealed(k)) <==> forall p :: At(k.memory, p) > 0 && p in k.phase.batch ==> p in k.arriving
  {
    forall p
      ensures Tracks(Sealed(k), p) <==> p in k.arriving || (p in k.pending && p !in k.phase.batch)
    {
    }
    assert Sealed(k).memory == k.memory;
  }

  lemma OtherStepKeepsOwn(x: World, s: Step)
    requires Enabled(x, s) && !s.ForgetKey? && !s.Seal? && OwnCovered(x.workers[s.w])
    ensures s.w < |Next(x, s).workers| && OwnCovered(Next(x, s).workers[s.w])
  {
    var k, k' := x.workers[s.w], Next(x, s).workers[s.w];
    forall p | At(k'.memory, p) > 0
      ensures Tracks(k', p)
    {
      if At(k.memory, p) > 0 {
        StillTracks(x, s, p);
      }
    }
  }

  lemma StepKeepsOwnIff(x: World, s: Step, w: nat)
    requires w < |x.workers| && OwnCovered(x.workers[w]) && Enabled(x, s)
    ensures w < |Next(x, s).workers|
    ensures OwnCovered(Next(x, s).workers[w]) <==> !(s.Seal? && s.w == w && StrandsOwn(x, s))
  {
    if s.ForgetKey? {
      assert Next(x, s).workers == x.workers;
    } else {
      OneWorkerMoves(x, s);
      if s.w == w {
        if s.Seal? {
          SealedOwnIff(x.workers[w]);
          assert Next(x, s).workers[w] == Sealed(x.workers[w]);
        } else {
          OtherStepKeepsOwn(x, s);
        }
      }
    }
  }

  /** A step keeps every waiting increment, in Redis or in a process's memory, tracked by someone who can collect
      it, exactly when it does not strand one. */
  lemma StepKeepsCoveredIff(x: World, s: Step)
    requires Covered(x) && Enabled(x, s)
    ensures Covered(Next(x, s)) <==> !Strands(x, s)
  {
    StepKeepsSharedIff(x, s);
    SameWorkerCount(x, s);
    var ks' := Next(x, s).workers;
    forall w | 0 <= w < |ks'|
      ensures OwnCovered(ks'[w]) <==> !(s.Seal? && s.w == w && StrandsOwn(x, s))
    {
      assert OwnCovered(x.workers[w]);
      StepKeepsOwnIff(x, s, w);
    }
    if StrandsOwn(x, s) {
      assert !OwnCovered(ks'[s.w]);
    }
  }

  lemma SameWorkerCount(x: World, s: Step)
    requires Enabled(x, s)
    ensures |Next(x, s).workers| == |x.workers|
  {
  }

  /** No step of the schedule strands anything at its turn. */
  ghost predicate NeverStrands(x: World, steps: seq<Step>)
    decreases |steps|
  {
    steps != [] ==>
      var y, s := Run(x, steps[..|steps| - 1]), steps[|steps| - 1];
      NeverStrands(x, steps[..|steps| - 1]) && (Enabled(y, s) ==> !Strands(y, s))
  }

  lemma {:induction false} CoveredUntilStranded(x: World, steps: seq<Step>, n: nat)
    requires Covered(x) && NeverStrands(x, steps) && n <= |steps|
    ensures Covered(Run(x, steps[..n]))
    decreases |steps|
  {
    if steps == [] {
      assert steps[..n] == [];
    } else {
      var m := |steps| - 1;
      var j := if n <= m then n else m;
      CoveredUntilStranded(x, steps[..m], j);
      assert steps[..m][..j] == steps[..j];
      if n == m + 1 {
        assert steps[..n] == steps;
        if Enabled(Run(x, steps[..m]), steps[m]) {
          StepKeepsCoveredIff(Run(x, steps[..m]), steps[m]);
        }
      }
    }
  }

  lemma {:induction false} StrandedIsUncovered(x: World, steps: seq<Step>) returns (n: nat)
    requires Covered(x) && !NeverStrands(x, steps)
    ensures n <= |steps| && !Covered(Run(x, steps[..n]))
    decreases |steps|
  {
    var m := |steps| - 1;
    if NeverStrands(x, steps[..m]) {
      CoveredUntilStranded(x, steps[..m], m);
      assert steps[..m][..m] == steps[..m];
      StepKeepsCoveredIff(Run(x, steps[..m]), steps[m]);
      n := m + 1;
      assert steps[..n] == steps;
    } else {
      n := StrandedIsUncovered(x, steps[..m]);
      assert steps[..m][..n] == steps[..n];
    }
  }

  /** Along any schedule, every waiting increment is tracked at all times exactly when no seal and no restart
      strands one. */
  lemma AlwaysCoveredIff(x: World, steps: seq<Step>)
    requires Covered(x)
    ensures NeverStrands(x, steps) <==> forall n :: 0 <= n <= |steps| ==> Covered(Run(x, steps[..n]))
  {
    if NeverStrands(x, steps) {
      forall n | 0 <= n <= |steps|
        ensures Covered(Run(x, steps[..n]))
      {
        CoveredUntilStranded(x, steps, n);
      }
    } else {
      var _ := StrandedIsUncovered(x, steps);
    }
  }

  lemma RunExtend(x: World, steps: seq<Step>, s: Step)
    requires Enabled(Run(x, steps), s)
    ensures Run(x, steps + [s]) == Next(Run(x, steps), s)
  {
    assert (steps + [s])[..|steps|] == steps;
  }

  /** A request that passes deduplication, is counted in Redis and noted, all by worker 0. */
  function FullVisit(p: Post, user: Option<nat>, ipHash: Option<string>): seq<Step> {
    [Visit(0, p, user, ipHash, false)] + [Count(0, p, false)] + [Note(0, p)]
  }

  function MarkVisit(dedup: map<string, nat>, p: Post, user: Option<nat>, ipHash: Option<string>): map<string, nat> {
    if user.None? && ipHash.None? then dedup else Mark(dedup, DedupKey(p, user, ipHash))
  }

  /** The three steps of a full visit taken back to back from `y`. */
  lemma VisitCountNote(y: World, p: Post, user: Option<nat>, ipHash: Option<string>) returns (y1: World, y2: World)
    requires |y.workers| == 1 && Passes(y.dedup, user, ipHash, p)
    ensures Enabled(y, Visit(0, p, user, ipHash, false)) && y1 == Next(y, Visit(0, p, user, ipHash, false))
    ensures Enabled(y1, Count(0, p, false)) && y2 == Next(y1, Count(0, p, false))
    ensures Enabled(y2, Note(0, p))
    ensures Next(y2, Note(0, p))
            == y.(dedup := MarkVisit(y.dedup, p, user, ipHash), redis := Bump(y.redis, p, 1),
                  accepted := Bump(y.accepted, p, 1),
                  workers := [y.workers[0].(pending := y.workers[0].pending + {p})])
  {
    var k := y.workers[0];
    y1 := y.(dedup := MarkVisit(y.dedup, p, user, ipHash), workers := [k.(approved := k.approved + multiset{p})]);
    y2 := y.(dedup := y1.dedup, redis := Bump(y.redis, p, 1), accepted := Bump(y.accepted, p, 1),
             workers := [k.(arriving := k.arriving + multiset{p})]);
    assert y.workers[0 := y1.workers[0]] == y1.workers;
    assert k.approved + multiset{p} - multiset{p} == k.approved;
    assert y1.workers[0 := y2.workers[0]] == y2.workers;
    assert k.arriving + multiset{p} - multiset{p} == k.arriving;
    assert y2.workers[0 := k.(pending := k.pending + {p})] == [k.(pending := k.pending + {p})];
  }

  lemma FullVisitEffect(x: World, before: seq<Step>, p: Post, user: Option<nat>, ipHash: Option<string>)
    requires |Run(x, before).workers| == 1 && Passes(Run(x, before).dedup, user, ipHash, p)
    ensures var y := Run(x, before);
            Run(x, before + FullVisit(p, user, ipHash))
            == y.(dedup := MarkVisit(y.dedup, p, user, ipHash), redis := Bump(y.redis, p, 1),
                  accepted := Bump(y.accepted, p, 1),
                  workers := [y.workers[0].(pending := y.workers[0].pending + {p})])
  {
    var y1, y2 := VisitCountNote(Run(x, before), p, user, ipHash);
    RunThree(x, before, Visit(0, p, user, ipHash, false), Count(0, p, false), Note(0, p), y1, y2);
  }

  lemma RunThree(x: World, before: seq<Step>, s1: Step, s2: Step, s3: Step, y1: World, y2: World)
    requires Enabled(Run(x, before), s1) && y1 == Next(Run(x, before), s1)
    requires Enabled(y1, s2) && y2 == Next(y1, s2) && Enabled(y2, s3)
    ensures Run(x, before + ([s1] + [s2] + [s3])) == Next(y2, s3)
  {
    RunExtend(x, before, s1);
    RunExtend(x, before + [s1], s2);
    RunExtend(x, before + [s1] + [s2], s3);
    assert before + [s1] + [s2] + [s3] == before + ([s1] + [s2] + [s3]);
  }

  /** From a world where `p` has just been taken and worker 0 is about to seal, one more visit is
      enough to strand an increment. */
  lemma VisitBeforeSeal(x: World, before: seq<Step>, p: Post, user: nat)
    requires |Run(x, before).workers| == 1
    requires DedupKey(p, Some(user), None) !in Run(x, before).dedup
    requires Run(x, before).workers[0] == Alone(p, Collecting([p], 1, map[p := 1]))
    ensures var z := Run(x, before + FullVisit(p, Some(user), None) + [Seal(0)]);
            At(z.redis, p) > 0 && !Tracked(z.workers, p)
  {
    FullVisitEffect(x, before, p, Some(user), None);
    var y := Run(x, before + FullVisit(p, Some(user), None));
    RunExtend(x, before + FullVisit(p, Some(user), None), Seal(0));
    assert Next(y, Seal(0)).workers == [Sealed(y.workers[0])];
  }

  function Newborn(p: Post): World {
    World(map[], map[], map[p := 0], [FRESH], map[], map[])
  }

  /** Worker 0 with one pending post, while it collects and counts it. */
  function Alone(p: Post, phase: Phase): Worker {
    FRESH.(pending := {p}, phase := phase)
  }

  /** The first viewer of a post, up to the counter swap of the flush that follows. */
  function Swapped(p: Post, user: nat): seq<Step> {
    FullVisit(p, Some(user), None) + [BeginFlush(0, [p])] + [TakeNext(0, false)]
  }

  lemma FirstVisitTaken(p: Post, user: nat)
    ensures Run(Newborn(p), Swapped(p, user))
            == World(map[p := 0], map[DedupKey(p, Some(user), None) := 1], map[p := 0],
                     [Alone(p, Collecting([p], 1, map[p := 1]))], map[p := 1], map[])
  {
    FirstVisit(p, user);
    TakeOnlyPending(Newborn(p), FullVisit(p, Some(user), None), p);
  }

  lemma FirstVisit(p: Post, user: nat)
    ensures Run(Newborn(p), FullVisit(p, Some(user), None))
            == World(map[p := 1], map[DedupKey(p, Some(user), None) := 1], map[p := 0], [Alone(p, Idle)],
                     map[p := 1], map[])
  {
    var x, v := Newborn(p), FullVisit(p, Some(user), None);
    assert Run(x, []) == x;
    FullVisitEffect(x, [], p, Some(user), None);
    assert [] + v == v;
    assert {} + {p} == {p};
  }

  /** Worker 0 with one pending post whose counter stands at one begins a flush and takes it. */
  lemma TakeOnlyPending(x: World, before: seq<Step>, p: Post)
    requires Run(x, before).workers == [Alone(p, Idle)] && At(Run(x, before).redis, p) == 1
    ensures Run(x, before + [BeginFlush(0, [p])] + [TakeNext(0, false)])
            == Run(x, before).(redis := Run(x, before).redis[p := 0],
                               workers := [Alone(p, Collecting([p], 1, map[p := 1]))])
  {
    var y1 := BeginsAlone(Run(x, before), p);
    RunExtend(x, before, BeginFlush(0, [p]));
    TakesAlone(y1, p);
    RunExtend(x, before + [BeginFlush(0, [p])], TakeNext(0, false));
  }

  lemma BeginsAlone(y: World, p: Post) returns (y1: World)
    requires y.workers == [Alone(p, Idle)]
    ensures Enabled(y, BeginFlush(0, [p])) && Next(y, BeginFlush(0, [p])) == y1
    ensures y1 == y.(workers := [Alone(p, Collecting([p], 0, map[]))])
  {
    assert Elements([p]) == {p};
    y1 := y.(workers := [Alone(p, Collecting([p], 0, map[]))]);
  }

  lemma TakesAlone(y: World, p: Post)
    requires y.workers == [Alone(p, Collecting([p], 0, map[]))] && At(y.redis, p) == 1
    ensures Enabled(y, TakeNext(0, false))
    ensures Next(y, TakeNext(0, false))
            == y.(redis := y.redis[p := 0], workers := [Alone(p, Collecting([p], 1, map[p := 1]))])
  {
  }

  /** A concrete schedule that loses a captured increment: one view, one flush, and a commit that fails. The
      view was accepted, and is neither in Redis nor in the database nor with the worker. */
  lemma CapturedThenLost(p: Post, user: nat)
    ensures var z := Run(Newborn(p), Swapped(p, user) + [Seal(0)] + [Fail(0)]);
            At(z.accepted, p) == 1 && At(z.dropped, p) == 1
            && At(z.redis, p) == At(z.views, p) == Carried(z.workers, p) == 0 && !Tracked(z.workers, p)
  {
    var x, before := Newborn(p), Swapped(p, user);
    FirstVisitTaken(p, user);
    RunExtend(x, before, Seal(0));
    SealsAlone(Run(x, before), p);
    RunExtend(x, before + [Seal(0)], Fail(0));
    NothingCarried([FRESH], p);
  }

  lemma SealsAlone(y: World, p: Post)
    requires y.workers == [Alone(p, Collecting([p], 1, map[p := 1]))]
    ensures Enabled(y, Seal(0)) && Next(y, Seal(0)) == y.(workers := [FRESH.(phase := Committing(map[p := 1]))])
  {
    assert p in map[p := 1] && {p} - (set q | q in [p]) == {};
    assert Next(y, Seal(0)).workers == [Sealed(y.workers[0])];
  }

  lemma OtherKey(p: Post, a: nat, b: nat)
    requires a != b
    ensures DedupKey(p, Some(b), None) != DedupKey(p, Some(a), None)
  {
    if DedupKey(p, Some(b), None) == DedupKey(p, Some(a), None) {
      DedupKeyIdentifiesViewer(p, Some(b), None, p, Some(a), None);
    }
  }

  /** A concrete schedule that strands an increment: the post is viewed again between the counter swap
      and the sealing of the batch, so its positive counter is in nobody's pending set. */
  lemma StrandedIncrement(p: Post, a: nat, b: nat)
    requires a != b
    ensures AtRest(Newborn(p))
    ensures var z := Run(Newborn(p), Swapped(p, a) + FullVisit(p, Some(b), None) + [Seal(0)]);
            At(z.redis, p) > 0 && !Tracked(z.workers, p)
  {
    assert Run(Newborn(p), Swapped(p, a)).workers == [Alone(p, Collecting([p], 1, map[p := 1]))]
        && DedupKey(p, Some(b), None) !in Run(Newborn(p), Swapped(p, a)).dedup by {
      FirstVisitTaken(p, a);
      OtherKey(p, a, b);
    }
    VisitBeforeSeal(Newborn(p), Swapped(p, a), p, b);
  }

  /** A view counted in process memory while Redis is away, noted, and then flushed after Redis is back. */
  function CountedInMemory(p: Post, user: nat): seq<Step> {
    [Visit(0, p, Some(user), None, true)] + [Count(0, p, true)] + [Note(0, p)]
  }

  lemma VisitInMemory(p: Post, user: nat)
    ensures Run(Newborn(p), CountedInMemory(p, user))
            == Newborn(p).(accepted := map[p := 1],
                           workers := [FRESH.(pending := {p}, memory := map[p := 1],
                                              seen := map[DedupKey(p, Some(user), None) := 1])])
  {
    var x := Newborn(p);
    var k := FRESH.(seen := map[DedupKey(p, Some(user), None) := 1]);
    var y1 := x.(workers := [k.(approved := multiset{p})]);
    var y2 := x.(accepted := map[p := 1], workers := [k.(arriving := multiset{p}, memory := map[p := 1])]);
    assert Run(x, []) == x && multiset{} + multiset{p} == multiset{p} && multiset{p} - multiset{p} == multiset{};
    assert Next(x, Visit(0, p, Some(user), None, true)).workers == y1.workers;
    assert Next(y1, Count(0, p, true)).workers == y2.workers;
    assert {} + {p} == {p};
    RunThree(x, [], Visit(0, p, Some(user), None, true), Count(0, p, true), Note(0, p), y1, y2);
    assert [] + CountedInMemory(p, user) == CountedInMemory(p, user);
  }

  /** A concrete schedule that strands an increment in the memory of its own process, with no second view: Redis
      comes back between the count and the flush, which reads the shared counter and forgets the post. The
      view is still carried, but in nobody's pending set. */
  lemma StrandedInMemory(p: Post, user: nat)
    ensures var z := Run(Newborn(p), CountedInMemory(p, user) + [BeginFlush(0, [p])] + [TakeNext(0, false)] + [Seal(0)]);
            && |z.workers| == 1 && At(z.workers[0].memory, p) == 1 && !Tracked(z.workers, p)
            && At(z.redis, p) == At(z.views, p) == At(z.dropped, p) == 0 && At(z.accepted, p) == 1
  {
    VisitInMemory(p, user);
    var x, before := Newborn(p), CountedInMemory(p, user);
    var y := Run(x, before);
    var k := y.workers[0];
    assert Elements([p]) == {p};
    RunExtend(x, before, BeginFlush(0, [p]));
    var y1 := y.(workers := [k.(phase := Collecting([p], 0, map[]))]);
    assert Next(y, BeginFlush(0, [p])).workers == y1.workers;
    RunExtend(x, before + [BeginFlush(0, [p])], TakeNext(0, false));
    var y2 := y.(redis := map[p := 0], workers := [k.(phase := Collecting([p], 1, map[]))]);
    assert Next(y1, TakeNext(0, false)).workers == y2.workers;
    RunExtend(x, before + [BeginFlush(0, [p])] + [TakeNext(0, false)], Seal(0));
    assert {p} - (set q | q in [p]) == {};
    assert Next(y2, Seal(0)).workers == [k.(pending := {})];
  }

  // ---------------------------------------------------------------- deduplication

  /** An identified visit under this key that its deduplication counter lets pass. */
  ghost predicate PassesNow(y: World, s: Step, key: string) {
    && s.Visit? && Enabled(y, s) && (s.user.Some? || s.ipHash.Some?)
    && DedupKey(s.post, s.user, s.ipHash) == key && !Seen(Store(y, s.w, s.degraded), key)
  }

  /** A visit goes on to be counted exactly when the viewer is unidentified or the counter that serves it has no
      positive entry for the viewer; that counter then grows by one, for a repeated visit as well. */
  lemma VisitApprovesIff(x: World, w: nat, p: Post, user: Option<nat>, ip: Option<string>, degraded: bool)
    requires w < |x.workers|
    ensures var z := Next(x, Visit(w, p, user, ip, degraded));
            var key, k := DedupKey(p, user, ip), x.workers[w];
            var before := if degraded then k.seen else x.dedup;
            var first := (user == None && ip == None) || key !in before || before[key] == 0;
            && |z.workers| == |x.workers| && z.workers == x.workers[w := z.workers[w]]
            && z.redis == x.redis && z.accepted == x.accepted && z.views == x.views && z.dropped == x.dropped
            && z.workers[w].approved == (if first then k.approved + multiset{p} else k.approved)
            && z.workers[w].arriving == k.arriving && z.workers[w].pending == k.pending && z.workers[w].memory == k.memory
            && var after := if degraded then z.workers[w].seen else z.dedup;
               after == if user == None && ip == None then before
                        else before[key := (if key in before then before[key] else 0) + 1]
  {
    OneWorkerMoves(x, Visit(w, p, user, ip, degraded));
    assert x.workers[w].approved + multiset{} == x.workers[w].approved;
  }

  /** The visit puts its post among those to be counted. */
  ghost predicate GoesOn(x: World, s: Step)
    requires Enabled(x, s)
  {
    s.Visit? && ((s.user == None && s.ipHash == None) || PassesNow(x, s, DedupKey(s.post, s.user, s.ipHash)))
  }

  /** How many visits of a post went on to be counted. */
  ghost function WentOn(x: World, steps: seq<Step>, p: Post): nat
    decreases |steps|
  {
    if steps == [] then 0
    else
      var y, s := Run(x, steps[..|steps| - 1]), steps[|steps| - 1];
      WentOn(x, steps[..|steps| - 1], p) + if Enabled(y, s) && s.Visit? && s.post == p && GoesOn(y, s) then 1 else 0
  }

  /** How many were still to be counted when their process stopped. */
  ghost function Abandoned(x: World, steps: seq<Step>, p: Post): nat
    decreases |steps|
  {
    if steps == [] then 0
    else
      var y, s := Run(x, steps[..|steps| - 1]), steps[|steps| - 1];
      Abandoned(x, steps[..|steps| - 1], p) + if Enabled(y, s) && s.Restart? then y.workers[s.w].approved[p] else 0
  }

  function Approved(ks: seq<Worker>, p: Post): nat {
    if ks == [] then 0 else Approved(ks[..|ks| - 1], p) + ks[|ks| - 1].approved[p]
  }

  lemma {:induction false} ApprovedUpdate(ks: seq<Worker>, w: nat, k: Worker, p: Post)
    requires w < |ks|
    ensures Approved(ks[w := k], p) == Approved(ks, p) - ks[w].approved[p] + k.approved[p]
  {
    var n := |ks| - 1;
    if w < n {
      assert ks[w := k][..n] == ks[..n][w := k];
      ApprovedUpdate(ks[..n], w, k, p);
    } else {
      assert ks[w := k][..n] == ks[..n];
    }
  }

  /** What one step does to the count of a post and to the requests of its worker still to be counted. */
  lemma StepCounts(x: World, s: Step, p: Post)
    requires Enabled(x, s) && !s.ForgetKey?
    ensures s.w < |Next(x, s).workers|
    ensures At(Next(x, s).accepted, p) + Next(x, s).workers[s.w].approved[p]
            == At(x.accepted, p) + x.workers[s.w].approved[p]
               + (if s.Visit? && s.post == p && GoesOn(x, s) then 1 else 0)
               - (if s.Restart? then x.workers[s.w].approved[p] else 0)
  {
    if s.Visit? {
      VisitApprovesIff(x, s.w, s.post, s.user, s.ipHash, s.degraded);
    } else if s.Count? {
      CountCounts(x, s.w, s.post, s.degraded, p);
    } else if !s.Restart? {
      OthersKeepCount(x, s, p);
    }
  }

  lemma CountCounts(x: World, w: nat, q: Post, degraded: bool, p: Post)
    requires Enabled(x, Count(w, q, degraded))
    ensures var z := Next(x, Count(w, q, degraded));
            && w < |z.workers| && At(z.accepted, p) == At(x.accepted, p) + (if p == q then 1 else 0)
            && z.workers[w].approved[p] == x.workers[w].approved[p] - (if p == q then 1 else 0)
  {
  }

  lemma OthersKeepCount(x: World, s: Step, p: Post)
    requires Enabled(x, s) && !s.ForgetKey? && !s.Visit? && !s.Count? && !s.Restart?
    ensures s.w < |Next(x, s).workers| && Next(x, s).workers[s.w].approved[p] == x.workers[s.w].approved[p]
    ensures At(Next(x, s).accepted, p) == At(x.accepted, p)
  {
    match s
    case Note(_, _) =>
    case BeginFlush(_, _) =>
    case TakeNext(_, _) =>
    case Seal(_) =>
    case Commit(_) =>
    case Fail(_) =>
    case ForgetSeen(_, _) =>
    case EvictMemory(_, _) =>
  }

  /** Along any schedule: the visits of a post that went on are those accepted, those still to be counted, and
      those abandoned by a process that stopped. */
  lemma {:induction false} WentOnIsAccepted(x: World, steps: seq<Step>, p: Post)
    ensures var z := Run(x, steps);
            WentOn(x, steps, p) == (At(z.accepted, p) - At(x.accepted, p))
                                   + (Approved(z.workers, p) - Approved(x.workers, p)) + Abandoned(x, steps, p)
    decreases |steps|
  {
    if steps != [] {
      var n := |steps| - 1;
      WentOnIsAccepted(x, steps[..n], p);
      var y, s := Run(x, steps[..n]), steps[n];
      if Enabled(y, s) && !s.ForgetKey? {
        StepCounts(y, s, p);
        OneWorkerMoves(y, s);
        ApprovedUpdate(y.workers, s.w, Next(y, s).workers[s.w], p);
      }
    }
  }

  /** How many visits with this key pass deduplication along a run. */
  ghost function PassCount(x: World, steps: seq<Step>, key: string): nat
    decreases |steps|
  {
    if steps == [] then 0
    else
      var y, s := Run(x, steps[..|steps| - 1]), steps[|steps| - 1];
      PassCount(x, steps[..|steps| - 1], key) + if PassesNow(y, s, key) then 1 else 0
  }

  /** How many processes have this key in their own memory. */
  function SeenInMemory(ks: seq<Worker>, key: string): nat {
    if ks == [] then 0 else SeenInMemory(ks[..|ks| - 1], key) + if Seen(ks[|ks| - 1].seen, key) then 1 else 0
  }

  /** How many places, Redis and process memories, hold this key. */
  function Holders(x: World, key: string): nat {
    (if Seen(x.dedup, key) then 1 else 0) + SeenInMemory(x.workers, key)
  }

  lemma {:induction false} SeenUpdate(ks: seq<Worker>, w: nat, k: Worker, key: string)
    requires w < |ks|
    ensures SeenInMemory(ks[w := k], key)
            == SeenInMemory(ks, key) - (if Seen(ks[w].seen, key) then 1 else 0) + (if Seen(k.seen, key) then 1 else 0)
  {
    var n := |ks| - 1;
    if w < n {
      assert ks[w := k][..n] == ks[..n][w := k];
      SeenUpdate(ks[..n], w, k, key);
    } else {
      assert ks[w := k][..n] == ks[..n];
    }
  }

  /** The steps that make some place forget the key: its window ends, its memory entry is evicted, or the
      process stops. */
  predicate Forgets(s: Step, key: string) {
    s == ForgetKey(key) || (s.ForgetSeen? && s.key == key) || s.Restart?
  }

  lemma HoldersAfter(y: World, s: Step, key: string)
    requires Enabled(y, s) && !Forgets(s, key)
    ensures Holders(Next(y, s), key) == Holders(y, key) + if PassesNow(y, s, key) then 1 else 0
  {
    if s.Visit? {
      VisitMarks(y, s, key);
    } else {
      OthersKeepSeen(y, s, key);
    }
    if !s.ForgetKey? {
      OneWorkerMoves(y, s);
      SeenUpdate(y.workers, s.w, Next(y, s).workers[s.w], key);
    }
  }

  lemma MarkedIsSeen(dedup: map<string, nat>, p: Post, user: Option<nat>, ip: Option<string>, key: string)
    ensures Seen(MarkVisit(dedup, p, user, ip), key)
            <==> Seen(dedup, key) || ((user.Some? || ip.Some?) && DedupKey(p, user, ip) == key)
  {
  }

  lemma VisitMarks(y: World, s: Step, key: string)
    requires Enabled(y, s) && s.Visit?
    ensures s.w < |Next(y, s).workers|
    ensures var marks := (s.user.Some? || s.ipHash.Some?) && DedupKey(s.post, s.user, s.ipHash) == key;
            && (Seen(Next(y, s).dedup, key) <==> Seen(y.dedup, key) || (marks && !s.degraded))
            && (Seen(Next(y, s).workers[s.w].seen, key) <==> Seen(y.workers[s.w].seen, key) || (marks && s.degraded))
  {
    MarkedIsSeen(Store(y, s.w, s.degraded), s.post, s.user, s.ipHash, key);
  }

  lemma OthersKeepSeen(y: World, s: Step, key: string)
    requires Enabled(y, s) && !s.Visit? && !Forgets(s, key)
    ensures Seen(Next(y, s).dedup, key) <==> Seen(y.dedup, key)
    ensures !s.ForgetKey? ==>
              s.w < |Next(y, s).workers| && (Seen(Next(y, s).workers[s.w].seen, key) <==> Seen(y.workers[s.w].seen, key))
    ensures s.ForgetKey? ==> Next(y, s).workers == y.workers
  {
  }

  /** While nothing forgets its key, a viewer passes exactly once per place that comes to hold the key, under
      any interleaving and any pattern of Redis failures. */
  lemma {:induction false} OnePassPerHolder(x: World, steps: seq<Step>, key: string)
    requires forall i :: 0 <= i < |steps| ==> !Forgets(steps[i], key)
    ensures PassCount(x, steps, key) == Holders(Run(x, steps), key) - Holders(x, key)
    decreases |steps|
  {
    if steps != [] {
      var n := |steps| - 1;
      OnePassPerHolder(x, steps[..n], key);
      var y, s := Run(x, steps[..n]), steps[n];
      if Enabled(y, s) {
        HoldersAfter(y, s, key);
      }
    }
  }

  lemma RedisRemembers(y: World, s: Step, key: string)
    requires Enabled(y, s) && s != ForgetKey(key) && !(s.Visit? && s.degraded)
    ensures Seen(Next(y, s).dedup, key) <==> Seen(y.dedup, key) || PassesNow(y, s, key)
    ensures PassesNow(y, s, key) ==> !Seen(y.dedup, key)
  {
    if s.Visit? {
      MarkedIsSeen(y.dedup, s.post, s.user, s.ipHash, key);
    }
  }

  /** With Redis answering every visit, a viewer passes at most once per post until the window ends, and not at
      all if already counted, whatever processes forget or restart. */
  lemma {:induction false} AtMostOnePass(x: World, steps: seq<Step>, key: string)
    requires forall i :: 0 <= i < |steps| ==> steps[i] != ForgetKey(key) && !(steps[i].Visit? && steps[i].degraded)
    ensures PassCount(x, steps, key) == (if Seen(Run(x, steps).dedup, key) && !Seen(x.dedup, key) then 1 else 0)
    ensures Seen(x.dedup, key) ==> Seen(Run(x, steps).dedup, key)
    decreases |steps|
  {
    if steps != [] {
      var n := |steps| - 1;
      AtMostOnePass(x, steps[..n], key);
      var y, s := Run(x, steps[..n]), steps[n];
      if Enabled(y, s) {
        RedisRemembers(y, s, key);
      }
    }
  }

  /** A failing Redis lets the same viewer pass twice: once in Redis, once in the memory of a process. */
  lemma SecondPassWhenDegraded(p: Post, user: nat)
    ensures PassCount(Newborn(p), [Visit(0, p, Some(user), None, false)] + [Visit(0, p, Some(user), None, true)],
                      DedupKey(p, Some(user), None)) == 2
  {
    var x, key := Newborn(p), DedupKey(p, Some(user), None);
    var s1, s2 := Visit(0, p, Some(user), None, false), Visit(0, p, Some(user), None, true);
    assert Run(x, []) == x && [] + [s1] == [s1];
    RunExtend(x, [], s1);
    PassExtend(x, [], s1, key);
    PassExtend(x, [s1], s2, key);
  }

  lemma PassExtend(x: World, steps: seq<Step>, s: Step, key: string)
    ensures PassCount(x, steps + [s], key) == PassCount(x, steps, key) + if PassesNow(Run(x, steps), s, key) then 1 else 0
  {
    assert (steps + [s])[..|steps|] == steps;
  }
}
