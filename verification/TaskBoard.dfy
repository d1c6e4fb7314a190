/** Tasks, claims and their review, tied to the points ledger. */
module TaskBoard {
  import opened Prelude
  import opened PointsLedger

  datatype TaskStatus = Draft | Published | Closed

  datatype Task = Task(points: int, maxClaimants: int, status: TaskStatus)

  datatype ClaimStatus = Claimed | Submitted | Approved | Rejected

  datatype Claim = Claim(
    taskId: nat, userId: nat, status: ClaimStatus, note: Option<string>, submissionUrl: Option<string>,
    completedAt: Option<int>, reviewedBy: Option<nat>, reviewNote: Option<string>)

  datatype Problem = NotFound | NotOpen | AlreadyClaimed | Full | WrongStatus | NotPositivePoints | StillReferenced

  /** `caps` is history only: the highest claimant limit each task ever had. */
  datatype Board = Board(
    tasks: map<nat, Task>, claims: map<nat, Claim>, nextClaim: nat, txs: seq<Tx>, caps: map<nat, int>)

  predicate Active(c: Claim) {
    c.status.Claimed? || c.status.Submitted?
  }

  function ActiveClaims(claims: map<nat, Claim>, taskId: nat): set<nat> {
    set c | c in claims && claims[c].taskId == taskId && Active(claims[c])
  }

  predicate HasClaim(claims: map<nat, Claim>, taskId: nat, userId: nat) {
    exists c :: c in claims && claims[c].taskId == taskId && claims[c].userId == userId
  }

  predicate Referenced(claims: map<nat, Claim>, taskId: nat) {
    exists c :: c in claims && claims[c].taskId == taskId
  }

  function OptionalText(url: Option<string>, otherwise: Option<string>): Option<string> {
    if url.Some? && url.value != "" then url else otherwise
  }

  function Raised(caps: map<nat, int>, taskId: nat, limit: int): map<nat, int> {
    caps[taskId := if taskId in caps && caps[taskId] > limit then caps[taskId] else limit]
  }

  // ---------------------------------------------------------------- requests

  datatype Request =
    | CreateTask(id: nat, task: Task)
    | UpdateTask(id: nat, task: Task)
    | DeleteTask(id: nat)
    | ClaimTask(userId: nat, id: nat, note: Option<string>)
    | CancelClaim(userId: nat, claimId: nat)
    | CancelTaskClaim(userId: nat, id: nat)
    | SubmitClaim(userId: nat, claimId: nat, url: Option<string>, now: int)
    | ReviewClaim(adminId: nat, claimId: nat, approved: bool, note: Option<string>, now: int)
    | AddPoints(userId: nat, amount: int, sourceType: string, now: int)
    | DeductPoints(userId: nat, amount: int, sourceType: string, now: int)

  predicate CanClaim(b: Board, userId: nat, id: nat) {
    id in b.tasks && b.tasks[id].status.Published? && !HasClaim(b.claims, id, userId)
    && |ActiveClaims(b.claims, id)| < b.tasks[id].maxClaimants
  }

  predicate CanCancel(b: Board, userId: nat, claimId: nat) {
    claimId in b.claims && b.claims[claimId].userId == userId && b.claims[claimId].status.Claimed?
  }

  predicate CanReview(b: Board, claimId: nat, approved: bool) {
    claimId in b.claims && Active(b.claims[claimId])
    && (approved ==> b.claims[claimId].taskId in b.tasks && b.tasks[b.claims[claimId].taskId].points > 0)
  }

  function Reviewed(c: Claim, adminId: nat, approved: bool, note: Option<string>): Claim {
    c.(status := if approved then Approved else Rejected, reviewedBy := Some(adminId), reviewNote := note)
  }

  function Apply(b: Board, q: Request): Board {
    match q
    case CreateTask(id, task) =>
      if id in b.tasks || id in b.caps then b
      else b.(tasks := b.tasks[id := task], caps := Raised(b.caps, id, task.maxClaimants))
    case UpdateTask(id, task) =>
      if id !in b.tasks then b
      else b.(tasks := b.tasks[id := task], caps := Raised(b.caps, id, task.maxClaimants))
    case DeleteTask(id) =>
      if id !in b.tasks || Referenced(b.claims, id) then b else b.(tasks := b.tasks - {id})
    case ClaimTask(u, id, note) =>
      if CanClaim(b, u, id)
      then b.(claims := b.claims[b.nextClaim := Claim(id, u, Claimed, note, None, None, None, None)], nextClaim := b.nextClaim + 1)
      else b
    case CancelClaim(u, c) => if CanCancel(b, u, c) then b.(claims := b.claims - {c}) else b
    case CancelTaskClaim(u, id) =>
      b.(claims := b.claims - set c | c in b.claims && b.claims[c].taskId == id && CanCancel(b, u, c))
    case SubmitClaim(u, c, url, now) =>
      if CanCancel(b, u, c)
      then b.(claims := b.claims[c := b.claims[c].(status := Submitted, completedAt := Some(now),
                                                   submissionUrl := OptionalText(url, b.claims[c].submissionUrl))])
      else b
    case ReviewClaim(admin, c, approved, note, now) =>
      if !CanReview(b, c, approved) then b
      else
        var claim := b.claims[c];
        b.(claims := b.claims[c := Reviewed(claim, admin, approved, note)],
           txs := if approved then Added(b.txs, claim.userId, b.tasks[claim.taskId].points, "task", Some(claim.taskId), now)
                  else b.txs)
    case AddPoints(u, amount, source, now) =>
      if source == "task" then b else b.(txs := Added(b.txs, u, amount, source, None, now))
    case DeductPoints(u, amount, source, now) =>
      if source == "task" then b else b.(txs := Deducted(b.txs, u, amount, source, None, now))
  }

  function Run(b: Board, qs: seq<Request>): Board
    decreases |qs|
  {
    if qs == [] then b else Apply(Run(b, qs[..|qs| - 1]), qs[|qs| - 1])
  }

  // ---------------------------------------------------------------- what each request does

  ghost predicate ClaimedBy(claims: map<nat, Claim>, taskId: nat, userId: nat) {
    exists c :: c in claims && claims[c].taskId == taskId && claims[c].userId == userId
  }

  ghost function OpenClaims(claims: map<nat, Claim>, taskId: nat): set<nat> {
    set c | c in claims && claims[c].taskId == taskId && (claims[c].status == Claimed || claims[c].status == Submitted)
  }

  /** Tasks are added under ids never used before, replaced when they exist, and deleted when no claim refers to
      them; nothing but the tasks and the record of limits changes. */
  lemma EditsAre(b: Board, id: nat, task: Task)
    ensures var z := Apply(b, CreateTask(id, task));
            z == b.(tasks := if id in b.tasks || id in b.caps then b.tasks else b.tasks[id := task], caps := z.caps)
    ensures var z := Apply(b, UpdateTask(id, task));
            z == b.(tasks := if id in b.tasks then b.tasks[id := task] else b.tasks, caps := z.caps)
    ensures var z := Apply(b, DeleteTask(id));
            z == b.(tasks := if forall c :: c in b.claims ==> b.claims[c].taskId != id then b.tasks - {id} else b.tasks)
  {
    assert id !in b.tasks ==> b.tasks - {id} == b.tasks;
  }

  /** Points given or taken outside of reviews are rows of their own, never under the source "task". */
  lemma PointsRequestsAre(b: Board, u: nat, amount: int, source: string, now: int)
    ensures Apply(b, AddPoints(u, amount, source, now))
            == if source != "task" && amount > 0
               then b.(txs := b.txs + [Tx(u, amount, source, None, Balance(b.txs, u) + amount, now)]) else b
    ensures Apply(b, DeductPoints(u, amount, source, now))
            == if source != "task" && 0 < amount <= Balance(b.txs, u)
               then b.(txs := b.txs + [Tx(u, -amount, source, None, Balance(b.txs, u) - amount, now)]) else b
  {
    WrittenRow(b.txs, u, amount, source, None, now);
  }

  /** A claim is accepted exactly on a published task with a place left that the user has not claimed in any
      status; it is the only thing that changes. */
  lemma ClaimIs(b: Board, u: nat, id: nat, note: Option<string>)
    ensures var z := Apply(b, ClaimTask(u, id, note));
            if id in b.tasks && b.tasks[id].status == Published && !ClaimedBy(b.claims, id, u)
               && |OpenClaims(b.claims, id)| < b.tasks[id].maxClaimants
            then z == b.(claims := b.claims[b.nextClaim := Claim(id, u, Claimed, note, None, None, None, None)],
                         nextClaim := b.nextClaim + 1)
            else z == b
  {
    assert OpenClaims(b.claims, id) == ActiveClaims(b.claims, id);
  }

  /** Only the claimant withdraws a claim, and only while it is neither submitted nor decided. */
  lemma CancelIs(b: Board, u: nat, c: nat)
    ensures var z := Apply(b, CancelClaim(u, c));
            if c in b.claims && b.claims[c].userId == u && b.claims[c].status == Claimed
            then z == b.(claims := b.claims - {c}) else z == b
  {
  }

  lemma CancelTaskIs(b: Board, u: nat, id: nat, c: nat)
    ensures var z := Apply(b, CancelTaskClaim(u, id));
            && z == b.(claims := z.claims)
            && (c in z.claims <==> c in b.claims && !(b.claims[c].taskId == id && b.claims[c].userId == u && b.claims[c].status == Claimed))
            && (c in z.claims ==> z.claims[c] == b.claims[c])
  {
  }

  /** Only the claimant submits, once; an empty link leaves the old one. */
  lemma SubmitIs(b: Board, u: nat, c: nat, url: Option<string>, now: int)
    ensures var z := Apply(b, SubmitClaim(u, c, url, now));
            if c in b.claims && b.claims[c].userId == u && b.claims[c].status == Claimed
            then z == b.(claims := b.claims[c := b.claims[c].(
                           status := Submitted, completedAt := Some(now),
                           submissionUrl := if url == None || url == Some("") then b.claims[c].submissionUrl else url)])
            else z == b
  {
  }

  /** A review decides a claim that is still open. An approval pays the claimant the points of the claimed task, on
      top of the balance, and is refused when there is nothing to pay; a rejection pays nothing. */
  lemma ReviewIs(b: Board, admin: nat, c: nat, approved: bool, note: Option<string>, now: int)
    ensures var z := Apply(b, ReviewClaim(admin, c, approved, note, now));
            if c in b.claims && (b.claims[c].status == Claimed || b.claims[c].status == Submitted)
               && (approved ==> b.claims[c].taskId in b.tasks && b.tasks[b.claims[c].taskId].points > 0)
            then
              var claim := b.claims[c];
              && z.claims == b.claims[c := claim.(status := if approved then Approved else Rejected,
                                                  reviewedBy := Some(admin), reviewNote := note)]
              && z.tasks == b.tasks && z.nextClaim == b.nextClaim
              && z.txs == (if !approved then b.txs else
                             var points := b.tasks[claim.taskId].points;
                             b.txs + [Tx(claim.userId, points, "task", Some(claim.taskId), Balance(b.txs, claim.userId) + points, now)])
            else z == b
  {
  }

  /** The user's sum grows by the points of the approved task, and nobody else's changes. */
  lemma ApprovalPaysPoints(b: Board, admin: nat, c: nat, note: Option<string>, now: int, u: nat)
    requires c in b.claims && (b.claims[c].status == Claimed || b.claims[c].status == Submitted)
    requires b.claims[c].taskId in b.tasks && b.tasks[b.claims[c].taskId].points > 0
    ensures Sum(Apply(b, ReviewClaim(admin, c, true, note, now)).txs, u)
            == Sum(b.txs, u) + if u == b.claims[c].userId then b.tasks[b.claims[c].taskId].points else 0
  {
    ReviewIs(b, admin, c, true, note, now);
    var z := Apply(b, ReviewClaim(admin, c, true, note, now));
    assert z.txs[..|b.txs|] == b.txs;
  }

  // ---------------------------------------------------------------- what every run keeps

  /** How many times a user was paid for a task. */
  function Awards(txs: seq<Tx>, userId: nat, taskId: nat): nat {
    if txs == [] then 0
    else
      var x := txs[|txs| - 1];
      Awards(txs[..|txs| - 1], userId, taskId)
      + if x.userId == userId && x.sourceType == "task" && x.sourceId == Some(taskId) then 1 else 0
  }

  ghost predicate HasApproved(claims: map<nat, Claim>, userId: nat, taskId: nat) {
    exists c :: ApprovedFor(claims, c, userId, taskId)
  }

  /** One claim per user and task; claim ids come from a counter; claimed tasks exist. */
  ghost predicate Keyed(b: Board) {
    && (forall c :: c in b.claims ==> c < b.nextClaim && b.claims[c].taskId in b.tasks)
    && (forall t :: t in b.tasks ==> t in b.caps && b.tasks[t].maxClaimants <= b.caps[t])
    && forall c, d :: c in b.claims && d in b.claims && c != d ==>
                        (b.claims[c].taskId, b.claims[c].userId) != (b.claims[d].taskId, b.claims[d].userId)
  }

  /** A user was paid for a task once if a claim of theirs stands approved, and otherwise never. */
  ghost predicate PaidForApproved(b: Board) {
    forall u, t :: Awards(b.txs, u, t) == if HasApproved(b.claims, u, t) then 1 else 0
  }

  ghost predicate WithinCaps(b: Board) {
    forall t :: ActiveClaims(b.claims, t) != {} ==> t in b.caps && |ActiveClaims(b.claims, t)| <= b.caps[t]
  }

  ghost predicate Sound(b: Board) {
    Keyed(b) && PaidForApproved(b) && WithinCaps(b) && Consistent(b.txs)
  }

  lemma AwardsAppend(txs: seq<Tx>, x: Tx, u: nat, t: nat)
    ensures Awards(txs + [x], u, t)
            == Awards(txs, u, t) + if x.userId == u && x.sourceType == "task" && x.sourceId == Some(t) then 1 else 0
  {
    assert (txs + [x])[..|txs|] == txs;
  }

  lemma ApplyKeepsKeyed(b: Board, q: Request)
    requires Keyed(b)
    ensures Keyed(Apply(b, q))
  {
    if q.ClaimTask? && CanClaim(b, q.userId, q.id) {
      NewClaimKeepsKeyed(b, Claim(q.id, q.userId, Claimed, q.note, None, None, None, None));
    } else if q.SubmitClaim? || q.ReviewClaim? || q.CancelClaim? || q.CancelTaskClaim? {
      FewerClaimsKeepKeyed(b, Apply(b, q));
    }
  }

  lemma NewClaimKeepsKeyed(b: Board, claim: Claim)
    requires Keyed(b) && claim.taskId in b.tasks && !HasClaim(b.claims, claim.taskId, claim.userId)
    ensures Keyed(b.(claims := b.claims[b.nextClaim := claim], nextClaim := b.nextClaim + 1))
  {
  }

  /** Removing claims, or changing anything but whose they are and what they are for. */
  lemma FewerClaimsKeepKeyed(b: Board, b': Board)
    requires Keyed(b) && b'.tasks == b.tasks && b'.caps == b.caps && b'.nextClaim == b.nextClaim
    requires forall c :: c in b'.claims ==>
               c in b.claims && b'.claims[c].taskId == b.claims[c].taskId && b'.claims[c].userId == b.claims[c].userId
    ensures Keyed(b')
  {
  }

  lemma AddedKeepsConsistent(txs: seq<Tx>, u: nat, amount: int, source: string, id: Option<nat>, now: int)
    requires Consistent(txs)
    ensures Consistent(Added(txs, u, amount, source, id, now))
  {
    if amount > 0 {
      BalanceIsSum(txs, u);
      AppendKeepsConsistent(txs, Entry(txs, u, amount, source, id, now));
    }
  }

  lemma DeductedKeepsConsistent(txs: seq<Tx>, u: nat, amount: int, source: string, id: Option<nat>, now: int)
    requires Consistent(txs)
    ensures Consistent(Deducted(txs, u, amount, source, id, now))
  {
    if 0 < amount <= Balance(txs, u) {
      AppendKeepsConsistent(txs, Entry(txs, u, -amount, source, id, now));
    }
  }

  /** Rows of the ledger stay consistent, whatever is asked. */
  lemma ApplyKeepsConsistent(b: Board, q: Request)
    requires Consistent(b.txs)
    ensures Consistent(Apply(b, q).txs)
  {
    match q
    case ReviewClaim(_, c, approved, _, now) =>
      if CanReview(b, c, approved) && approved {
        var claim := b.claims[c];
        AddedKeepsConsistent(b.txs, claim.userId, b.tasks[claim.taskId].points, "task", Some(claim.taskId), now);
      }
    case AddPoints(u, amount, source, now) => AddedKeepsConsistent(b.txs, u, amount, source, None, now);
    case DeductPoints(u, amount, source, now) => DeductedKeepsConsistent(b.txs, u, amount, source, None, now);
    case _ =>
  }

  /** Only an approval pays for a task. */
  lemma ApplyAwards(b: Board, q: Request, u: nat, t: nat)
    ensures Awards(Apply(b, q).txs, u, t)
            == Awards(b.txs, u, t)
               + if q.ReviewClaim? && q.approved && CanReview(b, q.claimId, true)
                    && b.claims[q.claimId].userId == u && b.claims[q.claimId].taskId == t then 1 else 0
  {
    var next := Apply(b, q).txs;
    if |next| > |b.txs| {
      assert next == b.txs + [next[|b.txs|]];
      AwardsAppend(b.txs, next[|b.txs|], u, t);
    }
  }

  /** Reviewing an active claim: the user has an approved claim there afterwards iff it was approved. */
  lemma ReviewDecides(b: Board, c: nat, admin: nat, approved: bool, note: Option<string>)
    requires Keyed(b) && CanReview(b, c, approved)
    ensures !HasApproved(b.claims, b.claims[c].userId, b.claims[c].taskId)
    ensures HasApproved(b.claims[c := Reviewed(b.claims[c], admin, approved, note)], b.claims[c].userId, b.claims[c].taskId)
            <==> approved
  {
    var claims' := b.claims[c := Reviewed(b.claims[c], admin, approved, note)];
    assert ApprovedFor(claims', c, b.claims[c].userId, b.claims[c].taskId) <==> approved;
  }

  lemma ApplyKeepsPaid(b: Board, q: Request, u: nat, t: nat)
    requires Keyed(b) && PaidForApproved(b)
    ensures Awards(Apply(b, q).txs, u, t) == if HasApproved(Apply(b, q).claims, u, t) then 1 else 0
  {
    ApplyAwards(b, q, u, t);
    var claims' := Apply(b, q).claims;
    if && q.ReviewClaim? && CanReview(b, q.claimId, q.approved)
       && b.claims[q.claimId].userId == u && b.claims[q.claimId].taskId == t {
      ReviewDecides(b, q.claimId, q.adminId, q.approved, q.note);
    } else {
      forall c
        ensures ApprovedFor(b.claims, c, u, t) <==> ApprovedFor(claims', c, u, t)
      {
        ApprovalOnlyByReview(b, q, u, t, c);
      }
      SameApproved(b.claims, claims', u, t);
    }
  }

  predicate ApprovedFor(claims: map<nat, Claim>, c: nat, u: nat, t: nat) {
    c in claims && claims[c].userId == u && claims[c].taskId == t && claims[c].status.Approved?
  }

  /** Nothing but a review of this user's claim on this task changes which of them stand approved. */
  lemma ApprovalOnlyByReview(b: Board, q: Request, u: nat, t: nat, c: nat)
    requires Keyed(b)
    requires !(q.ReviewClaim? && CanReview(b, q.claimId, q.approved)
               && b.claims[q.claimId].userId == u && b.claims[q.claimId].taskId == t)
    ensures ApprovedFor(b.claims, c, u, t) <==> ApprovedFor(Apply(b, q).claims, c, u, t)
  {
  }

  /** Tables with the same approved claims of a user on a task. */
  lemma SameApproved(claims: map<nat, Claim>, claims': map<nat, Claim>, u: nat, t: nat)
    requires forall c :: ApprovedFor(claims, c, u, t) <==> ApprovedFor(claims', c, u, t)
    ensures HasApproved(claims, u, t) <==> HasApproved(claims', u, t)
  {
  }

  lemma SubsetIsSmaller(a: set<nat>, b: set<nat>)
    requires a <= b
    ensures |a| <= |b|
  {
    assert b == a + (b - a);
  }

  /** Nothing but a successful claim makes a claim active. */
  lemma ActiveOnlyShrinks(b: Board, q: Request, t: nat, c: nat)
    requires Keyed(b) && !(q.ClaimTask? && CanClaim(b, q.userId, q.id) && q.id == t)
    requires c in ActiveClaims(Apply(b, q).claims, t)
    ensures c in ActiveClaims(b.claims, t)
  {
    var claims' := Apply(b, q).claims;
    assert claims'[c].taskId == t && Active(claims'[c]);
  }

  lemma CapsOnlyGrow(b: Board, q: Request, t: nat)
    requires t in b.caps
    ensures t in Apply(b, q).caps && Apply(b, q).caps[t] >= b.caps[t]
  {
  }

  lemma OneMoreActive(claims: map<nat, Claim>, id: nat, claim: Claim, t: nat)
    requires id !in claims && claim.taskId == t && Active(claim)
    ensures |ActiveClaims(claims[id := claim], t)| == |ActiveClaims(claims, t)| + 1
  {
    assert ActiveClaims(claims[id := claim], t) == ActiveClaims(claims, t) + {id};
  }

  lemma ApplyKeepsCaps(b: Board, q: Request, t: nat)
    requires Keyed(b) && WithinCaps(b)
    requires ActiveClaims(Apply(b, q).claims, t) != {}
    ensures t in Apply(b, q).caps && |ActiveClaims(Apply(b, q).claims, t)| <= Apply(b, q).caps[t]
  {
    var before, after := ActiveClaims(b.claims, t), ActiveClaims(Apply(b, q).claims, t);
    if q.ClaimTask? && CanClaim(b, q.userId, q.id) && q.id == t {
      OneMoreActive(b.claims, b.nextClaim, Apply(b, q).claims[b.nextClaim], t);
    } else {
      forall c | c in after
        ensures c in before
      {
        ActiveOnlyShrinks(b, q, t, c);
      }
      SubsetIsSmaller(after, before);
      CapsOnlyGrow(b, q, t);
    }
  }

  lemma ApplyKeepsSound(b: Board, q: Request)
    requires Sound(b)
    ensures Sound(Apply(b, q))
  {
    ApplyKeepsKeyed(b, q);
    ApplyKeepsConsistent(b, q);
    forall u, t
      ensures Awards(Apply(b, q).txs, u, t) == if HasApproved(Apply(b, q).claims, u, t) then 1 else 0
    {
      ApplyKeepsPaid(b, q, u, t);
    }
    forall t | ActiveClaims(Apply(b, q).claims, t) != {}
      ensures t in Apply(b, q).caps && |ActiveClaims(Apply(b, q).claims, t)| <= Apply(b, q).caps[t]
    {
      ApplyKeepsCaps(b, q, t);
    }
  }

  function EmptyBoard(): Board {
    Board(map[], map[], 0, [], map[])
  }

  lemma {:induction false} RunKeepsSound(b: Board, qs: seq<Request>)
    requires Sound(b)
    ensures Sound(Run(b, qs))
    decreases |qs|
  {
    if qs != [] {
      RunKeepsSound(b, qs[..|qs| - 1]);
      ApplyKeepsSound(Run(b, qs[..|qs| - 1]), qs[|qs| - 1]);
    }
  }

  /** After any history of requests: a user is paid for a task at most once and exactly when an approved
      claim of theirs stands; a task never has more active claims than the highest limit it ever had; and
      every balance is the user's running sum, never negative. */
  lemma EveryRunIsFair(qs: seq<Request>, u: nat, t: nat)
    ensures var b := Run(EmptyBoard(), qs);
            && Awards(b.txs, u, t) == (if HasApproved(b.claims, u, t) then 1 else 0)
            && (ActiveClaims(b.claims, t) != {} ==> t in b.caps && |ActiveClaims(b.claims, t)| <= b.caps[t])
            && Balance(b.txs, u) == Sum(b.txs, u) >= 0
            && (Peak(b.txs, u).Some? ==> Peak(b.txs, u).value >= Balance(b.txs, u))
  {
    RunKeepsSound(EmptyBoard(), qs);
    var b := Run(EmptyBoard(), qs);
    BalanceIsSum(b.txs, u);
    if Peak(b.txs, u).Some? {
      LeaderboardShowsBalanceIff(b.txs, u);
    }
  }

  /** A request keeps a task's active claims within the limit in force exactly when it does not lower that limit
      below the claims there already are. */
  lemma LimitKeptIff(b: Board, q: Request, t: nat)
    requires Keyed(b) && t in b.tasks && |ActiveClaims(b.claims, t)| <= b.tasks[t].maxClaimants
    ensures var z := Apply(b, q);
            (t in z.tasks ==> |ActiveClaims(z.claims, t)| <= z.tasks[t].maxClaimants)
            <==> !(q.UpdateTask? && q.id == t && q.task.maxClaimants < |ActiveClaims(b.claims, t)|)
  {
    if q.ClaimTask? && CanClaim(b, q.userId, q.id) && q.id == t {
      OneMoreActive(b.claims, b.nextClaim, Apply(b, q).claims[b.nextClaim], t);
    } else {
      forall c | c in ActiveClaims(Apply(b, q).claims, t)
        ensures c in ActiveClaims(b.claims, t)
      {
        ActiveOnlyShrinks(b, q, t, c);
      }
      SubsetIsSmaller(ActiveClaims(Apply(b, q).claims, t), ActiveClaims(b.claims, t));
    }
  }

  /** One claim on a task for one, and the limit lowered to none: more active claims than places. */
  lemma LoweredLimitIsExceeded(userId: nat, points: int)
    ensures var b := Run(EmptyBoard(), [Request.CreateTask(1, Task(points, 1, Published))] + [Request.ClaimTask(userId, 1, None)]
                                       + [Request.UpdateTask(1, Task(points, 0, Published))]);
            1 in b.tasks && |ActiveClaims(b.claims, 1)| == 1 && b.tasks[1].maxClaimants == 0
  {
    var q1, q2 := Request.CreateTask(1, Task(points, 1, Published)), Request.ClaimTask(userId, 1, None);
    OnePlaceTaken(userId, points);
    RunExtend(EmptyBoard(), [q1] + [q2], Request.UpdateTask(1, Task(points, 0, Published)));
    OneMoreActive(map[], 0, Claim(1, userId, Claimed, None, None, None, None, None), 1);
    assert ActiveClaims(map[], 1) == {};
  }

  lemma OnePlaceTaken(userId: nat, points: int)
    ensures Run(EmptyBoard(), [Request.CreateTask(1, Task(points, 1, Published))] + [Request.ClaimTask(userId, 1, None)])
            == Board(map[1 := Task(points, 1, Published)],
                     map[0 := Claim(1, userId, Claimed, None, None, None, None, None)], 1, [], map[1 := 1])
  {
    var q1, q2 := Request.CreateTask(1, Task(points, 1, Published)), Request.ClaimTask(userId, 1, None);
    OneTask(points);
    RunExtend(EmptyBoard(), [q1], q2);
    FirstClaim(Board(map[1 := Task(points, 1, Published)], map[], 0, [], map[1 := 1]), userId);
  }

  lemma OneTask(points: int)
    ensures Run(EmptyBoard(), [Request.CreateTask(1, Task(points, 1, Published))])
            == Board(map[1 := Task(points, 1, Published)], map[], 0, [], map[1 := 1])
  {
    var q := Request.CreateTask(1, Task(points, 1, Published));
    assert [] + [q] == [q];
    RunExtend(EmptyBoard(), [], q);
  }

  lemma FirstClaim(b: Board, userId: nat)
    requires b.claims == map[] && 1 in b.tasks && b.tasks[1].status == Published && b.tasks[1].maxClaimants > 0
    ensures Apply(b, Request.ClaimTask(userId, 1, None))
            == b.(claims := map[b.nextClaim := Claim(1, userId, Claimed, None, None, None, None, None)], nextClaim := b.nextClaim + 1)
  {
    assert ActiveClaims(b.claims, 1) == {};
  }

  lemma RunExtend(b: Board, qs: seq<Request>, q: Request)
    ensures Run(b, qs + [q]) == Apply(Run(b, qs), q)
  {
    assert (qs + [q])[..|qs|] == qs;
  }

  /** Whether the highest limit ever set is still the limit in force. */
  ghost predicate NeverLowered(b: Board, qs: seq<Request>, t: nat)
    decreases |qs|
  {
    qs != [] ==>
      var n := |qs| - 1;
      var x := Run(b, qs[..n]);
      && NeverLowered(b, qs[..n], t)
      && (qs[n].UpdateTask? && qs[n].id == t && t in x.tasks ==> qs[n].task.maxClaimants >= x.tasks[t].maxClaimants)
  }

  lemma {:induction false} UnloweredCapIsLimit(qs: seq<Request>, t: nat)
    requires NeverLowered(EmptyBoard(), qs, t)
    ensures var b := Run(EmptyBoard(), qs);
            (t in b.tasks ==> t in b.caps && b.caps[t] == b.tasks[t].maxClaimants) && (t !in b.caps ==> t !in b.tasks)
    decreases |qs|
  {
    if qs != [] {
      UnloweredCapIsLimit(qs[..|qs| - 1], t);
    }
  }

  /** A task whose limit was never lowered never has more active claims than its limit. */
  lemma ActiveWithinUnloweredLimit(qs: seq<Request>, t: nat)
    requires NeverLowered(EmptyBoard(), qs, t)
    ensures var b := Run(EmptyBoard(), qs);
            ActiveClaims(b.claims, t) != {} ==> t in b.tasks && |ActiveClaims(b.claims, t)| <= b.tasks[t].maxClaimants
  {
    RunKeepsSound(EmptyBoard(), qs);
    UnloweredCapIsLimit(qs, t);
    var b := Run(EmptyBoard(), qs);
    if c :| c in ActiveClaims(b.claims, t) {
      assert b.claims[c].taskId == t;
    }
  }
}
