/** The task service as it runs: its queries as loops, its operations tied to the board's transitions. */
module TaskService {
  import opened Prelude
  import opened PointsLedger
  import opened TaskBoard

  class TaskService {
    var tasks: map<nat, Task>
    var claims: map<nat, Claim>
    var nextClaim: nat
    const ledger: PointsLedger
    ghost var caps: map<nat, int>

    ghost function State(): Board
      reads this, ledger
    {
      Board(tasks, claims, nextClaim, ledger.txs, caps)
    }

    ghost predicate Valid()
      reads this, ledger
    {
      Keyed(State()) && ledger.Valid()
    }

    constructor ()
      ensures Valid() && fresh(ledger) && State() == EmptyBoard()
    {
      tasks, claims, nextClaim, caps := map[], map[], 0, map[];
      ledger := new PointsLedger();
    }

    method GetClaim(taskId: nat, userId: nat) returns (found: Option<nat>)
      requires Keyed(State())
      ensures found.None? <==> !HasClaim(claims, taskId, userId)
      ensures found.Some? ==> found.value in claims && claims[found.value].taskId == taskId
                              && claims[found.value].userId == userId
    {
      var c := 0;
      while c < nextClaim
        invariant 0 <= c <= nextClaim
        invariant forall d :: d in claims && d < c ==> !(claims[d].taskId == taskId && claims[d].userId == userId)
      {
        if c in claims && claims[c].taskId == taskId && claims[c].userId == userId {
          return Some(c);
        }
        c := c + 1;
      }
      found := None;
    }

    method CountActiveClaims(taskId: nat) returns (count: nat)
      requires Keyed(State())
      ensures count == |ActiveClaims(claims, taskId)|
    {
      count := 0;
      ghost var seen: set<nat> := {};
      var c := 0;
      while c < nextClaim
        invariant 0 <= c <= nextClaim && count == |seen|
        invariant seen == set d | d in ActiveClaims(claims, taskId) && d < c
      {
        if c in claims && claims[c].taskId == taskId && Active(claims[c]) {
          count, seen := count + 1, seen + {c};
        }
        c := c + 1;
      }
      assert seen == ActiveClaims(claims, taskId);
    }

    /** The batched count agrees with the single one; a task without active claims has no entry. */
    method CountActiveClaimsByIds(ids: set<nat>) returns (counts: map<nat, nat>)
      requires Keyed(State())
      ensures forall t: nat :: t in counts <==> t in ids && ActiveClaims(claims, t) != {}
      ensures forall t :: t in counts ==> counts[t] == |ActiveClaims(claims, t)|
    {
      counts := map[];
      var c := 0;
      while c < nextClaim
        invariant 0 <= c <= nextClaim
        invariant forall t :: t in counts <==> t in ids && |UpTo(claims, c, t)| > 0
        invariant forall t :: t in counts ==> counts[t] == |UpTo(claims, c, t)|
      {
        forall t: nat
          ensures |UpTo(claims, c + 1, t)|
                  == |UpTo(claims, c, t)| + if c in claims && claims[c].taskId == t && Active(claims[c]) then 1 else 0
        {
          UpToStep(claims, c, t);
        }
        if c in claims && claims[c].taskId in ids && Active(claims[c]) {
          var t := claims[c].taskId;
          counts := counts[t := (if t in counts then counts[t] else 0) + 1];
        }
        c := c + 1;
      }
      forall t: nat
        ensures UpTo(claims, nextClaim, t) == ActiveClaims(claims, t)
        ensures |UpTo(claims, nextClaim, t)| > 0 <==> ActiveClaims(claims, t) != {}
      {
        assert UpTo(claims, nextClaim, t) == ActiveClaims(claims, t);
      }
    }

    /** Creates a task under a fresh id. */
    method CreateTask(id: nat, task: Task)
      requires Valid() && id !in tasks && id !in caps
      modifies this
      ensures Valid() && State() == Apply(old(State()), Request.CreateTask(id, task))
    {
      tasks := tasks[id := task];
      caps := Raised(caps, id, task.maxClaimants);
    }

    /** Replaces a task's settings; publishing and closing are the cases that change only its status. */
    method UpdateTask(id: nat, task: Task) returns (problem: Option<Problem>)
      requires Valid()
      modifies this
      ensures Valid() && State() == Apply(old(State()), Request.UpdateTask(id, task))
      ensures problem == if id in old(tasks) then None else Some(NotFound)
    {
      if id !in tasks {
        return Some(NotFound);
      }
      tasks := tasks[id := task];
      caps := Raised(caps, id, task.maxClaimants);
      problem := None;
    }

    /** Deletes a task; the database refuses while claims refer to it. */
    method DeleteTask(id: nat) returns (problem: Option<Problem>)
      requires Valid()
      modifies this
      ensures Valid() && State() == Apply(old(State()), Request.DeleteTask(id))
      ensures problem.None? <==> id in old(tasks) && !Referenced(old(claims), id)
    {
      if id !in tasks {
        return Some(NotFound);
      }
      if exists c :: c in claims && claims[c].taskId == id {
        return Some(StillReferenced);
      }
      tasks := tasks - {id};
      problem := None;
    }

    method ClaimTask(userId: nat, id: nat, note: Option<string>) returns (r: Result<nat, Problem>)
      requires Valid()
      modifies this
      ensures Valid() && State() == Apply(old(State()), Request.ClaimTask(userId, id, note))
      ensures r.Ok? <==> CanClaim(old(State()), userId, id)
      ensures r.Ok? ==> r.value == old(nextClaim)
      ensures r == Err(NotFound) <==> id !in old(tasks)
      ensures r == Err(NotOpen) <==> id in old(tasks) && !old(tasks)[id].status.Published?
      ensures r == Err(AlreadyClaimed) <==> id in old(tasks) && old(tasks)[id].status.Published? && HasClaim(old(claims), id, userId)
    {
      if id !in tasks {
        return Err(NotFound);
      }
      if !tasks[id].status.Published? {
        return Err(NotOpen);
      }
      var existing := GetClaim(id, userId);
      if existing.Some? {
        return Err(AlreadyClaimed);
      }
      var active := CountActiveClaims(id);
      if active >= tasks[id].maxClaimants {
        return Err(Full);
      }
      claims := claims[nextClaim := Claim(id, userId, Claimed, note, None, None, None, None)];
      nextClaim := nextClaim + 1;
      r := Ok(nextClaim - 1);
    }

    method CancelClaim(userId: nat, claimId: nat) returns (problem: Option<Problem>)
      requires Valid()
      modifies this
      ensures Valid() && State() == Apply(old(State()), Request.CancelClaim(userId, claimId))
      ensures problem.None? <==> CanCancel(old(State()), userId, claimId)
    {
      if claimId !in claims || claims[claimId].userId != userId {
        return Some(NotFound);
      }
      if !claims[claimId].status.Claimed? {
        return Some(WrongStatus);
      }
      claims := claims - {claimId};
      problem := None;
    }

    /** The same cancellation, addressed by task. */
    method CancelTaskClaim(userId: nat, id: nat) returns (problem: Option<Problem>)
      requires Valid()
      modifies this
      ensures Valid() && State() == Apply(old(State()), Request.CancelTaskClaim(userId, id))
      ensures problem == Some(NotFound) <==> !HasClaim(old(claims), id, userId)
    {
      var found := GetClaim(id, userId);
      if found.None? {
        assert claims - {} == claims;
        assert (set c | c in claims && claims[c].taskId == id && CanCancel(State(), userId, c)) == {};
        return Some(NotFound);
      }
      ghost var gone := set c | c in claims && claims[c].taskId == id && CanCancel(State(), userId, c);
      if !claims[found.value].status.Claimed? {
        assert gone == {};
        return Some(WrongStatus);
      }
      assert gone == {found.value};
      claims := claims - {found.value};
      problem := None;
    }

    method SubmitClaim(userId: nat, claimId: nat, url: Option<string>, now: int) returns (problem: Option<Problem>)
      requires Valid()
      modifies this
      ensures Valid() && State() == Apply(old(State()), Request.SubmitClaim(userId, claimId, url, now))
      ensures problem.None? <==> CanCancel(old(State()), userId, claimId)
    {
      if claimId !in claims || claims[claimId].userId != userId {
        return Some(NotFound);
      }
      var claim := claims[claimId];
      if !claim.status.Claimed? {
        return Some(WrongStatus);
      }
      claim := claim.(status := Submitted, completedAt := Some(now));
      if url.Some? && url.value != "" {
        claim := claim.(submissionUrl := url);
      }
      claims := claims[claimId := claim];
      problem := None;
    }

    /** Approves, paying its points in the same transaction, or rejects. */
    method ReviewClaim(adminId: nat, claimId: nat, approved: bool, note: Option<string>, now: int)
      returns (problem: Option<Problem>)
      requires Valid() && NotBefore(ledger.txs, now)
      modifies this, ledger
      ensures Valid() && State() == Apply(old(State()), Request.ReviewClaim(adminId, claimId, approved, note, now))
      ensures problem.None? <==> CanReview(old(State()), claimId, approved)
    {
      if claimId !in claims {
        return Some(NotFound);
      }
      var claim := claims[claimId];
      if !Active(claim) {
        return Some(WrongStatus);
      }
      if approved {
        if claim.taskId !in tasks {
          return Some(NotFound);
        }
        var paid := ledger.AddPoints(claim.userId, tasks[claim.taskId].points, "task", Some(claim.taskId), now);
        if paid.Err? {
          return Some(NotPositivePoints);
        }
        claims := claims[claimId := claim.(status := Approved, reviewedBy := Some(adminId), reviewNote := note)];
      } else {
        claims := claims[claimId := claim.(status := Rejected, reviewedBy := Some(adminId), reviewNote := note)];
      }
      problem := None;
    }
  }

  ghost function UpTo(claims: map<nat, Claim>, bound: nat, taskId: nat): set<nat> {
    set d: nat | d in ActiveClaims(claims, taskId) && d < bound
  }

  lemma UpToStep(claims: map<nat, Claim>, c: nat, t: nat)
    ensures |UpTo(claims, c + 1, t)|
            == |UpTo(claims, c, t)| + if c in claims && claims[c].taskId == t && Active(claims[c]) then 1 else 0
  {
    if c in claims && claims[c].taskId == t && Active(claims[c]) {
      assert UpTo(claims, c + 1, t) == UpTo(claims, c, t) + {c};
    } else {
      assert UpTo(claims, c + 1, t) == UpTo(claims, c, t);
    }
  }
}
