/** Daily study plans: candidate tasks packed greedily into what is left of the day's budget. */
module StudyPlan {
  import opened Prelude
  import opened Decimal

  datatype Goal = Goal(id: nat, examId: Option<nat>, weeklyBudgetMinutes: nat)

  datatype Mistake = Mistake(id: nat, examId: Option<nat>)

  datatype Candidate = Candidate(goalId: Option<nat>, sourceType: string, sourceKey: string, minutes: nat)

  datatype Status = Planned | Completed | Deferred | Skipped

  datatype PlanItem = PlanItem(
    userId: nat, planDate: int, source: Candidate, status: Status, locked: bool, completedAt: Option<int>)

  datatype Error = NotFound | Locked | DateNotLater | Conflict

  const MISTAKE_LIMIT := 8
  const TAG_LIMIT := 4
  const RESOURCE_LIMIT := 4
  const SMALLEST_SLOT := 15

  // ---------------------------------------------------------------- candidates, cheapest first

  function AtMost<T>(s: seq<T>, n: nat): seq<T> {
    if |s| <= n then s else s[..n]
  }

  function GoalForExam(goals: seq<Goal>, examId: nat, primary: nat): nat {
    if goals == [] then primary
    else if goals[0].examId == Some(examId) then goals[0].id
    else GoalForExam(goals[1..], examId, primary)
  }

  /** Python's `exam_id and next(...)`: a missing or zero exam id is passed through as it is. */
  function MistakeCandidate(m: Mistake, goals: seq<Goal>, primary: nat): Candidate {
    Candidate(if m.examId.Some? && m.examId.value != 0 then Some(GoalForExam(goals, m.examId.value, primary)) else m.examId,
              "mistake", Digits(m.id), 15)
  }

  function Candidates(due: seq<Mistake>, weakTags: seq<string>, resources: seq<nat>, goals: seq<Goal>)
    : (cs: seq<Candidate>)
    requires goals != []
  {
    var primary := goals[0].id;
    var ms, ts, rs := AtMost(due, MISTAKE_LIMIT), AtMost(weakTags, TAG_LIMIT), AtMost(resources, RESOURCE_LIMIT);
    seq(|ms|, i requires 0 <= i < |ms| => MistakeCandidate(ms[i], goals, primary))
    + seq(|ts|, i requires 0 <= i < |ts| => Candidate(Some(primary), "knowledge", ts[i], 25))
    + seq(|rs|, i requires 0 <= i < |rs| => Candidate(Some(primary), "resource", Digits(rs[i]), 30))
  }

  ghost predicate CheapestFirst(cs: seq<Candidate>) {
    forall i, j :: 0 <= i < j < |cs| ==> cs[i].minutes <= cs[j].minutes
  }

  lemma CandidatesAreCheapestFirst(due: seq<Mistake>, weakTags: seq<string>, resources: seq<nat>, goals: seq<Goal>)
    requires goals != []
    ensures CheapestFirst(Candidates(due, weakTags, resources, goals))
  {
  }

  // ---------------------------------------------------------------- greedy packing

  function Cost(cs: seq<Candidate>): nat {
    if cs == [] then 0 else Cost(cs[..|cs| - 1]) + cs[|cs| - 1].minutes
  }

  /** What the loop keeps: each candidate that still fits, in order. */
  function Packed(cs: seq<Candidate>, remaining: nat): seq<Candidate> {
    if cs == [] then []
    else
      var kept := Packed(cs[..|cs| - 1], remaining);
      if Cost(kept) + cs[|cs| - 1].minutes > remaining then kept else kept + [cs[|cs| - 1]]
  }

  ghost predicate LongestAffordablePrefix(cs: seq<Candidate>, remaining: nat, k: nat) {
    k <= |cs| && Cost(cs[..k]) <= remaining && (k < |cs| ==> Cost(cs[..k + 1]) > remaining)
  }

  lemma {:induction false} PackedIsPrefix(cs: seq<Candidate>, remaining: nat)
    requires CheapestFirst(cs)
    ensures var k := |Packed(cs, remaining)|;
            LongestAffordablePrefix(cs, remaining, k) && Packed(cs, remaining) == cs[..k]
  {
    if cs != [] {
      var n := |cs| - 1;
      PackedIsPrefix(cs[..n], remaining);
      assert cs == cs[..n] + [cs[n]];
      PrefixExtends(cs[..n], cs[n], remaining, |Packed(cs[..n], remaining)|);
    }
  }

  /** One more candidate, at least as dear as all before it. */
  lemma PrefixExtends(front: seq<Candidate>, last: Candidate, remaining: nat, k: nat)
    requires forall i :: 0 <= i < |front| ==> front[i].minutes <= last.minutes
    requires LongestAffordablePrefix(front, remaining, k) && Packed(front, remaining) == front[..k]
    ensures var cs := front + [last];
            LongestAffordablePrefix(cs, remaining, |Packed(cs, remaining)|)
            && Packed(cs, remaining) == cs[..|Packed(cs, remaining)|]
  {
    if k == |front| {
      assert front[..k] == front;
      PrefixMayGrow(front, last, remaining);
    } else {
      CostOneMore(front, k);
      PrefixStays(front, last, remaining, k);
    }
  }

  lemma CostAppend(cs: seq<Candidate>, c: Candidate)
    ensures Cost(cs + [c]) == Cost(cs) + c.minutes
  {
    assert (cs + [c])[..|cs|] == cs;
  }

  lemma PackedAppend(cs: seq<Candidate>, c: Candidate, remaining: nat)
    ensures var kept := Packed(cs, remaining);
            Packed(cs + [c], remaining) == if Cost(kept) + c.minutes > remaining then kept else kept + [c]
  {
    assert (cs + [c])[..|cs|] == cs;
  }

  /** While everything fits, the next candidate joins if it fits too. */
  lemma PrefixMayGrow(front: seq<Candidate>, last: Candidate, remaining: nat)
    requires Packed(front, remaining) == front && Cost(front) <= remaining
    ensures var cs := front + [last];
            LongestAffordablePrefix(cs, remaining, |Packed(cs, remaining)|)
            && Packed(cs, remaining) == cs[..|Packed(cs, remaining)|]
  {
    var cs := front + [last];
    PackedAppend(front, last, remaining);
    CostAppend(front, last);
    assert cs[..|front|] == front && cs[..|front| + 1] == cs;
  }

  /** Once a candidate did not fit, no later one does: it costs at least as much. */
  lemma PrefixStays(front: seq<Candidate>, last: Candidate, remaining: nat, k: nat)
    requires k < |front| && Packed(front, remaining) == front[..k] && Cost(front[..k]) <= remaining
    requires Cost(front[..k]) + front[k].minutes > remaining && front[k].minutes <= last.minutes
    ensures Packed(front + [last], remaining) == front[..k] == (front + [last])[..k]
    ensures Cost((front + [last])[..k + 1]) > remaining
  {
    PackedAppend(front, last, remaining);
    CostAppend(front[..k], front[k]);
    assert (front + [last])[..k + 1] == front[..k] + [front[k]];
  }

  lemma CostOneMore(cs: seq<Candidate>, k: nat)
    requires k < |cs|
    ensures Cost(cs[..k + 1]) == Cost(cs[..k]) + cs[k].minutes
  {
    CostAppend(cs[..k], cs[k]);
    assert cs[..k + 1] == cs[..k] + [cs[k]];
  }

  /** Some of the candidates, by position. */
  function Picked(cs: seq<Candidate>, at: seq<nat>): (r: seq<Candidate>)
    requires forall k :: 0 <= k < |at| ==> at[k] < |cs|
    ensures |r| == |at|
  {
    seq(|at|, k requires 0 <= k < |at| => cs[at[k]])
  }

  ghost predicate Increasing(at: seq<nat>) {
    forall j, k :: 0 <= j < k < |at| ==> at[j] < at[k]
  }

  lemma {:induction false} NotBeforeItsRank(at: seq<nat>, k: nat)
    requires Increasing(at) && k < |at|
    ensures k <= at[k]
  {
    if k > 0 {
      NotBeforeItsRank(at, k - 1);
    }
  }

  /** Any choice of m candidates costs at least as much as the first m. */
  lemma {:induction false} FirstOnesAreCheapest(cs: seq<Candidate>, at: seq<nat>)
    requires CheapestFirst(cs) && Increasing(at) && forall k :: 0 <= k < |at| ==> at[k] < |cs|
    ensures |at| <= |cs| && Cost(cs[..|at|]) <= Cost(Picked(cs, at))
    decreases |at|
  {
    if at != [] {
      var n := |at| - 1;
      FirstOnesAreCheapest(cs, at[..n]);
      NotBeforeItsRank(at, n);
      CostOneMore(cs, n);
      assert Picked(cs, at)[..n] == Picked(cs, at[..n]);
      assert cs[n].minutes <= cs[at[n]].minutes;
    }
  }

  lemma {:induction false} PrefixCostGrows(cs: seq<Candidate>, i: nat, j: nat)
    requires i <= j <= |cs|
    ensures Cost(cs[..i]) <= Cost(cs[..j])
  {
    if i < j {
      PrefixCostGrows(cs, i, j - 1);
      CostOneMore(cs, j - 1);
    }
  }

  /** No affordable choice of candidates, in any combination, holds more of them than the plan. */
  lemma PackedIsOptimal(cs: seq<Candidate>, remaining: nat, at: seq<nat>)
    requires CheapestFirst(cs) && Increasing(at) && forall k :: 0 <= k < |at| ==> at[k] < |cs|
    requires Cost(Picked(cs, at)) <= remaining
    ensures |at| <= |Packed(cs, remaining)|
  {
    PackedIsPrefix(cs, remaining);
    FirstOnesAreCheapest(cs, at);
    var k := |Packed(cs, remaining)|;
    if |at| > k {
      PrefixCostGrows(cs, k + 1, |at|);
    }
  }

  // ---------------------------------------------------------------- the budget

  function WeeklyBudget(goals: seq<Goal>): nat {
    if goals == [] then 0 else goals[0].weeklyBudgetMinutes + WeeklyBudget(goals[1..])
  }

  function Remaining(goals: seq<Goal>, focusedSeconds: nat): nat {
    var daily, focused := WeeklyBudget(goals) / 7, focusedSeconds / 60;
    if daily <= focused then 0 else daily - focused
  }

  /** What a day's generation adds. */
  function Generated(goals: seq<Goal>, focusedSeconds: nat, due: seq<Mistake>, weakTags: seq<string>, resources: seq<nat>)
    : seq<Candidate>
  {
    if goals == [] || Remaining(goals, focusedSeconds) < SMALLEST_SLOT then []
    else Packed(Candidates(due, weakTags, resources, goals), Remaining(goals, focusedSeconds))
  }

  /** Seven days like today stay within the weekly budgets exactly when the focus time already spent
      today does: generation itself never breaks the budget. */
  lemma PlanWithinBudgetIff(
      goals: seq<Goal>, focusedSeconds: nat, due: seq<Mistake>, weakTags: seq<string>, resources: seq<nat>)
    ensures 7 * (Cost(Generated(goals, focusedSeconds, due, weakTags, resources)) + focusedSeconds / 60) <= WeeklyBudget(goals)
            <==> 7 * (focusedSeconds / 60) <= WeeklyBudget(goals)
  {
    var plan := Generated(goals, focusedSeconds, due, weakTags, resources);
    if plan != [] {
      var cs := Candidates(due, weakTags, resources, goals);
      CandidatesAreCheapestFirst(due, weakTags, resources, goals);
      PackedIsPrefix(cs, Remaining(goals, focusedSeconds));
    }
  }

  /** The plan stops only where the budget does: with the next candidate, seven such days would exceed it. */
  lemma PlanIsMaximal(goals: seq<Goal>, focusedSeconds: nat, due: seq<Mistake>, weakTags: seq<string>, resources: seq<nat>)
    requires goals != []
    requires |Generated(goals, focusedSeconds, due, weakTags, resources)| < |Candidates(due, weakTags, resources, goals)|
    ensures var plan, cs := Generated(goals, focusedSeconds, due, weakTags, resources), Candidates(due, weakTags, resources, goals);
            && plan == cs[..|plan|]
            && 7 * (Cost(plan) + cs[|plan|].minutes + focusedSeconds / 60) > WeeklyBudget(goals)
  {
    var cs := Candidates(due, weakTags, resources, goals);
    var plan := Generated(goals, focusedSeconds, due, weakTags, resources);
    CandidatesAreCheapestFirst(due, weakTags, resources, goals);
    if Remaining(goals, focusedSeconds) >= SMALLEST_SLOT {
      PackedIsPrefix(cs, Remaining(goals, focusedSeconds));
      CostOneMore(cs, |plan|);
    }
  }

  /** Every goal of the user contributes its weekly minutes once. */
  lemma {:induction false} WeeklyBudgetIsSum(goals: seq<Goal>, more: seq<Goal>, g: Goal)
    ensures WeeklyBudget([]) == 0 && WeeklyBudget([g]) == g.weeklyBudgetMinutes
    ensures WeeklyBudget(goals + more) == WeeklyBudget(goals) + WeeklyBudget(more)
  {
    assert [g][1..] == [];
    if goals == [] {
      assert goals + more == more;
    } else {
      WeeklyBudgetIsSum(goals[1..], more, g);
      assert (goals + more)[1..] == goals[1..] + more;
    }
  }

  /** The candidates in order: at most eight due mistakes of 15 minutes, four weak tags of 25 and four resources of
      30. A mistake belongs to the first goal of its exam, to the first goal of all if none has that exam, and
      carries a missing or zero exam through. */
  lemma CandidatesAre(due: seq<Mistake>, weakTags: seq<string>, resources: seq<nat>, goals: seq<Goal>, k: nat)
    requires goals != []
    ensures var cs := Candidates(due, weakTags, resources, goals);
            var m, t := if |due| < 8 then |due| else 8, if |weakTags| < 4 then |weakTags| else 4;
            && |cs| == m + t + (if |resources| < 4 then |resources| else 4)
            && (k < m ==> cs[k].sourceType == "mistake" && cs[k].sourceKey == Digits(due[k].id) && cs[k].minutes == 15
                          && (due[k].examId == None || due[k].examId == Some(0) ==> cs[k].goalId == due[k].examId)
                          && (due[k].examId.Some? && due[k].examId.value != 0 ==>
                                cs[k].goalId == Some(GoalForExam(goals, due[k].examId.value, goals[0].id))))
            && (m <= k < m + t ==> cs[k] == Candidate(Some(goals[0].id), "knowledge", weakTags[k - m], 25))
            && (m + t <= k < |cs| ==> cs[k] == Candidate(Some(goals[0].id), "resource", Digits(resources[k - m - t]), 30))
  {
  }

  lemma {:induction false} GoalForExamIs(goals: seq<Goal>, examId: nat, primary: nat, i: nat)
    requires i < |goals| ==> goals[i].examId == Some(examId)
    requires i <= |goals| && forall j :: 0 <= j < i ==> goals[j].examId != Some(examId)
    ensures GoalForExam(goals, examId, primary) == if i < |goals| then goals[i].id else primary
  {
    if i > 0 {
      GoalForExamIs(goals[1..], examId, primary, i - 1);
    }
  }

  /** Two minutes of focus on a budget of seven a week already exceed it, with an empty plan. */
  lemma FocusAloneCanExceed(goal: nat)
    ensures var goals := [Goal(goal, None, 7)];
            Generated(goals, 120, [], [], []) == [] && 7 * (120 / 60) > WeeklyBudget(goals)
  {
    assert [Goal(goal, None, 7)][1..] == [];
  }

  // ---------------------------------------------------------------- plan rows

  predicate SameSlot(a: PlanItem, b: PlanItem) {
    a.userId == b.userId && a.planDate == b.planDate
    && a.source.sourceType == b.source.sourceType && a.source.sourceKey == b.source.sourceKey
  }

  /** One row per user, day and source. */
  ghost predicate UniqueSlots(items: seq<PlanItem>) {
    forall i, j :: 0 <= i < j < |items| ==> !SameSlot(items[i], items[j])
  }

  function Rows(userId: nat, planDate: int, cs: seq<Candidate>): (r: seq<PlanItem>)
    ensures |r| == |cs|
  {
    seq(|cs|, i requires 0 <= i < |cs| => PlanItem(userId, planDate, cs[i], Planned, false, None))
  }

  ghost predicate DistinctSources(cs: seq<Candidate>) {
    forall i, j :: 0 <= i < j < |cs| ==> (cs[i].sourceType, cs[i].sourceKey) != (cs[j].sourceType, cs[j].sourceKey)
  }

  lemma CandidatesAreDistinct(due: seq<Mistake>, weakTags: seq<string>, resources: seq<nat>, goals: seq<Goal>)
    requires goals != [] && Distinct(weakTags) && Distinct(resources)
    requires forall i, j :: 0 <= i < j < |due| ==> due[i].id != due[j].id
    ensures DistinctSources(Candidates(due, weakTags, resources, goals))
  {
    var cs := Candidates(due, weakTags, resources, goals);
    var m, t := |AtMost(due, MISTAKE_LIMIT)|, |AtMost(weakTags, TAG_LIMIT)|;
    assert "mistake"[0] == 'm' && "knowledge"[0] == 'k' && "resource"[0] == 'r';
    forall i, j | 0 <= i < j < |cs|
      ensures (cs[i].sourceType, cs[i].sourceKey) != (cs[j].sourceType, cs[j].sourceKey)
    {
      if j < m {
        if Digits(due[i].id) == Digits(due[j].id) { DigitsInjective(due[i].id, due[j].id); }
      } else if i >= m + t {
        var a, b := resources[i - m - t], resources[j - m - t];
        if Digits(a) == Digits(b) { DigitsInjective(a, b); }
      }
    }
  }

  function AfterPacking(before: seq<PlanItem>, userId: nat, planDate: int, cs: seq<Candidate>, remaining: nat): seq<PlanItem> {
    before + Rows(userId, planDate, Packed(cs, remaining))
  }

  lemma PackedStep(before: seq<PlanItem>, userId: nat, planDate: int, cs: seq<Candidate>, remaining: nat, i: nat)
    requires i < |cs|
    ensures var kept, next := Packed(cs[..i], remaining), Packed(cs[..i + 1], remaining);
            if Cost(kept) + cs[i].minutes > remaining then next == kept
            else
              && next == kept + [cs[i]] && Cost(next) == Cost(kept) + cs[i].minutes
              && AfterPacking(before, userId, planDate, cs[..i + 1], remaining)
                 == AfterPacking(before, userId, planDate, cs[..i], remaining)
                    + [PlanItem(userId, planDate, cs[i], Planned, false, None)]
  {
    var kept := Packed(cs[..i], remaining);
    assert cs[..i + 1] == cs[..i] + [cs[i]];
    PackedAppend(cs[..i], cs[i], remaining);
    CostAppend(kept, cs[i]);
    RowsAppend(before, userId, planDate, kept, cs[i]);
  }

  lemma RowsAppend(before: seq<PlanItem>, userId: nat, planDate: int, kept: seq<Candidate>, c: Candidate)
    ensures before + Rows(userId, planDate, kept + [c])
            == before + Rows(userId, planDate, kept) + [PlanItem(userId, planDate, c, Planned, false, None)]
  {
  }

  lemma RowsKeepSlotsUnique(items: seq<PlanItem>, userId: nat, planDate: int, cs: seq<Candidate>)
    requires UniqueSlots(items) && DistinctSources(cs)
    requires forall i :: 0 <= i < |items| ==> !(items[i].userId == userId && items[i].planDate == planDate)
    ensures UniqueSlots(items + Rows(userId, planDate, cs))
  {
    var all, n := items + Rows(userId, planDate, cs), |items|;
    forall i, j | 0 <= i < j < |all|
      ensures !SameSlot(all[i], all[j])
    {
      if n <= i {
        assert (cs[i - n].sourceType, cs[i - n].sourceKey) != (cs[j - n].sourceType, cs[j - n].sourceKey);
      }
    }
  }

  function Changed(item: PlanItem, status: Option<Status>, locked: Option<bool>, deferTo: Option<int>, now: int): PlanItem {
    item.(status := if deferTo.Some? then Planned else if status.Some? then status.value else item.status,
          completedAt := if status.Some? then (if status.value == Completed then Some(now) else None) else item.completedAt,
          locked := if locked.Some? then locked.value else item.locked,
          planDate := if deferTo.Some? then deferTo.value else item.planDate)
  }

  /** The completion time is set exactly on completed items. */
  predicate CompletionMatches(item: PlanItem) {
    item.completedAt.Some? <==> item.status == Completed
  }

  /** An update keeps the completion time in step with the status exactly when it does not defer an item
      that is, or is being marked, completed: deferral resets the status but not the time. */
  lemma UpdateKeepsCompletionIff(
      item: PlanItem, status: Option<Status>, locked: Option<bool>, deferTo: Option<int>, now: int)
    requires CompletionMatches(item)
    ensures CompletionMatches(Changed(item, status, locked, deferTo, now))
            <==> deferTo.None? || (if status.Some? then status.value else item.status) != Completed
  {
  }

  /** A completed item that is deferred to a later day is planned again, with its completion time left on it. */
  lemma DeferredKeepsCompletionTime(userId: nat, source: Candidate, day: int, later: int, done: int, now: int)
    requires later > day
    ensures var item := Changed(PlanItem(userId, day, source, Completed, false, Some(done)), None, None, Some(later), now);
            item.status == Planned && item.planDate == later && item.completedAt == Some(done)
            && !CompletionMatches(item)
  {
  }

  /** What an update sets: the status asked for with its completion time, unless a deferral makes the item planned
      again; the lock; and the day of the deferral. */
  lemma UpdatedItem(item: PlanItem, status: Option<Status>, locked: Option<bool>, deferTo: Option<int>, now: int)
    ensures var z := Changed(item, status, locked, deferTo, now);
            && z.userId == item.userId && z.source == item.source
            && (deferTo.None? ==> z.planDate == item.planDate && (status == None ==> z.status == item.status)
                                  && forall v :: status == Some(v) ==> z.status == v)
            && (forall d :: deferTo == Some(d) ==> z.planDate == d && z.status == Planned)
            && (status == None ==> z.completedAt == item.completedAt)
            && (status == Some(Completed) ==> z.completedAt == Some(now))
            && (status.Some? && status != Some(Completed) ==> z.completedAt == None)
            && (locked == None ==> z.locked == item.locked) && (forall l :: locked == Some(l) ==> z.locked == l)
  {
  }

  class PlanService {
    var items: seq<PlanItem>

    constructor ()
      ensures items == []
    {
      items := [];
    }

    /** Generates a day's plan once; an existing plan is left alone. */
    method GenerateLearningPlan(
        userId: nat, planDate: int, goals: seq<Goal>, focusedSeconds: nat,
        due: seq<Mistake>, weakTags: seq<string>, resources: seq<nat>)
      requires UniqueSlots(items) && Distinct(weakTags) && Distinct(resources)
      requires forall i, j :: 0 <= i < j < |due| ==> due[i].id != due[j].id
      modifies this
      ensures UniqueSlots(items)
      ensures (exists i :: 0 <= i < |old(items)| && old(items)[i].userId == userId && old(items)[i].planDate == planDate)
              ==> items == old(items)
      ensures (forall i :: 0 <= i < |old(items)| ==> !(old(items)[i].userId == userId && old(items)[i].planDate == planDate))
              ==> items == old(items) + Rows(userId, planDate, Generated(goals, focusedSeconds, due, weakTags, resources))
    {
      ghost var before := items;
      var existing, i := false, 0;
      while i < |items|
        invariant 0 <= i <= |items| && items == before
        invariant existing <==> exists j :: 0 <= j < i && items[j].userId == userId && items[j].planDate == planDate
      {
        existing := existing || (items[i].userId == userId && items[i].planDate == planDate);
        i := i + 1;
      }
      if existing || goals == [] {
        return;
      }
      var remaining := Remaining(goals, focusedSeconds);
      if remaining < SMALLEST_SLOT {
        return;
      }
      var candidates := Candidates(due, weakTags, resources, goals);
      CandidatesAreDistinct(due, weakTags, resources, goals);
      CandidatesAreCheapestFirst(due, weakTags, resources, goals);
      Pack(userId, planDate, candidates, remaining);
      PackedIsPrefix(candidates, remaining);
      RowsKeepSlotsUnique(before, userId, planDate, Packed(candidates, remaining));
    }

    /** The packing loop: a candidate that does not fit is skipped, the rest are still tried. */
    method Pack(userId: nat, planDate: int, candidates: seq<Candidate>, remaining: nat)
      modifies this
      ensures items == old(items) + Rows(userId, planDate, Packed(candidates, remaining))
    {
      ghost var before := items;
      var consumed, i := 0, 0;
      while i < |candidates|
        invariant 0 <= i <= |candidates|
        invariant consumed == Cost(Packed(candidates[..i], remaining))
        invariant items == AfterPacking(before, userId, planDate, candidates[..i], remaining)
      {
        PackedStep(before, userId, planDate, candidates, remaining, i);
        var payload := candidates[i];
        i := i + 1;
        if consumed + payload.minutes > remaining {
          continue;
        }
        items := items + [PlanItem(userId, planDate, payload, Planned, false, None)];
        consumed := consumed + payload.minutes;
      }
      assert candidates[..i] == candidates;
    }

    /** Changes status, lock or date of one item. */
    method UpdateLearningPlanItem(
        userId: nat, id: nat, status: Option<Status>, locked: Option<bool>, deferTo: Option<int>, now: int)
      returns (r: Result<PlanItem, Error>)
      requires UniqueSlots(items)
      modifies this
      ensures UniqueSlots(items)
      ensures r.Ok? ==> id < |old(items)| && old(items)[id].userId == userId
                        && r.value == Changed(old(items)[id], status, locked, deferTo, now)
                        && items == old(items)[id := r.value]
      ensures r.Err? ==> items == old(items)
      ensures r == Err(NotFound) <==> id >= |old(items)| || old(items)[id].userId != userId
      ensures r.Ok? <==> id < |old(items)| && old(items)[id].userId == userId
                         && (deferTo.Some? ==>
                               && !old(items)[id].locked && deferTo.value > old(items)[id].planDate
                               && forall j :: 0 <= j < |old(items)| && j != id && old(items)[j].userId == userId
                                              && old(items)[j].planDate == deferTo.value ==>
                                    old(items)[j].source.sourceType != old(items)[id].source.sourceType
                                    || old(items)[j].source.sourceKey != old(items)[id].source.sourceKey)
      ensures r != Err(NotFound) ==>
                && (r == Err(Locked) <==> deferTo.Some? && old(items)[id].locked)
                && (r == Err(DateNotLater) <==>
                      deferTo.Some? && !old(items)[id].locked && deferTo.value <= old(items)[id].planDate)
    {
      if id >= |items| || items[id].userId != userId {
        return Err(NotFound);
      }
      var item := items[id];
      if item.locked && deferTo.Some? {
        return Err(Locked);
      }
      if status.Some? {
        item := item.(status := status.value, completedAt := if status.value == Completed then Some(now) else None);
      }
      if locked.Some? {
        item := item.(locked := locked.value);
      }
      if deferTo.Some? {
        if deferTo.value <= item.planDate {
          return Err(DateNotLater);
        }
        var conflict, j := false, 0;
        while j < |items|
          invariant 0 <= j <= |items| && items == old(items)
          invariant conflict <==> exists m :: 0 <= m < j && m != id && SameSlot(items[m], items[id].(planDate := deferTo.value))
        {
          conflict := conflict || (j != id && SameSlot(items[j], item.(planDate := deferTo.value)));
          j := j + 1;
        }
        if conflict {
          return Err(Conflict);
        }
        item := item.(planDate := deferTo.value, status := Planned);
      }
      items := items[id := item];
      r := Ok(item);
    }
  }
}
