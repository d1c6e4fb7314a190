/** The suggestion inbox: idempotent creation, a small status machine, and per-user and global sweeps. */
module Inbox {
  import opened Prelude

  datatype Status = Pending | Accepted | Dismissed | Snoozed | Expired

  datatype Item = Item(
    userId: nat, key: string, kind: string, source: string, confidence: Option<real>, status: Status,
    snoozedUntil: Option<int>, expiresAt: Option<int>, resolvedAt: Option<int>, createdAt: int, updatedAt: int)

  datatype Error = InvalidKind | InvalidSource | InvalidConfidence | UnknownAction | NotFound | NotOwner | NotPending

  const KINDS := {"review_due", "resource_recommend", "goal_nudge", "community_digest", "system_hint"}
  const SOURCES := {"auxilio", "exam", "community", "github", "scheduler"}
  const SNOOZE_CAP_MINUTES := 60 * 24 * 7
  const DEFAULT_SNOOZE_MINUTES := 60
  const MINUTE := 60

  // ---------------------------------------------------------------- one row

  /** `snoozed_until` is set exactly on snoozed rows, `resolved_at` exactly on decided ones. */
  predicate Lawful(i: Item) {
    && (i.snoozedUntil.Some? <==> i.status.Snoozed?)
    && (i.resolvedAt.Some? <==> i.status.Accepted? || i.status.Dismissed?)
  }

  /** Whose rows a bulk update ranges over: one user's, or everybody's. */
  predicate InScope(i: Item, scope: Option<nat>) {
    scope == None || scope == Some(i.userId)
  }

  predicate SnoozeDue(i: Item, now: int) {
    i.status.Snoozed? && i.snoozedUntil.Some? && i.snoozedUntil.value <= now
  }

  predicate Stale(i: Item, now: int) {
    i.status.Pending? && i.expiresAt.Some? && i.expiresAt.value <= now
  }

  function Promote(i: Item, scope: Option<nat>, now: int): Item {
    if InScope(i, scope) && SnoozeDue(i, now) then i.(status := Pending, snoozedUntil := None, updatedAt := now) else i
  }

  function Expire(i: Item, scope: Option<nat>, now: int): Item {
    if InScope(i, scope) && Stale(i, now) then i.(status := Expired, updatedAt := now) else i
  }

  function Sweep(i: Item, scope: Option<nat>, now: int): Item {
    Expire(Promote(i, scope, now), scope, now)
  }

  /** A decision by the owner; the column refreshes its update time on every write. */
  function Acted(i: Item, action: string, snoozeMinutes: Option<int>, now: int): Item {
    if action == "accept" then i.(status := Accepted, resolvedAt := Some(now), updatedAt := now)
    else if action == "dismiss" then i.(status := Dismissed, resolvedAt := Some(now), updatedAt := now)
    else i.(status := Snoozed, resolvedAt := None, snoozedUntil := Some(now + SnoozeMinutes(snoozeMinutes) * MINUTE),
            updatedAt := now)
  }

  function SnoozeMinutes(requested: Option<int>): int {
    var minutes := if requested.Some? && requested.value != 0 then requested.value else DEFAULT_SNOOZE_MINUTES;
    if minutes <= SNOOZE_CAP_MINUTES then minutes else SNOOZE_CAP_MINUTES
  }

  predicate KnownAction(action: string) {
    action == "accept" || action == "dismiss" || action == "snooze"
  }

  /** What each action makes of a pending row. A snooze lasts the minutes asked for, an hour when none or zero are,
      and at most a week. */
  lemma ActedRow(i: Item, minutes: Option<int>, now: int)
    ensures Acted(i, "accept", minutes, now) == i.(status := Accepted, resolvedAt := Some(now), updatedAt := now)
    ensures Acted(i, "dismiss", minutes, now) == i.(status := Dismissed, resolvedAt := Some(now), updatedAt := now)
    ensures var asked := if minutes == None || minutes == Some(0) then 60 else minutes.value;
            Acted(i, "snooze", minutes, now)
            == i.(status := Snoozed, resolvedAt := None, updatedAt := now,
                  snoozedUntil := Some(now + 60 * if asked < 10080 then asked else 10080))
  {
    assert "accept"[0] == 'a' && "dismiss"[0] == 'd' && "snooze"[0] == 's';
  }

  /** What a sweep makes of a row: in scope, a pending row past its expiry expires, also if it was due to wake; a
      snoozed row due to wake becomes pending; nothing else changes. */
  lemma SweptRow(i: Item, scope: Option<nat>, now: int)
    requires Lawful(i)
    ensures var inScope := scope == None || scope == Some(i.userId);
            var wakes := i.status == Snoozed && i.snoozedUntil.value <= now;
            var over := i.expiresAt.Some? && i.expiresAt.value <= now;
            Sweep(i, scope, now)
            == if inScope && (i.status == Pending || wakes) && over then i.(status := Expired, snoozedUntil := None, updatedAt := now)
               else if inScope && wakes then i.(status := Pending, snoozedUntil := None, updatedAt := now)
               else i
  {
  }

  // ---------------------------------------------------------------- all rows

  function Each(items: seq<Item>, scope: Option<nat>, now: int): (r: seq<Item>)
    ensures |r| == |items|
  {
    seq(|items|, k requires 0 <= k < |items| => Sweep(items[k], scope, now))
  }

  /** How many rows differ: what a bulk update reports. */
  function Changes(a: seq<Item>, b: seq<Item>): nat
    requires |a| == |b|
  {
    if a == [] then 0
    else Changes(a[..|a| - 1], b[..|b| - 1]) + if a[|a| - 1] != b[|b| - 1] then 1 else 0
  }

  lemma ChangesOneMore(before: seq<Item>, done: seq<Item>, items: seq<Item>, k: nat)
    requires k < |before| == |items| && done == items[..k]
    ensures Changes(before[..k + 1], items[..k + 1])
            == Changes(before[..k], done) + if before[k] != items[k] then 1 else 0
  {
    OneMore(before, k);
    OneMore(items, k);
  }

  /** The number reported is that of the positions whose rows differ. */
  lemma {:induction false} ChangesIs(a: seq<Item>, b: seq<Item>)
    requires |a| == |b|
    ensures Changes(a, b) == |Differing(a, b)|
  {
    if a != [] {
      var n := |a| - 1;
      ChangesIs(a[..n], b[..n]);
      var front := Differing(a[..n], b[..n]);
      assert Differing(a, b) == if a[n] != b[n] then front + {n} else front;
    }
  }

  ghost function Differing(a: seq<Item>, b: seq<Item>): set<nat>
    requires |a| == |b|
  {
    set k: nat | k < |a| && a[k] != b[k]
  }

  ghost predicate AllLawful(items: seq<Item>) {
    forall k :: 0 <= k < |items| ==> Lawful(items[k])
  }

  ghost predicate UniqueKeys(items: seq<Item>) {
    forall j, k :: 0 <= j < k < |items| ==> (items[j].userId, items[j].key) != (items[k].userId, items[k].key)
  }

  ghost predicate HasKey(items: seq<Item>, userId: nat, key: string) {
    exists k :: 0 <= k < |items| && items[k].userId == userId && items[k].key == key
  }

  predicate Acceptable(kind: string, source: string, confidence: Option<real>) {
    kind in KINDS && source in SOURCES && (confidence.Some? ==> 0.0 <= confidence.value <= 1.0)
  }

  function Expiry(expiresInMinutes: Option<int>, now: int): Option<int> {
    if expiresInMinutes.Some? && expiresInMinutes.value != 0 then Some(now + expiresInMinutes.value * MINUTE) else None
  }

  function NewItem(userId: nat, kind: string, source: string, key: string, confidence: Option<real>,
                   expiresInMinutes: Option<int>, now: int, createdAt: int): Item {
    Item(userId, key, kind, source, confidence, Pending, None, Expiry(expiresInMinutes, now), None, createdAt, createdAt)
  }

  ghost function CreatedIn(items: seq<Item>, userId: nat, kind: string, source: string, key: string,
                           confidence: Option<real>, expiresInMinutes: Option<int>, now: int, createdAt: int): seq<Item> {
    if Acceptable(kind, source, confidence) && !HasKey(items, userId, key)
    then items + [NewItem(userId, kind, source, key, confidence, expiresInMinutes, now, createdAt)]
    else items
  }

  /** A new suggestion is pending and expires after the minutes given, never when none or zero are. */
  lemma CreatedRow(items: seq<Item>, userId: nat, kind: string, source: string, key: string, confidence: Option<real>,
                   minutes: Option<int>, now: int, createdAt: int)
    ensures var z := CreatedIn(items, userId, kind, source, key, confidence, minutes, now, createdAt);
            var lawful := kind in {"review_due", "resource_recommend", "goal_nudge", "community_digest", "system_hint"}
                          && source in {"auxilio", "exam", "community", "github", "scheduler"}
                          && (confidence.Some? ==> 0.0 <= confidence.value <= 1.0);
            var taken := exists k :: 0 <= k < |items| && items[k].userId == userId && items[k].key == key;
            && (lawful && !taken ==>
                  z == items + [Item(userId, key, kind, source, confidence, Pending, None,
                                     if minutes == None || minutes == Some(0) then None else Some(now + minutes.value * 60),
                                     None, createdAt, createdAt)])
            && (!lawful || taken ==> z == items)
  {
  }

  predicate CanAct(items: seq<Item>, userId: nat, id: nat, action: string) {
    KnownAction(action) && id < |items| && items[id].userId == userId && items[id].status.Pending?
  }

  function ActedIn(items: seq<Item>, userId: nat, id: nat, action: string, snoozeMinutes: Option<int>, now: int)
    : seq<Item>
  {
    if CanAct(items, userId, id, action) then items[id := Acted(items[id], action, snoozeMinutes, now)] else items
  }

  // ---------------------------------------------------------------- the service

  class AgentInbox {
    /** Rows by id. */
    var items: seq<Item>

    constructor ()
      ensures items == []
    {
      items := [];
    }

    method FindByIdempotencyKey(userId: nat, key: string) returns (found: Option<nat>)
      ensures found.None? <==> !HasKey(items, userId, key)
      ensures found.Some? ==> found.value < |items| && items[found.value].userId == userId && items[found.value].key == key
    {
      var k := 0;
      while k < |items|
        invariant 0 <= k <= |items|
        invariant forall j :: 0 <= j < k ==> !(items[j].userId == userId && items[j].key == key)
      {
        if items[k].userId == userId && items[k].key == key {
          return Some(k);
        }
        k := k + 1;
      }
      found := None;
    }

    /** Creates a suggestion unless this user already has one with the same key. */
    method CreateSuggestion(userId: nat, kind: string, source: string, key: string, confidence: Option<real>,
                            expiresInMinutes: Option<int>, now: int, createdAt: int)
      returns (r: Result<(nat, bool), Error>)
      modifies this
      ensures r.Ok? <==>
              && kind in {"review_due", "resource_recommend", "goal_nudge", "community_digest", "system_hint"}
              && source in {"auxilio", "exam", "community", "github", "scheduler"}
              && (confidence.Some? ==> 0.0 <= confidence.value <= 1.0)
      ensures items == CreatedIn(old(items), userId, kind, source, key, confidence, expiresInMinutes, now, createdAt)
      ensures r.Ok? ==> r.value.0 < |items| && items[r.value.0].userId == userId && items[r.value.0].key == key
      ensures r.Ok? ==> (r.value.1 <==> !HasKey(old(items), userId, key))
    {
      if kind !in KINDS {
        return Err(InvalidKind);
      }
      if source !in SOURCES {
        return Err(InvalidSource);
      }
      if confidence.Some? && !(0.0 <= confidence.value <= 1.0) {
        return Err(InvalidConfidence);
      }
      var existing := FindByIdempotencyKey(userId, key);
      if existing.Some? {
        return Ok((existing.value, false));
      }
      items := items + [NewItem(userId, kind, source, key, confidence, expiresInMinutes, now, createdAt)];
      r := Ok((|items| - 1, true));
    }

    /** `update … set status = 'pending'` over due snoozes; returns the row count. */
    method PromoteDueSnoozes(scope: Option<nat>, now: int) returns (count: nat)
      modifies this
      ensures |items| == |old(items)|
      ensures forall k :: 0 <= k < |items| ==> items[k] == Promote(old(items)[k], scope, now)
      ensures count == Changes(old(items), items)
    {
      ghost var before := items;
      count := 0;
      var k := 0;
      while k < |items|
        invariant 0 <= k <= |items| == |before|
        invariant count == Changes(before[..k], items[..k])
        invariant forall j :: 0 <= j < k ==> items[j] == Promote(before[j], scope, now)
        invariant forall j :: k <= j < |items| ==> items[j] == before[j]
      {
        ghost var done := items[..k];
        if InScope(items[k], scope) && SnoozeDue(items[k], now) {
          items := items[k := items[k].(status := Pending, snoozedUntil := None, updatedAt := now)];
          count := count + 1;
        }
        ChangesOneMore(before, done, items, k);
        k := k + 1;
      }
      assert before[..k] == before && items[..k] == items;
    }

    /** `update … set status = 'expired'` over stale pending rows; returns the row count. */
    method ExpireStale(scope: Option<nat>, now: int) returns (count: nat)
      modifies this
      ensures |items| == |old(items)|
      ensures forall k :: 0 <= k < |items| ==> items[k] == Expire(old(items)[k], scope, now)
      ensures count == Changes(old(items), items)
    {
      ghost var before := items;
      count := 0;
      var k := 0;
      while k < |items|
        invariant 0 <= k <= |items| == |before|
        invariant count == Changes(before[..k], items[..k])
        invariant forall j :: 0 <= j < k ==> items[j] == Expire(before[j], scope, now)
        invariant forall j :: k <= j < |items| ==> items[j] == before[j]
      {
        ghost var done := items[..k];
        if InScope(items[k], scope) && Stale(items[k], now) {
          items := items[k := items[k].(status := Expired, updatedAt := now)];
          count := count + 1;
        }
        ChangesOneMore(before, done, items, k);
        k := k + 1;
      }
      assert before[..k] == before && items[..k] == items;
    }

    /** Promotes, then expires: the read path for one user, or the scheduled job for everybody. */
    method SweepAll(scope: Option<nat>, now: int)
      modifies this
      ensures items == Each(old(items), scope, now)
    {
      var _ := PromoteDueSnoozes(scope, now);
      var _ := ExpireStale(scope, now);
      assert items == Each(old(items), scope, now);
    }

    /** Lets the owner accept, dismiss or snooze a pending suggestion. */
    method UpdateStatus(userId: nat, id: nat, action: string, snoozeMinutes: Option<int>, now: int)
      returns (r: Result<Item, Error>)
      modifies this
      ensures items == ActedIn(old(items), userId, id, action, snoozeMinutes, now)
      ensures r.Ok? <==> (action == "accept" || action == "dismiss" || action == "snooze") && id < |old(items)|
                         && old(items)[id].userId == userId && old(items)[id].status == Pending
      ensures r.Ok? ==> r.value == items[id]
      ensures r == Err(UnknownAction) <==> !KnownAction(action)
      ensures r == Err(NotFound) <==> KnownAction(action) && id >= |old(items)|
      ensures r == Err(NotOwner) <==> KnownAction(action) && id < |old(items)| && old(items)[id].userId != userId
    {
      if !KnownAction(action) {
        return Err(UnknownAction);
      }
      if id >= |items| {
        return Err(NotFound);
      }
      var item := items[id];
      if item.userId != userId {
        return Err(NotOwner);
      }
      if !item.status.Pending? {
        return Err(NotPending);
      }
      item := item.(status := if action == "accept" then Accepted else if action == "dismiss" then Dismissed else Snoozed,
                    resolvedAt := Some(now));
      if action == "snooze" {
        var minutes := SnoozeMinutes(snoozeMinutes);
        item := item.(snoozedUntil := Some(now + minutes * MINUTE), resolvedAt := None);
      }
      item := item.(updatedAt := now);
      items := items[id := item];
      r := Ok(item);
    }
  }

  // ---------------------------------------------------------------- every reachable inbox

  datatype Request =
    | Create(userId: nat, kind: string, source: string, key: string, confidence: Option<real>,
             expiresInMinutes: Option<int>, now: int, createdAt: int)
    | Act(userId: nat, id: nat, action: string, snoozeMinutes: Option<int>, now: int)
    | Tidy(scope: Option<nat>, now: int)

  ghost function Apply(items: seq<Item>, q: Request): seq<Item> {
    match q
    case Create(u, kind, source, key, confidence, e, now, createdAt) =>
      CreatedIn(items, u, kind, source, key, confidence, e, now, createdAt)
    case Act(u, id, action, m, now) => ActedIn(items, u, id, action, m, now)
    case Tidy(scope, now) => Each(items, scope, now)
  }

  ghost function Run(items: seq<Item>, qs: seq<Request>): seq<Item>
    decreases |qs|
  {
    if qs == [] then items else Apply(Run(items, qs[..|qs| - 1]), qs[|qs| - 1])
  }

  /** A run is its requests, one after the other. */
  lemma RunExtend(items: seq<Item>, qs: seq<Request>, q: Request)
    ensures Run(items, []) == items && Run(items, qs + [q]) == Apply(Run(items, qs), q)
  {
    assert (qs + [q])[..|qs|] == qs;
  }

  /** The service performs exactly the transitions of the model. */
  method Handle(inbox: AgentInbox, q: Request)
    modifies inbox
    ensures inbox.items == Apply(old(inbox.items), q)
  {
    match q
    case Create(u, kind, source, key, confidence, e, now, createdAt) =>
      var _ := inbox.CreateSuggestion(u, kind, source, key, confidence, e, now, createdAt);
    case Act(u, id, action, m, now) =>
      var _ := inbox.UpdateStatus(u, id, action, m, now);
    case Tidy(scope, now) =>
      inbox.SweepAll(scope, now);
  }

  ghost predicate WellFormed(items: seq<Item>) {
    AllLawful(items) && UniqueKeys(items)
  }

  /** One transition keeps rows lawful and keys unique, keeps what identifies a row, and leaves decided or
      expired rows exactly as they are. */
  lemma ApplyKeeps(items: seq<Item>, q: Request)
    requires WellFormed(items)
    ensures WellFormed(Apply(items, q)) && |items| <= |Apply(items, q)|
    ensures forall k :: 0 <= k < |items| ==>
              var a, b := items[k], Apply(items, q)[k];
              && b.userId == a.userId && b.key == a.key && b.createdAt == a.createdAt
              && (a.status != Pending && a.status != Snoozed ==> b == a)
  {
    var next := Apply(items, q);
    if q.Tidy? {
      forall k | 0 <= k < |items|
        ensures Lawful(next[k]) && next[k].userId == items[k].userId && next[k].key == items[k].key
      {
        assert Lawful(items[k]);
      }
      forall j, k | 0 <= j < k < |next|
        ensures (next[j].userId, next[j].key) != (next[k].userId, next[k].key)
      {
        assert (items[j].userId, items[j].key) != (items[k].userId, items[k].key);
      }
    }
  }

  lemma {:induction false} RunKeeps(items: seq<Item>, qs: seq<Request>)
    requires WellFormed(items)
    ensures WellFormed(Run(items, qs)) && |items| <= |Run(items, qs)|
    ensures forall k :: 0 <= k < |items| ==>
              var a, b := items[k], Run(items, qs)[k];
              && b.userId == a.userId && b.key == a.key && b.createdAt == a.createdAt
              && (a.status != Pending && a.status != Snoozed ==> b == a)
    decreases |qs|
  {
    if qs != [] {
      RunKeeps(items, qs[..|qs| - 1]);
      ApplyKeeps(Run(items, qs[..|qs| - 1]), qs[|qs| - 1]);
    }
  }

  /** In every inbox that can arise a row has a snooze time exactly while snoozed and a resolution time exactly
      when accepted or dismissed, and no user has two rows with one key. */
  lemma EveryInboxIsLawful(qs: seq<Request>, j: nat, k: nat)
    requires j < |Run([], qs)| && k < |Run([], qs)|
    ensures var a, b := Run([], qs)[j], Run([], qs)[k];
            && (a.snoozedUntil.Some? <==> a.status == Snoozed)
            && (a.resolvedAt.Some? <==> a.status == Accepted || a.status == Dismissed)
            && (j != k ==> a.userId != b.userId || a.key != b.key)
  {
    RunKeeps([], qs);
    assert Lawful(Run([], qs)[j]);
    assert j < k ==> (Run([], qs)[j].userId, Run([], qs)[j].key) != (Run([], qs)[k].userId, Run([], qs)[k].key);
    assert k < j ==> (Run([], qs)[k].userId, Run([], qs)[k].key) != (Run([], qs)[j].userId, Run([], qs)[j].key);
  }

  /** After a sweep at `now` nothing in scope is overdue. */
  lemma SweepLeavesNothingOverdue(items: seq<Item>, scope: Option<nat>, now: int, k: nat)
    requires k < |items| && InScope(items[k], scope) && Lawful(items[k])
    ensures !SnoozeDue(Each(items, scope, now)[k], now) && !Stale(Each(items, scope, now)[k], now)
  {
  }

  // ---------------------------------------------------------------- global sweep against per-user sweeps

  /** The read-path sweep run for a list of users, one after the other. */
  function EachUser(items: seq<Item>, users: seq<nat>, now: int): (r: seq<Item>)
    ensures |r| == |items|
  {
    if users == [] then items else Each(EachUser(items, users[..|users| - 1], now), Some(users[|users| - 1]), now)
  }

  lemma SweepTwice(i: Item, now: int)
    ensures Sweep(Sweep(i, Some(i.userId), now), Some(i.userId), now) == Sweep(i, Some(i.userId), now)
    ensures Sweep(i, Some(i.userId), now) == Sweep(i, None, now)
  {
  }

  lemma {:induction false} EachUserRow(items: seq<Item>, users: seq<nat>, now: int, k: nat)
    requires k < |items|
    ensures EachUser(items, users, now)[k]
            == if items[k].userId in users then Sweep(items[k], None, now) else items[k]
  {
    if users != [] {
      var n := |users| - 1;
      EachUserRow(items, users[..n], now, k);
      OneMore(users, n);
      assert users[..n + 1] == users;
      SweepTwice(items[k], now);
    }
  }

  /** The scheduled global promote-then-expire equals the per-user sweeps, in any order and with any
      repetition, exactly when every user with an overdue row is listed. */
  lemma GlobalEqualsPerUserIff(items: seq<Item>, users: seq<nat>, now: int)
    ensures EachUser(items, users, now) == Each(items, None, now)
            <==> forall k :: 0 <= k < |items| && Sweep(items[k], None, now) != items[k] ==> items[k].userId in users
  {
    var a, b := EachUser(items, users, now), Each(items, None, now);
    forall k | 0 <= k < |items|
      ensures a[k] == (if items[k].userId in users then Sweep(items[k], None, now) else items[k])
      ensures b[k] == Sweep(items[k], None, now)
    {
      EachUserRow(items, users, now, k);
    }
    if a == b {
      forall k | 0 <= k < |items| && Sweep(items[k], None, now) != items[k]
        ensures items[k].userId in users
      {
        assert a[k] == b[k];
      }
    }
  }
}
