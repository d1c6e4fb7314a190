/** Automation rules: arbitration, evaluation into the inbox, and what every run of evaluations keeps. */
module RuleEngine {
  import opened Prelude
  import opened Decimal
  import opened RuleKeys
  import opened Inbox

  datatype Rule = Rule(
    userId: nat, triggerType: string, quietStart: Option<string>, quietEnd: Option<string>,
    cooldownMinutes: int, maxPerHour: int, enabled: bool, lastFiredAt: Option<int>)

  datatype Outcome = RuleDisabled | QuietHours | Cooldown | HourlyCap | NoSignal | Dedup | Fired

  /** One evaluation's circumstances: the collected signal, and the clock when it is judged, when the
      suggestion row is written and when the rule is marked; `markFails` says that recording the firing
      raised, after the suggestion was already committed. */
  datatype Circumstance = Circumstance(signal: Option<int>, judged: nat, written: nat, marked: nat, markFails: bool)

  const SUGGESTION_LIFETIME_MINUTES := 60 * 24

  function InboxKind(triggerType: string): string {
    if triggerType == "review_due" then "review_due"
    else if triggerType == "resource_new" then "resource_recommend"
    else if triggerType == "goal_stalled" then "goal_nudge"
    else if triggerType == "community_match" then "community_digest"
    else "system_hint"
  }

  // ---------------------------------------------------------------- settings

  datatype RuleError = RuleNotFound | NotRuleOwner | UnknownTrigger | UnsupportedAction | BadQuietHours | BadCap

  /** A partial edit: an absent field is left alone; a quiet-hours field may be set to nothing. */
  datatype Patch = Patch(
    triggerType: Option<string>, quietStart: Option<Option<string>>, quietEnd: Option<Option<string>>,
    cooldownMinutes: Option<int>, maxPerHour: Option<int>)

  const TRIGGER_TYPES := {"review_due", "exam_finished", "goal_stalled", "community_match", "resource_new"}
  const MAX_PER_HOUR_LIMIT := 60
  const SUGGESTION_ACTION := "inbox_suggestion"

  /** Python's `value or default` for numbers. */
  function OrDefault(value: Option<int>, default: int): int {
    if value.Some? && value.value != 0 then value.value else default
  }

  function OrElse<T>(value: Option<T>, otherwise: T): T {
    if value.Some? then value.value else otherwise
  }

  predicate ValidTime(t: Option<string>) {
    t.Some? ==> ParseTime(t.value).Some?
  }

  predicate ValidRule(r: Rule) {
    r.triggerType in TRIGGER_TYPES && ValidTime(r.quietStart) && ValidTime(r.quietEnd)
    && 1 <= r.maxPerHour <= MAX_PER_HOUR_LIMIT
  }

  predicate ValidPatch(rule: Rule, p: Patch) {
    && (p.triggerType.Some? ==> p.triggerType.value in TRIGGER_TYPES)
    && (p.quietStart.Some? || p.quietEnd.Some? ==>
          ValidTime(OrElse(p.quietStart, rule.quietStart)) && ValidTime(OrElse(p.quietEnd, rule.quietEnd)))
    && (p.maxPerHour.Some? ==> 1 <= p.maxPerHour.value <= MAX_PER_HOUR_LIMIT)
  }

  function Patched(rule: Rule, p: Patch): Rule {
    rule.(triggerType := OrElse(p.triggerType, rule.triggerType), quietStart := OrElse(p.quietStart, rule.quietStart),
          quietEnd := OrElse(p.quietEnd, rule.quietEnd), cooldownMinutes := OrElse(p.cooldownMinutes, rule.cooldownMinutes),
          maxPerHour := OrElse(p.maxPerHour, rule.maxPerHour))
  }

  // ---------------------------------------------------------------- arbitration

  function InCooldown(lastFiredAt: Option<int>, cooldownMinutes: int, now: int): bool {
    lastFiredAt.Some? && cooldownMinutes > 0 && now < lastFiredAt.value + cooldownMinutes * RuleKeys.MINUTE
  }

  /** How many rows with this key prefix were created at or after `since`. */
  function CountSince(items: seq<Item>, prefix: string, since: int): nat {
    if items == [] then 0
    else
      var n := |items| - 1;
      CountSince(items[..n], prefix, since)
      + if HasPrefix(items[n].key, prefix) && items[n].createdAt >= since then 1 else 0
  }

  /** None when the rule may fire; otherwise the first gate that holds it back. */
  function Gate(rule: Rule, id: nat, items: seq<Item>, now: nat): Option<Outcome> {
    if !rule.enabled then Some(RuleDisabled)
    else if QuietHoursActive(rule.quietStart, rule.quietEnd, MinuteOfDay(now)) then Some(QuietHours)
    else if InCooldown(rule.lastFiredAt, rule.cooldownMinutes, now) then Some(Cooldown)
    else if CountSince(items, RulePrefix(id), now - HOUR) >= rule.maxPerHour then Some(HourlyCap)
    else None
  }

  // ---------------------------------------------------------------- one evaluation

  /** `unmarked` and `judged` are history only: rows whose evaluation failed to record the firing on the rule,
      and the clock reading by which the rule was allowed to produce a row. */
  datatype State = State(
    rules: map<nat, Rule>, items: seq<Item>, unmarked: set<nat>, judged: map<nat, nat>, clock: nat)

  ghost function Judge(st: State, id: nat, c: Circumstance): Outcome
    requires id in st.rules
  {
    var rule := st.rules[id];
    match Gate(rule, id, st.items, c.judged)
    case Some(reason) => reason
    case None =>
      if c.signal.None? || c.signal.value <= 0 then NoSignal
      else if HasKey(st.items, rule.userId, RuleKey(id, DayOf(c.judged))) then Dedup
      else Fired
  }

  function Suggestion(rule: Rule, id: nat, c: Circumstance): Item {
    NewItem(rule.userId, InboxKind(rule.triggerType), "scheduler", RuleKey(id, DayOf(c.judged)), None,
            Some(SUGGESTION_LIFETIME_MINUTES), c.written, c.written)
  }

  ghost function Evaluated(st: State, id: nat, c: Circumstance): State
    requires id in st.rules
  {
    if Judge(st, id, c) != Fired then st
    else
      var rule := st.rules[id];
      State(if c.markFails then st.rules else st.rules[id := rule.(lastFiredAt := Some(c.marked))],
            st.items + [Suggestion(rule, id, c)],
            if c.markFails then st.unmarked + {|st.items|} else st.unmarked,
            st.judged[|st.items| := c.judged], st.clock)
  }

  class RuleEngine {
    var rules: map<nat, Rule>
    const inbox: AgentInbox
    ghost var unmarked: set<nat>
    ghost var judged: map<nat, nat>
    ghost var clock: nat

    ghost function Now(): State
      reads this, inbox
    {
      State(rules, inbox.items, unmarked, judged, clock)
    }

    constructor (inbox: AgentInbox)
      ensures this.inbox == inbox && Now() == State(map[], inbox.items, {}, map[], 0)
    {
      this.inbox := inbox;
      rules, unmarked, judged, clock := map[], {}, map[], 0;
    }

    method CountFiredSince(id: nat, since: int) returns (count: nat)
      ensures count == CountSince(inbox.items, RulePrefix(id), since)
    {
      var prefix, k := RulePrefix(id), 0;
      count := 0;
      while k < |inbox.items|
        invariant 0 <= k <= |inbox.items| && count == CountSince(inbox.items[..k], prefix, since)
      {
        OneMore(inbox.items, k);
        if HasPrefix(inbox.items[k].key, prefix) && inbox.items[k].createdAt >= since {
          count := count + 1;
        }
        k := k + 1;
      }
      assert inbox.items[..k] == inbox.items;
    }

    method Arbitrate(id: nat, now: nat) returns (held: Option<Outcome>)
      requires id in rules
      ensures held == Gate(rules[id], id, inbox.items, now)
    {
      var rule := rules[id];
      if !rule.enabled {
        return Some(RuleDisabled);
      }
      if QuietHoursActive(rule.quietStart, rule.quietEnd, MinuteOfDay(now)) {
        return Some(QuietHours);
      }
      if InCooldown(rule.lastFiredAt, rule.cooldownMinutes, now) {
        return Some(Cooldown);
      }
      var fired := CountFiredSince(id, now - HOUR);
      if fired >= rule.maxPerHour {
        return Some(HourlyCap);
      }
      held := None;
    }

    /** Arbitrate, look at the signal, create the suggestion, mark the rule; `raised` when the mark failed. */
    method EvaluateRule(id: nat, c: Circumstance) returns (outcome: Outcome, raised: bool)
      requires id in rules
      modifies this, inbox
      ensures outcome == Judge(old(Now()), id, c) && (raised <==> outcome == Fired && c.markFails)
      ensures Now() == Evaluated(old(Now()), id, c)
    {
      var held := Arbitrate(id, c.judged);
      if held.Some? {
        return held.value, false;
      }
      if c.signal.None? || c.signal.value <= 0 {
        return NoSignal, false;
      }
      var rule := rules[id];
      var key := RuleKey(id, DayOf(c.judged));
      ghost var before := inbox.items;
      var r := inbox.CreateSuggestion(rule.userId, InboxKind(rule.triggerType), "scheduler", key, None,
                                      Some(SUGGESTION_LIFETIME_MINUTES), c.written, c.written);
      if !r.value.1 {
        return Dedup, false;
      }
      judged := judged[|before| := c.judged];
      if c.markFails {
        unmarked := unmarked + {|before|};
      } else {
        rules := rules[id := rule.(lastFiredAt := Some(c.marked))];
      }
      outcome, raised := Fired, c.markFails;
    }

    /** Registers a rule, disabled; a missing or zero cooldown becomes four hours, a missing or zero cap three. The
        action may be left out, but not be anything else than a suggestion, not even nothing. */
    method CreateRule(id: nat, userId: nat, triggerType: string, action: Option<Option<string>>, quietStart: Option<string>,
                      quietEnd: Option<string>, cooldownMinutes: Option<int>, maxPerHour: Option<int>)
      returns (r: Option<RuleError>)
      requires id !in rules
      modifies this
      ensures r.None? ==> id in rules && ValidRule(rules[id]) && !rules[id].enabled && rules[id].userId == userId
                          && rules[id].triggerType == triggerType && rules[id].lastFiredAt == None
                          && rules[id].quietStart == quietStart && rules[id].quietEnd == quietEnd
                          && rules[id].cooldownMinutes == (if cooldownMinutes == None || cooldownMinutes == Some(0) then 240
                                                           else cooldownMinutes.value)
                          && rules[id].maxPerHour == (if maxPerHour == None || maxPerHour == Some(0) then 3
                                                      else maxPerHour.value)
                          && Now() == Next(old(Now()), Configure(id, rules[id]))
      ensures r.Some? ==> Now() == old(Now())
      ensures r.None? <==> triggerType in TRIGGER_TYPES && (action == None || action == Some(Some("inbox_suggestion")))
                           && ValidTime(quietStart) && ValidTime(quietEnd)
                           && (maxPerHour == None || 0 <= maxPerHour.value <= 60)
    {
      if triggerType !in TRIGGER_TYPES {
        return Some(UnknownTrigger);
      }
      if OrElse(action, Some(SUGGESTION_ACTION)) != Some(SUGGESTION_ACTION) {
        return Some(UnsupportedAction);
      }
      if !ValidTime(quietStart) || !ValidTime(quietEnd) {
        return Some(BadQuietHours);
      }
      var cap := OrDefault(maxPerHour, 3);
      if !(1 <= cap <= MAX_PER_HOUR_LIMIT) {
        return Some(BadCap);
      }
      rules := rules[id := Rule(userId, triggerType, quietStart, quietEnd, OrDefault(cooldownMinutes, 240), cap, false, None)];
      r := None;
    }

    /** Applies the given fields; a valid rule stays valid and keeps its firing time and switch. */
    method UpdateRule(userId: nat, id: nat, patch: Patch) returns (r: Option<RuleError>)
      modifies this
      ensures r.None? <==> id in old(rules) && old(rules)[id].userId == userId && ValidPatch(old(rules)[id], patch)
      ensures r.None? ==> Now() == Next(old(Now()), Configure(id, Patched(old(rules)[id], patch)))
      ensures r.None? && ValidRule(old(rules)[id]) ==> ValidRule(rules[id])
      ensures r.Some? ==> Now() == old(Now())
    {
      if id !in rules {
        return Some(RuleNotFound);
      }
      var rule := rules[id];
      if rule.userId != userId {
        return Some(NotRuleOwner);
      }
      if patch.triggerType.Some? && patch.triggerType.value !in TRIGGER_TYPES {
        return Some(UnknownTrigger);
      }
      if (patch.quietStart.Some? || patch.quietEnd.Some?)
         && (!ValidTime(OrElse(patch.quietStart, rule.quietStart)) || !ValidTime(OrElse(patch.quietEnd, rule.quietEnd))) {
        return Some(BadQuietHours);
      }
      if patch.maxPerHour.Some? && !(1 <= patch.maxPerHour.value <= MAX_PER_HOUR_LIMIT) {
        return Some(BadCap);
      }
      rules := rules[id := Patched(rule, patch)];
      r := None;
    }

    method SetEnabled(userId: nat, id: nat, enabled: bool) returns (r: Option<RuleError>)
      modifies this
      ensures r.None? <==> id in old(rules) && old(rules)[id].userId == userId
      ensures r.None? ==> Now() == Next(old(Now()), Event.SetEnabled(id, enabled))
      ensures r.Some? ==> Now() == old(Now())
    {
      if id !in rules {
        return Some(RuleNotFound);
      }
      if rules[id].userId != userId {
        return Some(NotRuleOwner);
      }
      rules := rules[id := rules[id].(enabled := enabled)];
      r := None;
    }

    /** Evaluates every enabled rule; a rule whose evaluation raises is counted and skipped, and `lost` of
        those had their suggestion committed before the mark failed. The list of enabled rules is read
        once, in whatever order the database returns it. */
    method ScanEnabledRules(enabled: seq<nat>, circumstances: seq<Circumstance>, raises: seq<bool>)
      returns (created: nat, gated: nat, noSignal: nat, failed: nat, ghost lost: nat)
      requires |circumstances| == |raises| == |enabled| && forall k :: 0 <= k < |enabled| ==> enabled[k] in rules
      modifies this, inbox
      ensures created + gated + noSignal + failed == |enabled|
      ensures Now() == Scanned(old(Now()), enabled, circumstances, raises)
      ensures |inbox.items| == |old(inbox.items)| + created + lost && lost <= failed
    {
      created, gated, noSignal, failed, lost := 0, 0, 0, 0, 0;
      var k := 0;
      ghost var start := Now();
      while k < |enabled|
        invariant 0 <= k <= |enabled| && created + gated + noSignal + failed == k
        invariant forall j :: 0 <= j < |enabled| ==> enabled[j] in rules
        invariant Now() == Scanned(start, enabled[..k], circumstances[..k], raises[..k])
        invariant |inbox.items| == |start.items| + created + lost && lost <= failed
      {
        ScannedOneMore(start, enabled, circumstances, raises, k);
        if raises[k] {
          failed := failed + 1;
        } else {
          var outcome, raised := EvaluateRule(enabled[k], circumstances[k]);
          match outcome
          case Fired =>
            if raised {
              failed, lost := failed + 1, lost + 1;
            } else {
              created := created + 1;
            }
          case NoSignal => noSignal := noSignal + 1;
          case _ => gated := gated + 1;
        }
        k := k + 1;
      }
      assert enabled[..k] == enabled && circumstances[..k] == circumstances && raises[..k] == raises;
    }
  }

  ghost function Scanned(st: State, enabled: seq<nat>, cs: seq<Circumstance>, raises: seq<bool>): State
    requires |cs| == |raises| == |enabled|
  {
    if enabled == [] then st
    else
      var n := |enabled| - 1;
      var s := Scanned(st, enabled[..n], cs[..n], raises[..n]);
      if raises[n] || enabled[n] !in s.rules then s else Evaluated(s, enabled[n], cs[n])
  }

  lemma ScannedOneMore(st: State, enabled: seq<nat>, cs: seq<Circumstance>, raises: seq<bool>, k: nat)
    requires |cs| == |raises| == |enabled| && k < |enabled|
    ensures var s := Scanned(st, enabled[..k], cs[..k], raises[..k]);
            Scanned(st, enabled[..k + 1], cs[..k + 1], raises[..k + 1])
            == if raises[k] || enabled[k] !in s.rules then s else Evaluated(s, enabled[k], cs[k])
  {
    OneMore(enabled, k);
    OneMore(cs, k);
    OneMore(raises, k);
  }

  // ---------------------------------------------------------------- runs of events

  datatype Event =
    | Evaluate(id: nat, c: Circumstance)
    | Configure(id: nat, settings: Rule)
    | SetEnabled(id: nat, enabled: bool)
    | Use(request: Request, now: nat)

  /** Suggestions from other producers never carry a rule key. */
  predicate Foreign(q: Request) {
    q.Create? ==> !HasPrefix(q.key, "rule:")
  }

  predicate Timely(st: State, e: Event) {
    match e
    case Evaluate(_, c) => st.clock <= c.judged <= c.written <= c.marked
    case Use(q, now) => st.clock <= now && (q.Create? ==> st.clock <= q.createdAt <= now)
    case _ => true
  }

  /** Untimely or meaningless events are ignored; editing a rule keeps its last firing time. */
  ghost function Next(st: State, e: Event): State {
    if !Timely(st, e) then st
    else match e
      case Evaluate(id, c) => if id in st.rules then Evaluated(st, id, c).(clock := c.marked) else st
      case Configure(id, settings) =>
        var kept := if id in st.rules then st.rules[id].lastFiredAt else None;
        st.(rules := st.rules[id := settings.(lastFiredAt := kept)])
      case SetEnabled(id, enabled) =>
        if id in st.rules then st.(rules := st.rules[id := st.rules[id].(enabled := enabled)]) else st
      case Use(q, now) => if Foreign(q) then st.(items := Apply(st.items, q), clock := now) else st
  }

  ghost function Run(st: State, es: seq<Event>): State
    decreases |es|
  {
    if es == [] then st else Next(Run(st, es[..|es| - 1]), es[|es| - 1])
  }

  /** The row was produced by this rule. */
  predicate From(i: Item, id: nat) {
    HasPrefix(i.key, RulePrefix(id))
  }

  function WindowCount(items: seq<Item>, id: nat, start: int): nat {
    if items == [] then 0
    else
      var n := |items| - 1;
      WindowCount(items[..n], id, start)
      + if From(items[n], id) && start <= items[n].createdAt <= start + HOUR then 1 else 0
  }

  ghost predicate Spaced(st: State, id: nat, cooldownMinutes: int) {
    forall i, j :: 0 <= i < j < |st.items| && From(st.items[i], id) && From(st.items[j], id) && i !in st.unmarked
                   ==> st.items[j].createdAt >= st.items[i].createdAt + cooldownMinutes * RuleKeys.MINUTE
  }

  ghost predicate Capped(items: seq<Item>, id: nat, maxPerHour: int) {
    forall start :: WindowCount(items, id, start) <= maxPerHour
  }

  ghost predicate Owned(items: seq<Item>, id: nat, userId: nat) {
    forall i :: 0 <= i < |items| && From(items[i], id) ==>
                  items[i].userId == userId && exists day :: items[i].key == RuleKey(id, day)
  }

  /** The last firing time is no earlier than any row whose firing was recorded. */
  ghost predicate Recorded(st: State, id: nat)
    requires id in st.rules
  {
    forall i :: 0 <= i < |st.items| && From(st.items[i], id) && i !in st.unmarked ==>
                  st.rules[id].lastFiredAt.Some? && st.items[i].createdAt <= st.rules[id].lastFiredAt.value
  }

  ghost predicate Settings(st: State, id: nat, userId: nat, cooldownMinutes: int, maxPerHour: int) {
    id in st.rules && st.rules[id].userId == userId
    && st.rules[id].cooldownMinutes == cooldownMinutes && st.rules[id].maxPerHour == maxPerHour
  }

  ghost predicate Good(st: State, id: nat, userId: nat, cooldownMinutes: int, maxPerHour: int) {
    && Settings(st, id, userId, cooldownMinutes, maxPerHour)
    && WellFormed(st.items)
    && (forall i :: 0 <= i < |st.items| ==> st.items[i].createdAt <= st.clock)
    && (forall i :: i in st.unmarked ==> i < |st.items|)
    && Owned(st.items, id, userId) && Recorded(st, id)
    && Spaced(st, id, cooldownMinutes) && Capped(st.items, id, maxPerHour)
  }

  // ---------------------------------------------------------------- steps that keep a rule's guarantees

  lemma {:induction false} WindowOfSameRows(a: seq<Item>, b: seq<Item>, id: nat, start: int)
    requires |a| == |b|
    requires forall i :: 0 <= i < |a| ==> a[i].key == b[i].key && a[i].createdAt == b[i].createdAt
    ensures WindowCount(a, id, start) == WindowCount(b, id, start)
  {
    if a != [] {
      WindowOfSameRows(a[..|a| - 1], b[..|b| - 1], id, start);
    }
  }

  lemma WindowAppend(items: seq<Item>, x: Item, id: nat, start: int)
    ensures WindowCount(items + [x], id, start)
            == WindowCount(items, id, start) + if From(x, id) && start <= x.createdAt <= start + HOUR then 1 else 0
  {
    assert (items + [x])[..|items|] == items;
  }

  /** A window that reaches past the last hour holds no more than the arbiter counted. */
  lemma {:induction false} WindowWithinCount(items: seq<Item>, id: nat, start: int, since: int)
    requires start >= since
    ensures WindowCount(items, id, start) <= CountSince(items, RulePrefix(id), since)
  {
    if items != [] {
      WindowWithinCount(items[..|items| - 1], id, start, since);
    }
  }

  /** Status changes by users and sweeps do not touch what the guarantees speak of. */
  lemma SameRowsKeepGood(st: State, items: seq<Item>, clock: nat, id: nat, userId: nat, cooldown: int, cap: int)
    requires Good(st, id, userId, cooldown, cap) && st.clock <= clock
    requires WellFormed(items) && |items| == |st.items|
    requires forall i :: 0 <= i < |items| ==>
               items[i].key == st.items[i].key && items[i].userId == st.items[i].userId
               && items[i].createdAt == st.items[i].createdAt
    ensures Good(st.(items := items, clock := clock), id, userId, cooldown, cap)
  {
    forall start
      ensures WindowCount(items, id, start) <= cap
    {
      WindowOfSameRows(items, st.items, id, start);
    }
  }

  /** A row that is not this rule's leaves its guarantees alone. */
  lemma OtherRowKeepsGood(st: State, st': State, x: Item, id: nat, userId: nat, cooldown: int, cap: int)
    requires Good(st, id, userId, cooldown, cap) && !From(x, id)
    requires st'.items == st.items + [x] && WellFormed(st'.items)
    requires st.clock <= x.createdAt <= st'.clock
    requires Settings(st', id, userId, cooldown, cap) && st'.rules[id].lastFiredAt == st.rules[id].lastFiredAt
    requires st'.unmarked == st.unmarked || st'.unmarked == st.unmarked + {|st.items|}
    ensures Good(st', id, userId, cooldown, cap)
  {
    forall start
      ensures WindowCount(st'.items, id, start) <= cap
    {
      WindowAppend(st.items, x, id, start);
    }
  }

  lemma FiringKeepsCap(st: State, id: nat, x: Item, judged: nat, cap: int)
    requires Capped(st.items, id, cap) && CountSince(st.items, RulePrefix(id), judged - HOUR) < cap
    requires judged <= x.createdAt
    ensures Capped(st.items + [x], id, cap)
  {
    forall start
      ensures WindowCount(st.items + [x], id, start) <= cap
    {
      WindowAppend(st.items, x, id, start);
      if start <= x.createdAt <= start + HOUR {
        WindowWithinCount(st.items, id, start, judged - HOUR);
      }
    }
  }

  lemma FiringKeepsWellFormed(st: State, rule: Rule, id: nat, c: Circumstance)
    requires WellFormed(st.items) && !HasKey(st.items, rule.userId, RuleKey(id, DayOf(c.judged)))
    ensures WellFormed(st.items + [Suggestion(rule, id, c)])
  {
  }

  lemma FiringKeepsSpacing(st: State, id: nat, c: Circumstance, userId: nat, cooldown: int, cap: int)
    requires Good(st, id, userId, cooldown, cap) && st.clock <= c.judged <= c.written
    requires !InCooldown(st.rules[id].lastFiredAt, cooldown, c.judged)
    ensures forall i :: 0 <= i < |st.items| && From(st.items[i], id) && i !in st.unmarked
                        ==> c.written >= st.items[i].createdAt + cooldown * RuleKeys.MINUTE
  {
  }

  /** The rule's own firing keeps all its guarantees. */
  lemma FiringKeepsGood(st: State, id: nat, c: Circumstance, userId: nat, cooldown: int, cap: int)
    requires Good(st, id, userId, cooldown, cap)
    requires st.clock <= c.judged <= c.written <= c.marked && Judge(st, id, c) == Fired
    ensures Good(Evaluated(st, id, c).(clock := c.marked), id, userId, cooldown, cap)
  {
    var rule := st.rules[id];
    var x := Suggestion(rule, id, c);
    FiringKeepsCap(st, id, x, c.judged, cap);
    FiringKeepsWellFormed(st, rule, id, c);
    FiringKeepsSpacing(st, id, c, userId, cooldown, cap);
    PrefixCountsOnlyItsRule(id, id, DayOf(c.judged));
    OwnRowKeepsGood(st, Evaluated(st, id, c).(clock := c.marked), x, DayOf(c.judged), id, userId, cooldown, cap);
  }

  /** A row of the rule's own, far enough from the recorded ones and recorded itself unless marked as lost. */
  lemma OwnRowKeepsGood(st: State, st': State, x: Item, day: nat, id: nat, userId: nat, cooldown: int, cap: int)
    requires Good(st, id, userId, cooldown, cap) && Settings(st', id, userId, cooldown, cap)
    requires st'.items == st.items + [x] && WellFormed(st'.items) && Capped(st'.items, id, cap)
    requires x.userId == userId && x.key == RuleKey(id, day) && st.clock <= x.createdAt <= st'.clock
    requires forall i :: 0 <= i < |st.items| && From(st.items[i], id) && i !in st.unmarked
                         ==> x.createdAt >= st.items[i].createdAt + cooldown * RuleKeys.MINUTE
    requires || (st'.unmarked == st.unmarked + {|st.items|} && st'.rules[id].lastFiredAt == st.rules[id].lastFiredAt)
             || (st'.unmarked == st.unmarked && st'.rules[id].lastFiredAt.Some?
                 && x.createdAt <= st'.rules[id].lastFiredAt.value)
    ensures Good(st', id, userId, cooldown, cap)
  {
    assert Owned(st'.items, id, userId) by {
      OwnRowOwned(st.items, x, day, id, userId);
    }
    assert Spaced(st', id, cooldown);
    assert Recorded(st', id);
  }

  lemma OwnRowOwned(items: seq<Item>, x: Item, day: nat, id: nat, userId: nat)
    requires Owned(items, id, userId) && x.userId == userId && x.key == RuleKey(id, day)
    ensures Owned(items + [x], id, userId)
  {
  }

  lemma EvaluateKeepsGood(st: State, j: nat, c: Circumstance, id: nat, userId: nat, cooldown: int, cap: int)
    requires Good(st, id, userId, cooldown, cap) && j in st.rules
    requires st.clock <= c.judged <= c.written <= c.marked
    ensures Good(Evaluated(st, j, c).(clock := c.marked), id, userId, cooldown, cap)
  {
    if Judge(st, j, c) != Fired {
      SameRowsKeepGood(st, st.items, c.marked, id, userId, cooldown, cap);
    } else if j == id {
      FiringKeepsGood(st, id, c, userId, cooldown, cap);
    } else {
      PrefixCountsOnlyItsRule(id, j, DayOf(c.judged));
      FiringKeepsWellFormed(st, st.rules[j], j, c);
      OtherRowKeepsGood(st, Evaluated(st, j, c).(clock := c.marked), Suggestion(st.rules[j], j, c), id, userId, cooldown, cap);
    }
  }

  lemma RulePrefixesShareAStem(key: string, id: nat)
    ensures HasPrefix(key, RulePrefix(id)) ==> HasPrefix(key, "rule:")
  {
    var p := RulePrefix(id);
    assert p[..5] == "rule:";
    if HasPrefix(key, p) {
      assert key[..|p|][..5] == key[..5];
    }
  }

  lemma UseKeepsGood(st: State, q: Request, now: nat, id: nat, userId: nat, cooldown: int, cap: int)
    requires Good(st, id, userId, cooldown, cap) && Foreign(q) && Timely(st, Use(q, now))
    ensures Good(st.(items := Apply(st.items, q), clock := now), id, userId, cooldown, cap)
  {
    ApplyKeeps(st.items, q);
    if |Apply(st.items, q)| == |st.items| {
      SameRowsKeepGood(st, Apply(st.items, q), now, id, userId, cooldown, cap);
    } else {
      var x := Apply(st.items, q)[|st.items|];
      RulePrefixesShareAStem(x.key, id);
      OtherRowKeepsGood(st, st.(items := Apply(st.items, q), clock := now), x, id, userId, cooldown, cap);
    }
  }

  lemma NextKeepsGood(st: State, e: Event, id: nat, userId: nat, cooldown: int, cap: int)
    requires Good(st, id, userId, cooldown, cap)
    requires !(e.Configure? && e.id == id)
    ensures Good(Next(st, e), id, userId, cooldown, cap)
  {
    if Timely(st, e) {
      match e
      case Evaluate(j, c) =>
        if j in st.rules {
          EvaluateKeepsGood(st, j, c, id, userId, cooldown, cap);
        }
      case Use(q, now) =>
        if Foreign(q) {
          UseKeepsGood(st, q, now, id, userId, cooldown, cap);
        }
      case Configure(_, _) =>
      case SetEnabled(_, _) =>
    }
  }

  lemma {:induction false} RunKeepsGood(st: State, es: seq<Event>, id: nat, userId: nat, cooldown: int, cap: int)
    requires Good(st, id, userId, cooldown, cap)
    requires forall k :: 0 <= k < |es| ==> !(es[k].Configure? && es[k].id == id)
    ensures Good(Run(st, es), id, userId, cooldown, cap)
    decreases |es|
  {
    if es != [] {
      RunKeepsGood(st, es[..|es| - 1], id, userId, cooldown, cap);
      NextKeepsGood(Run(st, es[..|es| - 1]), es[|es| - 1], id, userId, cooldown, cap);
    }
  }

  // ---------------------------------------------------------------- the guarantees

  /** A freshly configured rule that has produced nothing yet. */
  ghost predicate Fresh(st: State, id: nat) {
    && id in st.rules && 0 <= st.rules[id].maxPerHour
    && WellFormed(st.items) && (forall i :: i in st.unmarked ==> i < |st.items|)
    && forall i :: 0 <= i < |st.items| ==> st.items[i].createdAt <= st.clock && !From(st.items[i], id)
  }

  lemma {:induction false} NothingInWindow(items: seq<Item>, id: nat, start: int)
    requires forall i :: 0 <= i < |items| ==> !From(items[i], id)
    ensures WindowCount(items, id, start) == 0
  {
    if items != [] {
      NothingInWindow(items[..|items| - 1], id, start);
    }
  }

  lemma FreshIsGood(st: State, id: nat)
    requires Fresh(st, id)
    ensures Good(st, id, st.rules[id].userId, st.rules[id].cooldownMinutes, st.rules[id].maxPerHour)
  {
    forall start
      ensures WindowCount(st.items, id, start) <= st.rules[id].maxPerHour
    {
      NothingInWindow(st.items, id, start);
    }
  }

  /** The row was allowed at a moment no later than its creation, on the day in its key, outside quiet hours. */
  ghost predicate JudgedAwake(st: State, i: nat, id: nat, start: Option<string>, end: Option<string>)
    requires i < |st.items|
  {
    && i in st.judged && st.judged[i] <= st.items[i].createdAt
    && st.items[i].key == RuleKey(id, DayOf(st.judged[i]))
    && !QuietHoursActive(start, end, MinuteOfDay(st.judged[i]))
  }

  ghost predicate Considerate(st: State, id: nat, start: Option<string>, end: Option<string>) {
    && id in st.rules && st.rules[id].quietStart == start && st.rules[id].quietEnd == end
    && forall i :: 0 <= i < |st.items| && From(st.items[i], id) ==> JudgedAwake(st, i, id, start, end)
  }

  lemma EvaluateKeepsConsiderate(st: State, j: nat, c: Circumstance, id: nat, start: Option<string>, end: Option<string>)
    requires Considerate(st, id, start, end) && j in st.rules && c.judged <= c.written
    ensures Considerate(Evaluated(st, j, c).(clock := c.marked), id, start, end)
  {
    var next := Evaluated(st, j, c).(clock := c.marked);
    if Judge(st, j, c) == Fired {
      var x := Suggestion(st.rules[j], j, c);
      assert next.items == st.items + [x];
      forall i | 0 <= i < |next.items| && From(next.items[i], id)
        ensures JudgedAwake(next, i, id, start, end)
      {
        if i < |st.items| {
          assert JudgedAwake(st, i, id, start, end);
        } else {
          PrefixCountsOnlyItsRule(id, j, DayOf(c.judged));
        }
      }
    }
  }

  lemma UseKeepsConsiderate(st: State, q: Request, now: nat, id: nat, start: Option<string>, end: Option<string>)
    requires Considerate(st, id, start, end) && Foreign(q) && WellFormed(st.items)
    ensures Considerate(st.(items := Apply(st.items, q), clock := now), id, start, end)
  {
    var items := Apply(st.items, q);
    var next := st.(items := items, clock := now);
    ApplyKeeps(st.items, q);
    forall i | 0 <= i < |items| && From(items[i], id)
      ensures JudgedAwake(next, i, id, start, end)
    {
      if i < |st.items| {
        assert From(st.items[i], id) && JudgedAwake(st, i, id, start, end);
      } else {
        RulePrefixesShareAStem(items[i].key, id);
      }
    }
  }

  lemma NextKeepsConsiderate(st: State, e: Event, id: nat, start: Option<string>, end: Option<string>)
    requires Considerate(st, id, start, end) && WellFormed(st.items)
    requires !(e.Configure? && e.id == id)
    ensures Considerate(Next(st, e), id, start, end)
  {
    if Timely(st, e) {
      match e
      case Evaluate(j, c) =>
        if j in st.rules {
          EvaluateKeepsConsiderate(st, j, c, id, start, end);
        }
      case Use(q, now) =>
        if Foreign(q) {
          UseKeepsConsiderate(st, q, now, id, start, end);
        }
      case Configure(_, _) => SameRowsKeepConsiderate(st, Next(st, e), id, start, end);
      case SetEnabled(_, _) => SameRowsKeepConsiderate(st, Next(st, e), id, start, end);
    }
  }

  lemma SameRowsKeepConsiderate(st: State, st': State, id: nat, start: Option<string>, end: Option<string>)
    requires Considerate(st, id, start, end) && st'.items == st.items && st'.judged == st.judged
    requires id in st'.rules && st'.rules[id].quietStart == start && st'.rules[id].quietEnd == end
    ensures Considerate(st', id, start, end)
  {
    forall i | 0 <= i < |st'.items| && From(st'.items[i], id)
      ensures JudgedAwake(st', i, id, start, end)
    {
      assert JudgedAwake(st, i, id, start, end);
    }
  }

  lemma {:induction false} RunKeepsConsiderate(st: State, es: seq<Event>, id: nat)
    requires Fresh(st, id)
    requires forall k :: 0 <= k < |es| ==> !(es[k].Configure? && es[k].id == id)
    ensures Considerate(Run(st, es), id, st.rules[id].quietStart, st.rules[id].quietEnd)
    decreases |es|
  {
    if es != [] {
      var r := st.rules[id];
      RunKeepsConsiderate(st, es[..|es| - 1], id);
      FreshIsGood(st, id);
      RunKeepsGood(st, es[..|es| - 1], id, r.userId, r.cooldownMinutes, r.maxPerHour);
      NextKeepsConsiderate(Run(st, es[..|es| - 1]), es[|es| - 1], id, r.quietStart, r.quietEnd);
    }
  }

  /** Over any run of evaluations of any rules, toggles, edits of other rules and inbox activity, with this
      rule's settings fixed: its suggestions are at least the cooldown apart (after every firing that was
      recorded), no one-hour window holds more than the cap, each UTC day names at most one, and each was
      allowed outside the quiet hours. */
  lemma EveryRunIsPolite(st: State, es: seq<Event>, id: nat, i: nat, j: nat, start: int, day: nat)
    requires Fresh(st, id)
    requires forall k :: 0 <= k < |es| ==> !(es[k].Configure? && es[k].id == id)
    ensures var r, z := st.rules[id], Run(st, es);
            && (i < j < |z.items| && From(z.items[i], id) && From(z.items[j], id) && i !in z.unmarked ==>
                  z.items[j].createdAt >= z.items[i].createdAt + r.cooldownMinutes * RuleKeys.MINUTE)
            && WindowCount(z.items, id, start) <= r.maxPerHour
            && (i < j < |z.items| && z.items[i].key == RuleKey(id, day) ==> z.items[j].key != RuleKey(id, day))
    ensures var r, z := st.rules[id], Run(st, es);
            i < |z.items| && From(z.items[i], id) ==>
              && i in z.judged && z.judged[i] <= z.items[i].createdAt && z.items[i].key == RuleKey(id, DayOf(z.judged[i]))
              && !InQuietArc(r.quietStart, r.quietEnd, MinuteOfDay(z.judged[i]))
  {
    if i < |Run(st, es).items| && From(Run(st, es).items[i], id) {
      AllowedAwake(st, es, id, i);
    }
    FreshIsGood(st, id);
    var r, z := st.rules[id], Run(st, es);
    RunKeepsGood(st, es, id, r.userId, r.cooldownMinutes, r.maxPerHour);
    PrefixCountsOnlyItsRule(id, id, day);
    if i < j < |z.items| {
      assert (z.items[i].userId, z.items[i].key) != (z.items[j].userId, z.items[j].key);
    }
  }

  lemma AllowedAwake(st: State, es: seq<Event>, id: nat, i: nat)
    requires Fresh(st, id) && i < |Run(st, es).items| && From(Run(st, es).items[i], id)
    requires forall k :: 0 <= k < |es| ==> !(es[k].Configure? && es[k].id == id)
    ensures var r, z := st.rules[id], Run(st, es);
            && i in z.judged && z.judged[i] <= z.items[i].createdAt && z.items[i].key == RuleKey(id, DayOf(z.judged[i]))
            && !InQuietArc(r.quietStart, r.quietEnd, MinuteOfDay(z.judged[i]))
  {
    var r, z := st.rules[id], Run(st, es);
    RunKeepsConsiderate(st, es, id);
    assert JudgedAwake(z, i, id, r.quietStart, r.quietEnd);
    QuietIff(r.quietStart, r.quietEnd, MinuteOfDay(z.judged[i]));
  }

  /** The same in terms of the clock face: no suggestion was allowed inside the circular quiet interval. */
  lemma NoneAllowedInQuietArc(st: State, es: seq<Event>, id: nat, i: nat, start: string, end: string)
    requires Fresh(st, id) && st.rules[id].quietStart == Some(start) && st.rules[id].quietEnd == Some(end)
    requires ParseTime(start).Some? && ParseTime(end).Some?
    requires forall k :: 0 <= k < |es| ==> !(es[k].Configure? && es[k].id == id)
    requires i < |Run(st, es).items| && From(Run(st, es).items[i], id)
    ensures var z := Run(st, es);
            && i in z.judged && z.judged[i] <= z.items[i].createdAt
            && (MinuteOfDay(z.judged[i]) - ParseTime(start).value) % MINUTES_PER_DAY
               >= (ParseTime(end).value - ParseTime(start).value) % MINUTES_PER_DAY
  {
    RunKeepsConsiderate(st, es, id);
    assert JudgedAwake(Run(st, es), i, id, Some(start), Some(end));
    QuietHoursAreAnArc(start, end, MinuteOfDay(Run(st, es).judged[i]));
  }

  /** The rows of a rule created at or after a time. */
  ghost function RecentRows(items: seq<Item>, id: nat, since: int): set<nat> {
    set i: nat | i < |items| && HasPrefix(items[i].key, "rule:" + Digits(id) + ":") && items[i].createdAt >= since
  }

  lemma {:induction false} CountIsRecentRows(items: seq<Item>, id: nat, since: int)
    ensures CountSince(items, RulePrefix(id), since) == |RecentRows(items, id, since)|
  {
    if items == [] {
      assert RecentRows(items, id, since) == {};
    } else {
      var n := |items| - 1;
      CountIsRecentRows(items[..n], id, since);
      assert forall i: nat :: i < n ==> items[..n][i] == items[i];
      if HasPrefix(items[n].key, RulePrefix(id)) && items[n].createdAt >= since {
        assert RecentRows(items, id, since) == RecentRows(items[..n], id, since) + {n};
      } else {
        assert RecentRows(items, id, since) == RecentRows(items[..n], id, since);
      }
    }
  }

  /** The minute lies on the circular arc from start to end, where both are times of day. */
  ghost predicate InQuietArc(start: Option<string>, end: Option<string>, minute: nat) {
    start.Some? && end.Some? && ParseTime(start.value).Some? && ParseTime(end.value).Some?
    && (minute - ParseTime(start.value).value) % 1440 < (ParseTime(end.value).value - ParseTime(start.value).value) % 1440
  }

  lemma QuietIff(start: Option<string>, end: Option<string>, minute: nat)
    requires minute < 1440
    ensures QuietHoursActive(start, end, minute) <==> InQuietArc(start, end, minute)
  {
    if start.Some? && end.Some? && ParseTime(start.value).Some? && ParseTime(end.value).Some? {
      QuietHoursAreAnArc(start.value, end.value, minute);
    }
  }

  /** The outcome of an evaluation, from the fields of the rule, the rows of the inbox and the signal: the first
      reason not to fire, in this order, or else a firing. */
  lemma OutcomeIs(st: State, id: nat, c: Circumstance)
    requires id in st.rules
    ensures var r, outcome := st.rules[id], Judge(st, id, c);
            var quiet := InQuietArc(r.quietStart, r.quietEnd, MinuteOfDay(c.judged));
            var cooling := r.lastFiredAt.Some? && r.cooldownMinutes > 0 && c.judged < r.lastFiredAt.value + r.cooldownMinutes * 60;
            var capped := |RecentRows(st.items, id, c.judged - 3600)| >= r.maxPerHour;
            var signalled := c.signal.Some? && c.signal.value > 0;
            var taken := exists k :: 0 <= k < |st.items| && st.items[k].userId == r.userId
                                     && st.items[k].key == RuleKey(id, DayOf(c.judged));
            && (outcome == RuleDisabled <==> !r.enabled)
            && (outcome == QuietHours <==> r.enabled && quiet)
            && (outcome == Cooldown <==> r.enabled && !quiet && cooling)
            && (outcome == HourlyCap <==> r.enabled && !quiet && !cooling && capped)
            && (outcome == NoSignal <==> r.enabled && !quiet && !cooling && !capped && !signalled)
            && (outcome == Dedup <==> r.enabled && !quiet && !cooling && !capped && signalled && taken)
            && (outcome == Fired <==> r.enabled && !quiet && !cooling && !capped && signalled && !taken)
  {
    var r := st.rules[id];
    QuietIff(r.quietStart, r.quietEnd, MinuteOfDay(c.judged));
    CountIsRecentRows(st.items, id, c.judged - HOUR);
  }

  /** A firing adds one pending suggestion of the rule's kind that lives a day, and marks the rule; any other
      outcome changes nothing. */
  lemma EffectIs(st: State, id: nat, c: Circumstance)
    requires id in st.rules
    ensures var r, z := st.rules[id], Evaluated(st, id, c);
            if Judge(st, id, c) == Fired then
              && z.items == st.items + [Item(r.userId, RuleKey(id, DayOf(c.judged)), InboxKind(r.triggerType), "scheduler", None,
                                             Pending, None, Some(c.written + 86400), None, c.written, c.written)]
              && z.rules == (if c.markFails then st.rules else st.rules[id := r.(lastFiredAt := Some(c.marked))])
              && z.judged == st.judged[|st.items| := c.judged] && z.clock == st.clock
              && z.unmarked == (if c.markFails then st.unmarked + {|st.items|} else st.unmarked)
            else z == st
  {
  }

  /** What each event of a run does: an evaluation moves the clock on; editing a rule replaces its settings and
      keeps its firing time; switching it changes the switch; other producers use the inbox under keys of their own.
      Events whose times are out of order have no effect. */
  lemma EventIs(st: State, id: nat, c: Circumstance, settings: Rule, on: bool, q: Request, now: nat)
    ensures Next(st, Evaluate(id, c))
            == if id in st.rules && st.clock <= c.judged <= c.written <= c.marked
               then Evaluated(st, id, c).(clock := c.marked) else st
    ensures id in st.rules ==>
              && Next(st, Configure(id, settings))
                 == st.(rules := st.rules[id := settings.(lastFiredAt := st.rules[id].lastFiredAt)])
              && Next(st, SetEnabled(id, on)) == st.(rules := st.rules[id := st.rules[id].(enabled := on)])
    ensures id !in st.rules ==>
              && Next(st, Configure(id, settings)) == st.(rules := st.rules[id := settings.(lastFiredAt := None)])
              && Next(st, SetEnabled(id, on)) == st
    ensures Next(st, Use(q, now))
            == if st.clock <= now && (q.Create? ==> st.clock <= q.createdAt <= now && !HasPrefix(q.key, "rule:"))
               then st.(items := Apply(st.items, q), clock := now) else st
  {
  }

  lemma KindsAre(t: string)
    ensures InboxKind("review_due") == "review_due" && InboxKind("resource_new") == "resource_recommend"
    ensures InboxKind("goal_stalled") == "goal_nudge" && InboxKind("community_match") == "community_digest"
    ensures t !in ["review_due", "resource_new", "goal_stalled", "community_match"] ==> InboxKind(t) == "system_hint"
  {
    assert "review_due"[0] == 'r' && "review_due"[2] == 'v' && "resource_new"[2] == 's';
    assert "goal_stalled"[0] == 'g' && "community_match"[0] == 'c';
  }

  /** An edit is refused exactly when it would make a valid rule invalid. */
  lemma PatchRefusedIff(rule: Rule, p: Patch)
    requires ValidRule(rule)
    ensures ValidPatch(rule, p) <==> ValidRule(Patched(rule, p))
  {
  }

  lemma PatchedFields(rule: Rule, p: Patch)
    ensures var z := Patched(rule, p);
            && z.userId == rule.userId && z.enabled == rule.enabled && z.lastFiredAt == rule.lastFiredAt
            && (p.triggerType == None ==> z.triggerType == rule.triggerType)
            && (forall v :: p.triggerType == Some(v) ==> z.triggerType == v)
            && (p.quietStart == None ==> z.quietStart == rule.quietStart)
            && (forall v :: p.quietStart == Some(v) ==> z.quietStart == v)
            && (p.quietEnd == None ==> z.quietEnd == rule.quietEnd)
            && (forall v :: p.quietEnd == Some(v) ==> z.quietEnd == v)
            && (p.cooldownMinutes == None ==> z.cooldownMinutes == rule.cooldownMinutes)
            && (forall v :: p.cooldownMinutes == Some(v) ==> z.cooldownMinutes == v)
            && (p.maxPerHour == None ==> z.maxPerHour == rule.maxPerHour)
            && (forall v :: p.maxPerHour == Some(v) ==> z.maxPerHour == v)
  {
  }

  /** The rules that can be stored: a known trigger, times of day or none, and a cap from 1 to 60. */
  lemma ValidRuleIff(r: Rule)
    ensures ValidRule(r) <==>
            && r.triggerType in {"review_due", "exam_finished", "goal_stalled", "community_match", "resource_new"}
            && (r.quietStart.Some? ==> exists v :: 0 <= v < 1440 && r.quietStart.value == Clock(v / 60, v % 60))
            && (r.quietEnd.Some? ==> exists v :: 0 <= v < 1440 && r.quietEnd.value == Clock(v / 60, v % 60))
            && 1 <= r.maxPerHour <= 60
  {
    forall s: string
      ensures ParseTime(s).Some? <==> exists v :: 0 <= v < 1440 && s == Clock(v / 60, v % 60)
    {
      TimeIff(s);
    }
  }

  lemma TimeIff(s: string)
    ensures ParseTime(s).Some? <==> exists v :: 0 <= v < 1440 && s == Clock(v / 60, v % 60)
  {
    if ParseTime(s).Some? {
      ParseTimeIff(s, ParseTime(s).value);
    }
    if v :| 0 <= v < 1440 && s == Clock(v / 60, v % 60) {
      ParseTimeIff(s, v);
    }
  }

  /** A firing is followed by its whole cooldown exactly when it was marked, or there is none to follow. */
  lemma FiringStartsCooldownIff(st: State, id: nat, c: Circumstance)
    requires id in st.rules && Judge(st, id, c) == Fired && c.judged <= c.written <= c.marked
    ensures var rule := Evaluated(st, id, c).rules[id];
            (forall t :: c.written <= t < c.written + rule.cooldownMinutes * RuleKeys.MINUTE ==>
                           InCooldown(rule.lastFiredAt, rule.cooldownMinutes, t))
            <==> !c.markFails || rule.cooldownMinutes <= 0
  {
    var rule := Evaluated(st, id, c).rules[id];
    if c.markFails && rule.cooldownMinutes > 0 {
      assert !InCooldown(rule.lastFiredAt, rule.cooldownMinutes, c.written);
    }
  }

  /** A rule with a cooldown of two days, about to be evaluated for the first time. */
  function Newborn(): State {
    State(map[1 := Rule(7, "review_due", None, None, 2 * 24 * 60, 3, true, None)], [], {}, map[], 0)
  }

  function FiresAt(time: nat, markFails: bool): Event {
    Evaluate(1, Circumstance(Some(1), time, time, time, markFails))
  }

  /** Why only recorded firings are spaced: when the mark fails, the next day's evaluation fires again, inside
      the cooldown. With the mark in place it stays silent. */
  lemma UnmarkedFiringIsNotSpaced()
    ensures Fresh(Newborn(), 1)
    ensures var z := Run(Newborn(), [FiresAt(0, true)] + [FiresAt(DAY, false)]);
            && |z.items| == 2 && From(z.items[0], 1) && From(z.items[1], 1) && 0 in z.unmarked
            && z.items[1].createdAt < z.items[0].createdAt + Newborn().rules[1].cooldownMinutes * RuleKeys.MINUTE
    ensures |Run(Newborn(), [FiresAt(0, false)] + [FiresAt(DAY, false)]).items| == 1
  {
    FirstFiring(true);
    FirstFiring(false);
    RunExtend(Newborn(), [FiresAt(0, true)], FiresAt(DAY, false));
    RunExtend(Newborn(), [FiresAt(0, false)], FiresAt(DAY, false));
    SecondFiring();
    PrefixCountsOnlyItsRule(1, 1, DayOf(0));
    PrefixCountsOnlyItsRule(1, 1, DayOf(DAY));
  }

  /** A marked rule is silent within its cooldown and fires again once it is over. */
  lemma FiresAgainAfterCooldown()
    ensures |Run(Newborn(), [FiresAt(0, false)] + [FiresAt(2 * DAY, false)]).items| == 2
  {
    FirstFiring(false);
    RunExtend(Newborn(), [FiresAt(0, false)], FiresAt(2 * DAY, false));
    var marked := Evaluated(Newborn(), 1, FiresAt(0, false).c).(clock := 0);
    var x := Suggestion(Newborn().rules[1], 1, FiresAt(0, false).c);
    assert marked.items == [x];
    OtherDay(DayOf(0), DayOf(2 * DAY));
    RestedRuleFires(marked, x, FiresAt(2 * DAY, false).c);
  }

  lemma RestedRuleFires(st: State, x: Item, c: Circumstance)
    requires st.items == [x] && x.createdAt < c.judged - HOUR && x.key != RuleKey(1, DayOf(c.judged))
    requires 1 in st.rules && st.rules[1].enabled && st.rules[1].maxPerHour > 0
    requires st.rules[1].lastFiredAt.Some? && c.judged >= st.rules[1].lastFiredAt.value + st.rules[1].cooldownMinutes * 60
    requires st.rules[1].quietStart == None && c.signal.Some? && c.signal.value > 0
    ensures Judge(st, 1, c) == Fired
  {
    OutcomeIs(st, 1, c);
    assert RecentRows(st.items, 1, c.judged - 3600) == {};
  }

  lemma RunExtend(st: State, es: seq<Event>, e: Event)
    ensures Run(st, es + [e]) == Next(Run(st, es), e)
  {
    assert (es + [e])[..|es|] == es;
  }

  lemma FirstFiring(markFails: bool)
    ensures var z := Run(Newborn(), [FiresAt(0, markFails)]);
            && z == Evaluated(Newborn(), 1, FiresAt(0, markFails).c).(clock := 0)
            && Judge(Newborn(), 1, FiresAt(0, markFails).c) == Fired
  {
    assert [] + [FiresAt(0, markFails)] == [FiresAt(0, markFails)];
    RunExtend(Newborn(), [], FiresAt(0, markFails));
  }

  lemma SecondFiring()
    ensures var first := Evaluated(Newborn(), 1, FiresAt(0, true).c).(clock := 0);
            Judge(first, 1, FiresAt(DAY, false).c) == Fired
    ensures var marked := Evaluated(Newborn(), 1, FiresAt(0, false).c).(clock := 0);
            Judge(marked, 1, FiresAt(DAY, false).c) == Cooldown
  {
    var first := Evaluated(Newborn(), 1, FiresAt(0, true).c).(clock := 0);
    var x := Suggestion(Newborn().rules[1], 1, FiresAt(0, true).c);
    assert first.items == [x];
    OtherDay(DayOf(0), DayOf(DAY));
    FiresBesideOldRow(first, x, FiresAt(DAY, false).c);
  }

  lemma OtherDay(a: nat, b: nat)
    requires a != b
    ensures RuleKey(1, a) != RuleKey(1, b)
  {
    if RuleKey(1, a) == RuleKey(1, b) {
      RuleKeyIdentifiesRuleAndDay(1, a, 1, b);
    }
  }

  /** One row of another day, more than an hour old, holds back nothing. */
  lemma FiresBesideOldRow(st: State, x: Item, c: Circumstance)
    requires st.items == [x] && x.createdAt < c.judged - HOUR && x.key != RuleKey(1, DayOf(c.judged))
    requires 1 in st.rules && st.rules[1].enabled && st.rules[1].lastFiredAt == None && st.rules[1].maxPerHour > 0
    requires st.rules[1].quietStart == None && c.signal.Some? && c.signal.value > 0
    ensures Judge(st, 1, c) == Fired
  {
    assert CountSince([x][..0], RulePrefix(1), c.judged - HOUR) == 0;
    assert CountSince([x], RulePrefix(1), c.judged - HOUR) == 0;
  }

  /** Inside the quiet arc an evaluation changes nothing at all. */
  lemma QuietMeansSilent(st: State, id: nat, c: Circumstance, start: string, end: string)
    requires id in st.rules && st.rules[id].quietStart == Some(start) && st.rules[id].quietEnd == Some(end)
    requires ParseTime(start).Some? && ParseTime(end).Some?
    requires (MinuteOfDay(c.judged) - ParseTime(start).value) % MINUTES_PER_DAY
             < (ParseTime(end).value - ParseTime(start).value) % MINUTES_PER_DAY
    ensures Evaluated(st, id, c) == st
  {
    QuietHoursAreAnArc(start, end, MinuteOfDay(c.judged));
  }

  /** A second evaluation on the same UTC day adds nothing, whatever happened to the first suggestion. */
  lemma SecondEvaluationOfDayAddsNothing(st: State, id: nat, c: Circumstance, c': Circumstance)
    requires id in st.rules && Judge(st, id, c) == Fired && DayOf(c'.judged) == DayOf(c.judged)
    ensures Evaluated(Evaluated(st, id, c), id, c') == Evaluated(st, id, c)
  {
    var next := Evaluated(st, id, c);
    var n := |st.items|;
    assert next.items[n].userId == st.rules[id].userId && next.items[n].key == RuleKey(id, DayOf(c.judged));
    assert HasKey(next.items, st.rules[id].userId, RuleKey(id, DayOf(c.judged)));
  }
}
