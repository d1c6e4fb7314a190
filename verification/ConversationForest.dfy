/** Conversations, branches and soft deletion: create, fork, archive and delete over one table of rows. */
module ConversationForest {
  import opened Prelude

  datatype Conversation = Conversation(
    userId: nat, title: string, parent: Option<nat>, root: Option<nat>, forkedFrom: Option<nat>,
    archivedAt: Option<int>, deletedAt: Option<int>, updatedAt: int)

  datatype Message = Message(
    id: nat, conversationId: nat, role: string, content: string, toolCalls: Option<string>, createdAt: int)

  /** Rows by primary key. */
  type Table = map<nat, Conversation>

  datatype Db = Db(table: Table, messages: seq<Message>, nextId: nat, nextMessageId: nat)

  datatype Error = NotFound | ForeignMessage | ActiveChildren

  const NEW_TITLE := "新会话"
  const BRANCH_SUFFIX := "（分支）"
  const TITLE_LIMIT := 200

  // ---------------------------------------------------------------- the parent chain

  /** The row reached by following `n` parent pointers, if there is one. */
  ghost function Up(t: Table, id: nat, n: nat): Option<nat>
    decreases n
  {
    if id !in t then None
    else if n == 0 then Some(id)
    else match t[id].parent
      case None => None
      case Some(p) => Up(t, p, n - 1)
  }

  /** `d` is a strict descendant of `a`: some positive number of parent steps leads from `d` to `a`. */
  ghost predicate Descends(t: Table, d: nat, a: nat) {
    exists n: nat :: n > 0 && Up(t, d, n) == Some(a)
  }

  function Truncate(s: string): string {
    if |s| <= TITLE_LIMIT then s else s[..TITLE_LIMIT]
  }

  /** Python's `root_conversation_id or id`: a missing or zero id falls through. */
  function RootOr(c: Conversation, id: nat): nat {
    if c.root.Some? && c.root.value != 0 then c.root.value else id
  }

  ghost predicate Linked(t: Table, id: nat)
    requires id in t
  {
    match t[id].parent
    case None => t[id].root == None
    case Some(p) =>
      && p in t && p < id
      && t[p].userId == t[id].userId
      && t[id].root == Some(RootOr(t[p], p))
  }

  /** What `fork_conversation` maintains and `delete_conversation` silently relies on. */
  ghost predicate Forest(t: Table, nextId: nat) {
    && nextId >= 1
    && forall id :: id in t ==> 1 <= id < nextId && Linked(t, id)
  }

  /** A live row never hangs directly below a deleted one. */
  ghost predicate LiveParents(t: Table) {
    forall id :: id in t && t[id].deletedAt == None && t[id].parent.Some? && t[id].parent.value in t
                 ==> t[t[id].parent.value].deletedAt == None
  }

  lemma {:induction false} AncestorIsOlder(t: Table, nextId: nat, d: nat, a: nat, n: nat)
    requires Forest(t, nextId) && n > 0 && Up(t, d, n) == Some(a)
    ensures a in t && a < d && t[a].userId == t[d].userId
  {
    if n > 1 {
      AncestorIsOlder(t, nextId, t[d].parent.value, a, n - 1);
    } else {
      assert Up(t, t[d].parent.value, 0) == Some(a);
    }
  }

  lemma {:induction false} UpExtends(t: Table, d: nat, p: nat, a: nat, n: nat)
    requires d in t && t[d].parent == Some(p) && Up(t, p, n) == Some(a)
    ensures Up(t, d, n + 1) == Some(a)
    ensures Descends(t, d, a)
  {
  }

  /** The root link of every row names the end of its own parent chain. */
  lemma {:induction false} RootIsTopOfChain(t: Table, nextId: nat, id: nat)
    requires Forest(t, nextId) && id in t
    ensures exists n: nat :: Up(t, id, n) == Some(RootOr(t[id], id))
    ensures RootOr(t[id], id) in t && t[RootOr(t[id], id)].parent == None
    decreases id
  {
    match t[id].parent
    case None =>
      assert Up(t, id, 0) == Some(id);
    case Some(p) =>
      RootIsTopOfChain(t, nextId, p);
      var n: nat :| Up(t, p, n) == Some(RootOr(t[p], p));
      assert Up(t, id, n + 1) == Some(RootOr(t[p], p));
  }

  lemma {:induction false} LiveChain(t: Table, nextId: nat, d: nat, a: nat, n: nat)
    requires Forest(t, nextId) && LiveParents(t) && Up(t, d, n) == Some(a)
    requires t[d].deletedAt == None
    ensures a in t && t[a].deletedAt == None
  {
    if n > 0 {
      LiveChain(t, nextId, t[d].parent.value, a, n - 1);
    }
  }

  /** No live conversation has a deleted ancestor, at any distance. */
  lemma NoLiveBelowDeleted(t: Table, nextId: nat, d: nat, a: nat)
    requires Forest(t, nextId) && LiveParents(t) && Descends(t, d, a)
    requires t[d].deletedAt == None
    ensures a in t && t[a].deletedAt == None
  {
    var n: nat :| n > 0 && Up(t, d, n) == Some(a);
    AncestorIsOlder(t, nextId, d, a, n);
    LiveChain(t, nextId, d, a, n);
  }

  // ---------------------------------------------------------------- children, grouped by parent

  ghost predicate IsChild(t: Table, userId: nat, parent: Option<nat>, c: nat) {
    c in t && t[c].userId == userId && t[c].parent == parent
  }

  function ChildrenOf(byParent: map<Option<nat>, seq<nat>>, parent: Option<nat>): seq<nat> {
    if parent in byParent then byParent[parent] else []
  }

  /** `kids` holds, once each, the ids below `bound` that are children of `parent`. */
  ghost predicate ChildList(t: Table, userId: nat, parent: Option<nat>, bound: nat, kids: seq<nat>) {
    && Distinct(kids)
    && forall c: nat :: c in kids <==> IsChild(t, userId, parent, c) && c < bound
  }

  /** A visited list closed under children contains the whole subtree. */
  lemma {:induction false} ClosedWalkIsComplete(t: Table, nextId: nat, id: nat, seen: seq<nat>, x: nat, n: nat)
    requires Forest(t, nextId) && id in t && n > 0 && Up(t, x, n) == Some(id)
    requires forall p: nat, c: nat :: (p == id || p in seen) && IsChild(t, t[id].userId, Some(p), c) ==> c in seen
    ensures x in seen
  {
    var p := t[x].parent.value;
    AncestorIsOlder(t, nextId, x, id, n);
    assert IsChild(t, t[id].userId, Some(p), x);
    if n > 1 {
      ClosedWalkIsComplete(t, nextId, id, seen, p, n - 1);
    } else {
      assert Up(t, p, 0) == Some(id);
    }
  }

  // ---------------------------------------------------------------- what each operation does to the table

  function Fresh(userId: nat, now: int): Conversation {
    Conversation(userId, NEW_TITLE, None, None, None, None, None, now)
  }

  function BranchTitle(source: Conversation, title: Option<string>): string {
    Truncate(if title.Some? && title.value != "" then title.value else source.title + BRANCH_SUFFIX)
  }

  function Branch(t: Table, source: nat, from: Option<nat>, title: Option<string>, now: int): Conversation
    requires source in t
  {
    Conversation(t[source].userId, BranchTitle(t[source], title), Some(source),
                 Some(RootOr(t[source], source)), from, None, None, now)
  }

  predicate InSnapshot(m: Message, source: nat, from: Option<nat>) {
    m.conversationId == source && (from == None || m.id <= from.value)
  }

  /** The messages of `source` up to and including `from`, in table order. */
  function Snapshot(ms: seq<Message>, source: nat, from: Option<nat>): seq<Message> {
    if ms == [] then []
    else
      Snapshot(ms[..|ms| - 1], source, from)
      + (if InSnapshot(ms[|ms| - 1], source, from) then [ms[|ms| - 1]] else [])
  }

  function Copies(ms: seq<Message>, branch: nat, firstId: nat): (r: seq<Message>)
    ensures |r| == |ms|
  {
    seq(|ms|, i requires 0 <= i < |ms| => ms[i].(id := firstId + i, conversationId := branch))
  }

  ghost predicate OwnsMessage(ms: seq<Message>, source: nat, from: nat) {
    exists i :: 0 <= i < |ms| && ms[i].conversationId == source && ms[i].id == from
  }

  ghost predicate CanFork(db: Db, source: nat, from: Option<nat>) {
    source in db.table && (from.Some? ==> OwnsMessage(db.messages, source, from.value))
  }

  ghost function Forked(db: Db, source: nat, from: Option<nat>, title: Option<string>, now: int): Db
    requires source in db.table
  {
    var kept := Snapshot(db.messages, source, from);
    Db(db.table[db.nextId := Branch(db.table, source, from, title, now)],
       db.messages + Copies(kept, db.nextId, db.nextMessageId),
       db.nextId + 1, db.nextMessageId + |kept|)
  }

  function Created(db: Db, userId: nat, content: string, now: int): Db {
    Db(db.table[db.nextId := Fresh(userId, now)],
       db.messages + [Message(db.nextMessageId, db.nextId, "user", content, None, now)],
       db.nextId + 1, db.nextMessageId + 1)
  }

  function Stamped(c: Conversation, timestamp: int): Conversation {
    if c.deletedAt == None
    then c.(deletedAt := Some(timestamp), archivedAt := Some(timestamp), updatedAt := timestamp)
    else c
  }

  ghost predicate Target(t: Table, id: nat, cascade: bool, x: nat) {
    x == id || (cascade && Descends(t, x, id))
  }

  ghost predicate HasLiveDescendant(t: Table, id: nat) {
    exists x :: x in t && Descends(t, x, id) && t[x].deletedAt == None
  }

  ghost function Deleted(t: Table, id: nat, cascade: bool, timestamp: int): (r: Table)
    ensures r.Keys == t.Keys
  {
    map x | x in t :: if Target(t, id, cascade, x) then Stamped(t[x], timestamp) else t[x]
  }

  /** The rows the returned count ranges over: targets that now carry exactly this timestamp. */
  ghost function CarryingStamp(t: Table, id: nat, cascade: bool, timestamp: int): set<nat> {
    set x | x in t && Target(t, id, cascade, x) && Stamped(t[x], timestamp).deletedAt == Some(timestamp)
  }

  /** They are the rows the call ranges over that carry the timestamp afterwards. */
  lemma CarryingStampIs(t: Table, id: nat, cascade: bool, timestamp: int)
    ensures CarryingStamp(t, id, cascade, timestamp)
            == set x | x in t && (x == id || (cascade && Descends(t, x, id)))
                       && Deleted(t, id, cascade, timestamp)[x].deletedAt == Some(timestamp)
  {
  }

  ghost function NewlyDeleted(t: Table, id: nat, cascade: bool): set<nat> {
    set x | x in t && Target(t, id, cascade, x) && t[x].deletedAt == None
  }

  /** The returned count is the number of rows deleted by this call, unless a target had
      already been deleted at the very same instant. */
  lemma CountIsNewlyDeletedIff(t: Table, id: nat, cascade: bool, timestamp: int)
    ensures |CarryingStamp(t, id, cascade, timestamp)| == |NewlyDeleted(t, id, cascade)|
            <==> forall x :: x in t && Target(t, id, cascade, x) ==> t[x].deletedAt != Some(timestamp)
  {
    var all, added := CarryingStamp(t, id, cascade, timestamp), NewlyDeleted(t, id, cascade);
    assert added <= all;
    var earlier := all - added;
    assert all == added + earlier;
    assert |all| == |added| + |earlier|;
    if earlier != {} {
      var x :| x in earlier;
      assert t[x].deletedAt == Some(timestamp);
    }
    forall x | x in t && Target(t, id, cascade, x) && t[x].deletedAt == Some(timestamp)
      ensures x in earlier
    {
    }
  }

  // ---------------------------------------------------------------- the service

  /** The conversation half of the learning-assistant service, over its tables. */
  class ConversationService {
    var table: Table
    var messages: seq<Message>
    var nextId: nat
    var nextMessageId: nat

    ghost function State(): Db
      reads this
    {
      Db(table, messages, nextId, nextMessageId)
    }

    constructor ()
      ensures State() == EmptyDb()
    {
      table, messages, nextId, nextMessageId := map[], [], 1, 1;
    }

    method CreateConversationWithUserMessage(userId: nat, content: string, now: int) returns (id: nat)
      modifies this
      ensures id == old(nextId) && State() == Created(old(State()), userId, content, now)
    {
      id := nextId;
      table := table[id := Fresh(userId, now)];
      nextId := nextId + 1;
      messages := messages + [Message(nextMessageId, id, "user", content, None, now)];
      nextMessageId := nextMessageId + 1;
    }

    /** Copies the source's transcript up to a message into a new branch row. */
    method ForkConversation(source: nat, from: Option<nat>, title: Option<string>, now: int)
      returns (r: Result<(nat, nat), Error>)
      requires source in table
      modifies this
      ensures r.Ok? <==> from.None? || exists i :: 0 <= i < |old(messages)| && old(messages)[i].conversationId == source
                                                   && old(messages)[i].id == from.value
      ensures r.Ok? ==> State() == Forked(old(State()), source, from, title, now)
      ensures r.Ok? ==> r.value == (old(nextId), |messages| - |old(messages)|)
      ensures r.Ok? ==> nextId == old(nextId) + 1 && nextMessageId == old(nextMessageId) + |messages| - |old(messages)|
      ensures r.Err? ==> r.error == ForeignMessage && State() == old(State())
    {
      var kept: seq<Message> := [];
      var i, found := 0, false;
      while i < |messages|
        invariant 0 <= i <= |messages| && unchanged(this)
        invariant kept == Snapshot(messages[..i], source, from)
        invariant found <==> from.Some? && OwnsMessage(messages[..i], source, from.value)
      {
        assert messages[..i + 1][..i] == messages[..i];
        if from.Some? && messages[i].conversationId == source && messages[i].id == from.value {
          found := true;
          assert messages[..i + 1][i].id == from.value;
        } else if from.Some? {
          OwnsMessageStep(messages, source, from.value, i);
        }
        if InSnapshot(messages[i], source, from) {
          kept := kept + [messages[i]];
        }
        i := i + 1;
      }
      assert messages[..i] == messages;
      if from.Some? && !found {
        return Err(ForeignMessage);
      }
      var branch := nextId;
      table := table[branch := Branch(table, source, from, title, now)];
      nextId := nextId + 1;
      ghost var before, firstId := messages, nextMessageId;
      i := 0;
      while i < |kept|
        invariant 0 <= i <= |kept| && nextMessageId == firstId + i
        invariant messages == before + Copies(kept, branch, firstId)[..i]
        invariant table == old(table)[branch := Branch(old(table), source, from, title, now)]
        invariant nextId == old(nextId) + 1
      {
        messages := messages + [kept[i].(id := nextMessageId, conversationId := branch)];
        nextMessageId := nextMessageId + 1;
        i := i + 1;
      }
      r := Ok((branch, |kept|));
    }

    method SetArchived(id: nat, archived: bool, now: int)
      requires id in table
      modifies this
      ensures State() == old(State()).(table := Archived(old(table), id, archived, now))
    {
      table := table[id := table[id].(archivedAt := if archived then Some(now) else None, updatedAt := now)];
    }

    /** One pass over the user's rows in id order, bucketing them by parent. */
    method GroupByParent(userId: nat) returns (byParent: map<Option<nat>, seq<nat>>)
      requires Forest(table, nextId)
      ensures forall p :: ChildList(table, userId, p, nextId, ChildrenOf(byParent, p))
    {
      byParent := map[];
      var id := 0;
      while id < nextId
        invariant 0 <= id <= nextId
        invariant forall p :: ChildList(table, userId, p, id, ChildrenOf(byParent, p))
      {
        if id in table && table[id].userId == userId {
          var p := table[id].parent;
          ghost var before := byParent;
          byParent := byParent[p := ChildrenOf(byParent, p) + [id]];
          forall q
            ensures ChildList(table, userId, q, id + 1, ChildrenOf(byParent, q))
          {
            assert ChildList(table, userId, q, id, ChildrenOf(before, q));
            if q == p {
              DistinctAppend(ChildrenOf(before, q), [id]);
            }
          }
        } else {
          forall q
            ensures ChildList(table, userId, q, id + 1, ChildrenOf(byParent, q))
          {
            assert ChildList(table, userId, q, id, ChildrenOf(byParent, q));
          }
        }
        id := id + 1;
      }
    }

    /** The queue walk of `delete_conversation`. It keeps no visited set. */
    method Descendants(id: nat) returns (descendants: seq<nat>)
      requires Forest(table, nextId) && id in table
      ensures Distinct(descendants)
      ensures forall x :: x in descendants <==> Descends(table, x, id)
    {
      var userId := table[id].userId;
      var byParent := GroupByParent(userId);
      assert ChildList(table, userId, Some(id), nextId, ChildrenOf(byParent, Some(id)));
      descendants := [];
      var queue: seq<nat> := ChildrenOf(byParent, Some(id));
      forall x | x in queue
        ensures Descends(table, x, id)
      {
        assert Up(table, id, 0) == Some(id);
        UpExtends(table, x, id, id, 0);
      }
      while queue != []
        invariant Walking(table, userId, id, descendants, queue)
        decreases table.Keys - Elements(descendants)
      {
        var child: nat := queue[0];
        var kids := ChildrenOf(byParent, Some(child));
        WalkStep(table, nextId, id, descendants, queue, kids);
        descendants := descendants + [child];
        queue := queue[1..] + kids;
        assert child in Elements(descendants);
      }
      assert descendants + queue == descendants;
      forall x | Descends(table, x, id)
        ensures x in descendants
      {
        var n: nat :| n > 0 && Up(table, x, n) == Some(id);
        ClosedWalkIsComplete(table, nextId, id, descendants, x, n);
      }
    }

    /** Soft deletion of one conversation, or of its whole subtree. */
    method DeleteConversation(id: nat, cascade: bool, timestamp: int) returns (r: Result<nat, Error>)
      requires Forest(table, nextId) && id in table
      modifies this`table
      ensures r.Err? <==> !cascade && exists x :: x in old(table) && Descends(old(table), x, id) && old(table)[x].deletedAt == None
      ensures r.Err? ==> r.error == ActiveChildren && table == old(table)
      ensures r.Ok? ==> table == Deleted(old(table), id, cascade, timestamp)
      ensures r.Ok? ==> r.value == |CarryingStamp(old(table), id, cascade, timestamp)|
    {
      ghost var t := table;
      var descendants := Descendants(id);
      var active := AnyLive(descendants, id);
      if active && !cascade {
        return Err(ActiveChildren);
      }
      var targets := if cascade then [id] + descendants else [id];
      TargetsAreExact(t, nextId, id, cascade, descendants, targets);
      Stamp(targets, timestamp);
      StampedTargets(t, table, targets, id, cascade, timestamp);
      var count := CountStamped(targets, timestamp);
      r := Ok(count);
    }

    method AnyLive(descendants: seq<nat>, ghost id: nat) returns (active: bool)
      requires forall x :: x in descendants <==> Descends(table, x, id)
      ensures active <==> HasLiveDescendant(table, id)
    {
      active := false;
      var i := 0;
      while i < |descendants|
        invariant 0 <= i <= |descendants|
        invariant active <==> exists x :: x in descendants[..i] && x in table && table[x].deletedAt == None
      {
        assert descendants[..i + 1] == descendants[..i] + [descendants[i]];
        assert Descends(table, descendants[i], id);
        active := active || table[descendants[i]].deletedAt == None;
        i := i + 1;
      }
      assert descendants[..i] == descendants;
    }

    method Stamp(targets: seq<nat>, timestamp: int)
      requires forall x :: x in targets ==> x in table
      modifies this`table
      ensures table.Keys == old(table).Keys
      ensures forall x :: x in table ==>
                table[x] == if x in targets then Stamped(old(table)[x], timestamp) else old(table)[x]
    {
      ghost var t := table;
      var i := 0;
      while i < |targets|
        invariant 0 <= i <= |targets|
        invariant table.Keys == t.Keys
        invariant forall x :: x in t ==> table[x] == if x in targets[..i] then Stamped(t[x], timestamp) else t[x]
      {
        var target := targets[i];
        if table[target].deletedAt == None {
          table := table[target := table[target].(deletedAt := Some(timestamp), archivedAt := Some(timestamp),
                                                  updatedAt := timestamp)];
        }
        assert targets[..i + 1] == targets[..i] + [target];
        i := i + 1;
      }
      assert targets[..i] == targets;
    }

    method CountStamped(targets: seq<nat>, timestamp: int) returns (count: nat)
      requires Distinct(targets) && forall x :: x in targets ==> x in table
      ensures count == |set x | x in targets && table[x].deletedAt == Some(timestamp)|
    {
      count := 0;
      ghost var counted: set<nat> := {};
      var i := 0;
      while i < |targets|
        invariant 0 <= i <= |targets| && count == |counted|
        invariant counted == set x | x in targets[..i] && table[x].deletedAt == Some(timestamp)
      {
        assert targets[..i + 1] == targets[..i] + [targets[i]];
        if table[targets[i]].deletedAt == Some(timestamp) {
          assert targets[i] !in targets[..i];
          count, counted := count + 1, counted + {targets[i]};
        }
        i := i + 1;
      }
      assert targets[..i] == targets;
    }
  }

  /** Stamping exactly the targets is the deletion, and counts the rows that carry the stamp. */
  lemma StampedTargets(t: Table, t': Table, targets: seq<nat>, id: nat, cascade: bool, timestamp: int)
    requires t'.Keys == t.Keys && forall x :: x in targets ==> x in t
    requires forall x :: x in t ==> t'[x] == if x in targets then Stamped(t[x], timestamp) else t[x]
    requires forall x :: x in targets <==> Target(t, id, cascade, x)
    ensures t' == Deleted(t, id, cascade, timestamp)
    ensures (set x | x in targets && t'[x].deletedAt == Some(timestamp)) == CarryingStamp(t, id, cascade, timestamp)
  {
  }

  /** The list the service stamps is exactly the target set, without repetition. */
  lemma TargetsAreExact(t: Table, nextId: nat, id: nat, cascade: bool, descendants: seq<nat>, targets: seq<nat>)
    requires Forest(t, nextId) && id in t && Distinct(descendants)
    requires forall x :: x in descendants <==> Descends(t, x, id)
    requires targets == if cascade then [id] + descendants else [id]
    ensures Distinct(targets)
    ensures forall x :: x in targets <==> Target(t, id, cascade, x)
    ensures forall x :: x in targets ==> x in t
  {
    forall x: nat | Descends(t, x, id)
      ensures x != id && x in t
    {
      var n: nat :| n > 0 && Up(t, x, n) == Some(id);
      AncestorIsOlder(t, nextId, x, id, n);
    }
    DistinctAppend([id], descendants);
  }

  ghost predicate Listed(t: Table, id: nat, descendants: seq<nat>, x: nat) {
    x in t && x > id && Descends(t, x, id) && t[x].parent.Some?
    && (t[x].parent.value == id || t[x].parent.value in descendants)
  }

  /** Children of anything in `expanded` are in `reached`. */
  ghost predicate Expanded(t: Table, userId: nat, id: nat, expanded: seq<nat>, reached: seq<nat>) {
    forall p: nat, c: nat :: (p == id || p in expanded) && IsChild(t, userId, Some(p), c) ==> c in reached
  }

  /** The state of the walk: everything listed or queued is a descendant listed once, whose
      parent is already listed, and every child of a listed row is itself listed or queued. */
  ghost predicate Walking(t: Table, userId: nat, id: nat, descendants: seq<nat>, queue: seq<nat>) {
    && Distinct(descendants + queue)
    && (forall x :: x in descendants + queue ==> Listed(t, id, descendants, x))
    && Expanded(t, userId, id, descendants, descendants + queue)
  }

  lemma WalkStep(t: Table, nextId: nat, id: nat, descendants: seq<nat>, queue: seq<nat>, kids: seq<nat>)
    requires Forest(t, nextId) && id in t && queue != []
    requires Walking(t, t[id].userId, id, descendants, queue)
    requires ChildList(t, t[id].userId, Some(queue[0]), nextId, kids)
    ensures queue[0] in t && queue[0] !in descendants
    ensures Walking(t, t[id].userId, id, descendants + [queue[0]], queue[1..] + kids)
  {
    var child, all := queue[0], descendants + queue;
    var listed := descendants + [child];
    assert all[|descendants|] == child && all[..|descendants|] == descendants;
    NotEarlier(all, |descendants|);
    assert Listed(t, id, descendants, child);
    forall k | k in kids
      ensures Listed(t, id, listed, k) && k !in all
    {
      assert k in all ==> Listed(t, id, descendants, k);
      NewKid(t, nextId, id, descendants, child, k);
    }
    DistinctAppend(all, kids);
    assert listed + (queue[1..] + kids) == all + kids;
    forall x | x in all + kids
      ensures Listed(t, id, listed, x)
    {
      assert x in all ==> Listed(t, id, descendants, x);
    }
    forall p: nat, c: nat | (p == id || p in listed) && IsChild(t, t[id].userId, Some(p), c)
      ensures c in all + kids
    {
      assert p == id || p in descendants ==> c in all;
      assert p == child ==> c in kids;
    }
  }

  /** A child of a row still in the queue cannot have been reached before: its parent is not listed. */
  lemma NewKid(t: Table, nextId: nat, id: nat, descendants: seq<nat>, child: nat, k: nat)
    requires Forest(t, nextId) && id in t
    requires Listed(t, id, descendants, child) && child !in descendants
    requires IsChild(t, t[id].userId, Some(child), k)
    ensures Listed(t, id, descendants + [child], k) && !Listed(t, id, descendants, k)
  {
    var n: nat :| n > 0 && Up(t, child, n) == Some(id);
    UpExtends(t, k, child, id, n);
  }

  lemma OwnsMessageStep(ms: seq<Message>, source: nat, from: nat, i: nat)
    requires i < |ms| && !(ms[i].conversationId == source && ms[i].id == from)
    ensures OwnsMessage(ms[..i + 1], source, from) <==> OwnsMessage(ms[..i], source, from)
  {
    if OwnsMessage(ms[..i], source, from) {
      var j :| 0 <= j < i && ms[..i][j].conversationId == source && ms[..i][j].id == from;
      assert ms[..i + 1][j].id == from;
    }
    if OwnsMessage(ms[..i + 1], source, from) {
      var j :| 0 <= j < i + 1 && ms[..i + 1][j].conversationId == source && ms[..i + 1][j].id == from;
      assert ms[..i][j].id == from;
    }
  }

  function EmptyDb(): Db {
    Db(map[], [], 1, 1)
  }

  function Archived(t: Table, id: nat, archived: bool, now: int): Table
    requires id in t
  {
    t[id := t[id].(archivedAt := if archived then Some(now) else None, updatedAt := now)]
  }
}
