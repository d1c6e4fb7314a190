/** Whole histories of conversation requests: what every run of create, fork, archive and delete keeps. */
module ConversationRuns {
  import opened Prelude
  import opened ConversationForest

  /** One request, with the caller's user id and the clock reading it acts on. */
  datatype Request =
    | Create(userId: nat, content: string, now: int)
    | Fork(userId: nat, source: nat, from: Option<nat>, title: Option<string>, now: int)
    | Archive(userId: nat, id: nat, archived: bool, now: int)
    | Delete(userId: nat, id: nat, cascade: bool, now: int)

  /** The router only hands over the caller's own conversations that are not deleted. */
  predicate Visible(t: Table, userId: nat, id: nat) {
    id in t && t[id].userId == userId && t[id].deletedAt == None
  }

  ghost function Apply(db: Db, q: Request): Db {
    match q
    case Create(userId, content, now) => Created(db, userId, content, now)
    case Fork(userId, source, from, title, now) =>
      if Visible(db.table, userId, source) && CanFork(db, source, from)
      then Forked(db, source, from, title, now) else db
    case Archive(userId, id, archived, now) =>
      if Visible(db.table, userId, id) then db.(table := Archived(db.table, id, archived, now)) else db
    case Delete(userId, id, cascade, now) =>
      if Visible(db.table, userId, id) && (cascade || !HasLiveDescendant(db.table, id))
      then db.(table := ConversationForest.Deleted(db.table, id, cascade, now)) else db
  }

  ghost function Run(db: Db, qs: seq<Request>): Db
    decreases |qs|
  {
    if qs == [] then db else Apply(Run(db, qs[..|qs| - 1]), qs[|qs| - 1])
  }

  /** What a request does: only the owner of a conversation that is not deleted branches, archives or deletes it; a
      branch point must be one of its messages; without cascade it is deleted only when nothing live descends from
      it. */
  lemma ApplyIs(db: Db, userId: nat, id: nat, from: Option<nat>, title: Option<string>, archived: bool, cascade: bool, now: int)
    ensures var own := id in db.table && db.table[id].userId == userId && db.table[id].deletedAt == None;
            var found := from == None || exists i :: 0 <= i < |db.messages| && db.messages[i].conversationId == id
                                                     && Some(db.messages[i].id) == from;
            var inUse := exists x :: x in db.table && Descends(db.table, x, id) && db.table[x].deletedAt == None;
            && Apply(db, Fork(userId, id, from, title, now)) == (if own && found then Forked(db, id, from, title, now) else db)
            && Apply(db, Archive(userId, id, archived, now))
               == (if own then db.(table := Archived(db.table, id, archived, now)) else db)
            && Apply(db, Delete(userId, id, cascade, now))
               == if own && (cascade || !inUse) then db.(table := ConversationForest.Deleted(db.table, id, cascade, now)) else db
  {
  }

  /** Message ids grow along the table, and every message belongs to a known conversation. */
  ghost predicate MessagesInOrder(db: Db) {
    && (forall i :: 0 <= i < |db.messages| ==>
          db.messages[i].id < db.nextMessageId && db.messages[i].conversationId in db.table)
    && forall i, j :: 0 <= i < j < |db.messages| ==> db.messages[i].id < db.messages[j].id
  }

  ghost predicate Safe(db: Db) {
    Forest(db.table, db.nextId) && LiveParents(db.table) && MessagesInOrder(db)
  }

  // ---------------------------------------------------------------- fork

  lemma ForkKeepsForest(db: Db, source: nat, from: Option<nat>, title: Option<string>, now: int)
    requires Forest(db.table, db.nextId) && source in db.table
    ensures Forest(Forked(db, source, from, title, now).table, db.nextId + 1)
  {
    var t, t' := db.table, Forked(db, source, from, title, now).table;
    forall id | id in t'
      ensures 1 <= id < db.nextId + 1 && Linked(t', id)
    {
      if id != db.nextId {
        assert Linked(t, id);
      }
    }
  }

  /** Branching keeps live rows off deleted ones exactly when the source is still live; the service
      itself does not check, its callers do. */
  lemma ForkKeepsLiveParentsIff(db: Db, source: nat, from: Option<nat>, title: Option<string>, now: int)
    requires Forest(db.table, db.nextId) && LiveParents(db.table) && source in db.table
    ensures LiveParents(Forked(db, source, from, title, now).table) <==> db.table[source].deletedAt == None
  {
    var t, t', b := db.table, Forked(db, source, from, title, now).table, db.nextId;
    assert b in t' && t'[b].parent == Some(source) && t'[source] == t[source];
    if t[source].deletedAt == None {
      forall id | id in t' && t'[id].deletedAt == None && t'[id].parent.Some? && t'[id].parent.value in t'
        ensures t'[t'[id].parent.value].deletedAt == None
      {
        if id != b {
          assert Linked(t, id);
        }
      }
    }
  }

  lemma {:induction false} SnapshotAppend(a: seq<Message>, b: seq<Message>, source: nat, from: Option<nat>)
    ensures Snapshot(a + b, source, from) == Snapshot(a, source, from) + Snapshot(b, source, from)
  {
    if b == [] {
      assert a + b == a;
    } else {
      var n := |b| - 1;
      assert (a + b)[..|a + b| - 1] == a + b[..n];
      SnapshotAppend(a, b[..n], source, from);
    }
  }

  lemma {:induction false} SnapshotOfOthers(ms: seq<Message>, source: nat, from: Option<nat>)
    requires forall i :: 0 <= i < |ms| ==> ms[i].conversationId != source
    ensures Snapshot(ms, source, from) == []
  {
    if ms != [] {
      SnapshotOfOthers(ms[..|ms| - 1], source, from);
    }
  }

  lemma {:induction false} SnapshotOfOwn(ms: seq<Message>, source: nat)
    requires forall i :: 0 <= i < |ms| ==> ms[i].conversationId == source
    ensures Snapshot(ms, source, None) == ms
  {
    if ms != [] {
      SnapshotOfOwn(ms[..|ms| - 1], source);
    }
  }

  /** Every kept message satisfies the snapshot condition, and nothing satisfying it is dropped. */
  lemma {:induction false} SnapshotIsExact(ms: seq<Message>, source: nat, from: Option<nat>, m: Message)
    ensures m in Snapshot(ms, source, from) <==> m in ms && InSnapshot(m, source, from)
  {
    if ms != [] {
      SnapshotIsExact(ms[..|ms| - 1], source, from, m);
      assert ms == ms[..|ms| - 1] + [ms[|ms| - 1]];
    }
  }

  /** After a fork the branch's transcript is the source's transcript cut at the chosen message,
      renumbered, and every other conversation keeps its transcript. */
  lemma ForkCopiesTranscript(db: Db, source: nat, from: Option<nat>, title: Option<string>, now: int, other: nat)
    requires Safe(db) && CanFork(db, source, from) && other != db.nextId
    ensures Snapshot(Forked(db, source, from, title, now).messages, db.nextId, None)
            == Copies(Snapshot(db.messages, source, from), db.nextId, db.nextMessageId)
    ensures Snapshot(Forked(db, source, from, title, now).messages, other, None)
            == Snapshot(db.messages, other, None)
  {
    var kept := Snapshot(db.messages, source, from);
    var copies := Copies(kept, db.nextId, db.nextMessageId);
    SnapshotAppend(db.messages, copies, db.nextId, None);
    SnapshotAppend(db.messages, copies, other, None);
    assert db.nextId !in db.table;
    SnapshotOfOthers(db.messages, db.nextId, None);
    SnapshotOfOwn(copies, db.nextId);
    SnapshotOfOthers(copies, other, None);
  }

  /** Where the copies come from: the positions, in order, of exactly the source's messages up to the branch
      point. Each copy keeps role, content, tool calls and creation time under a new id, behind everything
      that was there. */
  lemma {:induction false} KeptPositions(ms: seq<Message>, source: nat, from: Option<nat>) returns (at: seq<nat>)
    ensures KeptFrom(ms, source, from, at)
  {
    if ms == [] {
      at := [];
    } else {
      var n := |ms| - 1;
      var front := KeptPositions(ms[..n], source, from);
      assert ms == ms[..n] + [ms[n]];
      at := KeptOneMore(ms[..n], ms[n], source, from, front);
    }
  }

  predicate Kept(m: Message, source: nat, from: Option<nat>) {
    m.conversationId == source && (from.None? || m.id <= from.value)
  }

  ghost predicate Increasing(at: seq<nat>) {
    forall j, k :: 0 <= j < k < |at| ==> at[j] < at[k]
  }

  ghost predicate PositionsOf(ms: seq<Message>, source: nat, from: Option<nat>, at: seq<nat>) {
    && (forall k :: 0 <= k < |at| ==> at[k] < |ms| && Kept(ms[at[k]], source, from))
    && forall p: nat :: p < |ms| && Kept(ms[p], source, from) ==> p in at
  }

  ghost predicate Holds(kept: seq<Message>, ms: seq<Message>, at: seq<nat>) {
    |kept| == |at| && forall k :: 0 <= k < |at| ==> at[k] < |ms| && kept[k] == ms[at[k]]
  }

  /** `at` lists in order the positions of exactly the source's messages up to the branch point, and these are
      what the snapshot holds. */
  ghost predicate KeptFrom(ms: seq<Message>, source: nat, from: Option<nat>, at: seq<nat>) {
    Increasing(at) && PositionsOf(ms, source, from, at) && Holds(Snapshot(ms, source, from), ms, at)
  }

  lemma SnapshotOneMore(ms: seq<Message>, m: Message, source: nat, from: Option<nat>)
    ensures Snapshot(ms + [m], source, from)
            == Snapshot(ms, source, from) + (if Kept(m, source, from) then [m] else [])
  {
    assert (ms + [m])[..|ms|] == ms;
  }

  lemma PositionsSkip(ms: seq<Message>, m: Message, source: nat, from: Option<nat>, at: seq<nat>)
    requires PositionsOf(ms, source, from, at) && !Kept(m, source, from)
    ensures PositionsOf(ms + [m], source, from, at)
  {
  }

  lemma PositionsGrow(ms: seq<Message>, m: Message, source: nat, from: Option<nat>, front: seq<nat>)
    requires Increasing(front) && PositionsOf(ms, source, from, front) && Kept(m, source, from)
    ensures Increasing(front + [|ms|]) && PositionsOf(ms + [m], source, from, front + [|ms|])
  {
    var at := front + [|ms|];
    forall p: nat | p < |ms + [m]| && Kept((ms + [m])[p], source, from)
      ensures p in at
    {
      if p < |ms| {
        assert p in front;
      } else {
        assert at[|front|] == p;
      }
    }
  }

  lemma HoldsOneMore(kept: seq<Message>, ms: seq<Message>, m: Message, front: seq<nat>)
    requires Holds(kept, ms, front)
    ensures Holds(kept, ms + [m], front) && Holds(kept + [m], ms + [m], front + [|ms|])
  {
  }

  lemma KeptOneMore(ms: seq<Message>, m: Message, source: nat, from: Option<nat>, front: seq<nat>) returns (at: seq<nat>)
    requires KeptFrom(ms, source, from, front)
    ensures KeptFrom(ms + [m], source, from, at)
  {
    SnapshotOneMore(ms, m, source, from);
    HoldsOneMore(Snapshot(ms, source, from), ms, m, front);
    if Kept(m, source, from) {
      PositionsGrow(ms, m, source, from, front);
      at := front + [|ms|];
    } else {
      PositionsSkip(ms, m, source, from, front);
      assert Snapshot(ms, source, from) + [] == Snapshot(ms, source, from);
      at := front;
    }
  }

  /** A fork appends a copy of every message of the source up to the branch point, in their order, under new ids and
      the branch's id; every other part of a message is kept, and no other message changes. */
  lemma ForkCopiesExactly(db: Db, source: nat, from: Option<nat>, title: Option<string>, now: int) returns (at: seq<nat>)
    requires source in db.table
    ensures forall j, k :: 0 <= j < k < |at| ==> at[j] < at[k]
    ensures forall p: nat :: p in at <==>
              p < |db.messages| && db.messages[p].conversationId == source
              && (from.None? || db.messages[p].id <= from.value)
    ensures forall k :: 0 <= k < |at| ==> at[k] < |db.messages|
    ensures var after := Forked(db, source, from, title, now).messages;
            && |after| == |db.messages| + |at| && after[..|db.messages|] == db.messages
            && forall k :: 0 <= k < |at| ==>
                 var m := db.messages[at[k]];
                 after[|db.messages| + k]
                 == Message(db.nextMessageId + k, db.nextId, m.role, m.content, m.toolCalls, m.createdAt)
  {
    at := KeptPositions(db.messages, source, from);
    forall p: nat | p in at
      ensures p < |db.messages| && db.messages[p].conversationId == source
              && (from.None? || db.messages[p].id <= from.value)
    {
      var k :| 0 <= k < |at| && at[k] == p;
    }
  }

  /** With a branch point of the source's own, the copies are its transcript up to and including that message. */
  lemma ForkCopiesUpToBranchPoint(db: Db, source: nat, f: nat, title: Option<string>, now: int, i: nat)
    returns (at: seq<nat>)
    requires Safe(db) && source in db.table
    requires i < |db.messages| && db.messages[i].conversationId == source && db.messages[i].id == f
    ensures at != [] && at[|at| - 1] == i && forall j, k :: 0 <= j < k < |at| ==> at[j] < at[k]
    ensures forall p: nat :: p in at <==> p <= i && db.messages[p].conversationId == source
    ensures var after := Forked(db, source, Some(f), title, now).messages;
            && |after| == |db.messages| + |at|
            && forall k :: 0 <= k < |at| ==> at[k] < |db.messages| && after[|db.messages| + k].content == db.messages[at[k]].content
  {
    at := ForkCopiesExactly(db, source, Some(f), title, now);
    assert i in at;
    var k :| 0 <= k < |at| && at[k] == i;
    assert at[|at| - 1] in at;
  }

  /** The branch's own row. */
  lemma ForkedRow(db: Db, source: nat, from: Option<nat>, title: Option<string>, now: int)
    requires source in db.table
    ensures var t, t' := db.table, Forked(db, source, from, title, now).table;
            && t'.Keys == t.Keys + {db.nextId} && (forall x :: x in t && x != db.nextId ==> t'[x] == t[x])
            && var row, full := t'[db.nextId],
                                (if title == None || title == Some("") then t[source].title + "（分支）" else title.value);
               && row.userId == t[source].userId && row.parent == Some(source) && row.forkedFrom == from
               && row.root == (if t[source].root == None || t[source].root == Some(0) then Some(source) else t[source].root)
               && row.archivedAt == None && row.deletedAt == None && row.updatedAt == now
               && row.title <= full && |row.title| == if |full| < 200 then |full| else 200
  {
    var row := Forked(db, source, from, title, now).table[db.nextId];
    assert row == Branch(db.table, source, from, title, now);
  }

  /** A new conversation's row and its first message. */
  lemma CreatedRow(db: Db, userId: nat, content: string, now: int)
    ensures var db' := Created(db, userId, content, now);
            && db'.table == db.table[db.nextId := Conversation(userId, "新会话", None, None, None, None, None, now)]
            && db'.messages == db.messages + [Message(db.nextMessageId, db.nextId, "user", content, None, now)]
            && db'.nextId == db.nextId + 1 && db'.nextMessageId == db.nextMessageId + 1
  {
  }

  /** A deletion marks the conversation, with cascade also every descendant, unless already deleted: then the row
      keeps its earlier times. Nothing else changes. */
  lemma DeletedRow(t: Table, id: nat, cascade: bool, timestamp: int, x: nat)
    requires x in t
    ensures var t' := ConversationForest.Deleted(t, id, cascade, timestamp);
            var hit := t[x].deletedAt == None && (x == id || (cascade && Descends(t, x, id)));
            && t'.Keys == t.Keys
            && (hit ==> t'[x] == t[x].(deletedAt := Some(timestamp), archivedAt := Some(timestamp), updatedAt := timestamp))
            && (!hit ==> t'[x] == t[x])
  {
  }

  /** A row descends from its parent, and from whatever its parent descends from, and from nothing else. */
  lemma DescendsIff(t: Table, nextId: nat, x: nat, id: nat)
    requires Forest(t, nextId) && x in t
    ensures Descends(t, x, id) <==> t[x].parent.Some? && (t[x].parent.value == id || Descends(t, t[x].parent.value, id))
  {
    assert Linked(t, x);
    if Descends(t, x, id) {
      var n: nat :| n > 0 && Up(t, x, n) == Some(id);
      assert n > 1 ==> Up(t, t[x].parent.value, n - 1) == Some(id);
    }
    if t[x].parent.Some? {
      var p := t[x].parent.value;
      assert Up(t, x, 1) == Some(p);
      if Descends(t, p, id) {
        var n: nat :| n > 0 && Up(t, p, n) == Some(id);
        assert Up(t, x, n + 1) == Some(id);
      }
    }
  }

  lemma ArchivedRow(t: Table, id: nat, archived: bool, now: int)
    requires id in t
    ensures Archived(t, id, archived, now)
            == t[id := t[id].(archivedAt := if archived then Some(now) else None, updatedAt := now)]
  {
  }

  /** The branch point is the last message copied. */
  lemma {:induction false} BranchPointIsLast(ms: seq<Message>, source: nat, from: nat)
    requires forall i, j :: 0 <= i < j < |ms| ==> ms[i].id < ms[j].id
    requires OwnsMessage(ms, source, from)
    ensures var kept := Snapshot(ms, source, Some(from));
            kept != [] && kept[|kept| - 1].id == from
  {
    var n := |ms| - 1;
    var i :| 0 <= i < |ms| && ms[i].conversationId == source && ms[i].id == from;
    if i < n {
      assert ms[..n][i].id == from;
      BranchPointIsLast(ms[..n], source, from);
    }
  }

  // ---------------------------------------------------------------- create, archive, delete

  lemma CreateKeepsSafe(db: Db, userId: nat, content: string, now: int)
    requires Safe(db)
    ensures Safe(Created(db, userId, content, now))
  {
    var t, t' := db.table, Created(db, userId, content, now).table;
    forall id | id in t'
      ensures 1 <= id < db.nextId + 1 && Linked(t', id)
    {
      if id != db.nextId {
        assert Linked(t, id);
      }
    }
    forall id | id in t' && t'[id].deletedAt == None && t'[id].parent.Some? && t'[id].parent.value in t'
      ensures t'[t'[id].parent.value].deletedAt == None
    {
      assert Linked(t, id);
    }
  }

  lemma ForkKeepsSafe(db: Db, source: nat, from: Option<nat>, title: Option<string>, now: int)
    requires Safe(db) && CanFork(db, source, from) && db.table[source].deletedAt == None
    ensures Safe(Forked(db, source, from, title, now))
  {
    ForkKeepsForest(db, source, from, title, now);
    ForkKeepsLiveParentsIff(db, source, from, title, now);
  }

  /** Rows that differ only in their timestamps form the same forest. */
  lemma SameLinks(t: Table, t': Table, nextId: nat)
    requires Forest(t, nextId) && t'.Keys == t.Keys
    requires forall id :: id in t ==>
               t'[id].parent == t[id].parent && t'[id].root == t[id].root && t'[id].userId == t[id].userId
    ensures Forest(t', nextId)
  {
    forall id | id in t'
      ensures 1 <= id < nextId && Linked(t', id)
    {
      assert Linked(t, id);
    }
  }

  lemma DeleteKeepsSafe(db: Db, id: nat, cascade: bool, now: int)
    requires Safe(db) && id in db.table
    requires cascade || !HasLiveDescendant(db.table, id)
    ensures Safe(db.(table := ConversationForest.Deleted(db.table, id, cascade, now)))
  {
    var t, t' := db.table, ConversationForest.Deleted(db.table, id, cascade, now);
    SameLinks(t, t', db.nextId);
    forall x | x in t' && t'[x].deletedAt == None && t'[x].parent.Some? && t'[x].parent.value in t'
      ensures t'[t'[x].parent.value].deletedAt == None
    {
      var p := t[x].parent.value;
      assert t[x].deletedAt == None && t[p].deletedAt == None;
      if Target(t, id, cascade, p) {
        if p == id {
          assert Up(t, id, 0) == Some(id);
          UpExtends(t, x, id, id, 0);
        } else {
          var n: nat :| n > 0 && Up(t, p, n) == Some(id);
          UpExtends(t, x, p, id, n);
        }
        assert false;
      }
    }
  }

  // ---------------------------------------------------------------- every run

  lemma ApplyKeepsSafe(db: Db, q: Request)
    requires Safe(db)
    ensures Safe(Apply(db, q))
  {
    match q
    case Create(userId, content, now) => CreateKeepsSafe(db, userId, content, now);
    case Fork(userId, source, from, title, now) =>
      if Visible(db.table, userId, source) && CanFork(db, source, from) {
        ForkKeepsSafe(db, source, from, title, now);
      }
    case Archive(userId, id, archived, now) =>
      if Visible(db.table, userId, id) {
        SameLinks(db.table, Archived(db.table, id, archived, now), db.nextId);
      }
    case Delete(userId, id, cascade, now) =>
      if Visible(db.table, userId, id) && (cascade || !HasLiveDescendant(db.table, id)) {
        DeleteKeepsSafe(db, id, cascade, now);
      }
  }

  lemma {:induction false} RunKeepsSafe(db: Db, qs: seq<Request>)
    requires Safe(db)
    ensures Safe(Run(db, qs))
    decreases |qs|
  {
    if qs != [] {
      RunKeepsSafe(db, qs[..|qs| - 1]);
      ApplyKeepsSafe(Run(db, qs[..|qs| - 1]), qs[|qs| - 1]);
    }
  }

  /** After any history of requests, for any two rows: ancestry is acyclic and stays with one owner,
      a live conversation has no deleted ancestor, and a root link names the top of its chain. */
  lemma EveryRunIsSafe(qs: seq<Request>, d: nat, a: nat)
    ensures var t := Run(EmptyDb(), qs).table;
            Descends(t, d, a) ==>
              && d in t && a in t && a < d && t[a].userId == t[d].userId
              && (t[d].deletedAt == None ==> t[a].deletedAt == None)
    ensures var t := Run(EmptyDb(), qs).table;
            d in t ==>
              var top := RootOr(t[d], d);
              (exists n: nat :: Up(t, d, n) == Some(top)) && top in t && t[top].parent == None
  {
    RunKeepsSafe(EmptyDb(), qs);
    var db := Run(EmptyDb(), qs);
    if Descends(db.table, d, a) {
      var n: nat :| n > 0 && Up(db.table, d, n) == Some(a);
      AncestorIsOlder(db.table, db.nextId, d, a, n);
      if db.table[d].deletedAt == None {
        LiveChain(db.table, db.nextId, d, a, n);
      }
    }
    if d in db.table {
      RootIsTopOfChain(db.table, db.nextId, d);
    }
  }

  lemma ApplyIsFinal(db: Db, q: Request, id: nat)
    requires Safe(db) && id in db.table
    ensures var t, t' := db.table, Apply(db, q).table;
            && id in t' && t'[id].parent == t[id].parent && t'[id].root == t[id].root && t'[id].userId == t[id].userId
            && (t[id].deletedAt.Some? ==> t'[id].deletedAt == t[id].deletedAt)
  {
    assert id < db.nextId;
  }

  /** Rows are never removed or re-linked, and a deletion timestamp once set stays as it is. */
  lemma {:induction false} DeletionIsFinal(db: Db, qs: seq<Request>, id: nat)
    requires Safe(db) && id in db.table
    ensures var t, t' := db.table, Run(db, qs).table;
            && id in t' && t'[id].parent == t[id].parent && t'[id].root == t[id].root && t'[id].userId == t[id].userId
            && (t[id].deletedAt.Some? ==> t'[id].deletedAt == t[id].deletedAt)
    decreases |qs|
  {
    if qs != [] {
      DeletionIsFinal(db, qs[..|qs| - 1], id);
      RunKeepsSafe(db, qs[..|qs| - 1]);
      ApplyIsFinal(Run(db, qs[..|qs| - 1]), qs[|qs| - 1], id);
    }
  }

  /** A conversation, a branch of it deleted on its own, and then the conversation itself at the same instant. */
  function Instant(userId: nat, content: string, timestamp: int): seq<Request> {
    [Create(userId, content, 0)] + [Fork(userId, 1, None, None, 0)] + [Delete(userId, 2, false, timestamp)]
  }

  lemma RunExtend(db: Db, qs: seq<Request>, q: Request)
    ensures Run(db, qs + [q]) == Apply(Run(db, qs), q)
  {
    assert (qs + [q])[..|qs|] == qs;
  }

  lemma TwoRows(userId: nat, content: string)
    ensures var t := Run(EmptyDb(), [Create(userId, content, 0)] + [Fork(userId, 1, None, None, 0)]).table;
            && t.Keys == {1, 2} && t[1] == Fresh(userId, 0) && t[2].userId == userId
            && t[2].parent == Some(1) && t[2].deletedAt == None
  {
    assert [] + [Create(userId, content, 0)] == [Create(userId, content, 0)];
    RunExtend(EmptyDb(), [], Create(userId, content, 0));
    RunExtend(EmptyDb(), [Create(userId, content, 0)], Fork(userId, 1, None, None, 0));
    var t1 := Created(EmptyDb(), userId, content, 0).table;
    assert t1 == map[1 := Fresh(userId, 0)];
  }

  lemma BranchGone(userId: nat, content: string, timestamp: int)
    ensures var t := Run(EmptyDb(), Instant(userId, content, timestamp)).table;
            && t.Keys == {1, 2} && t[1] == Fresh(userId, 0) && t[2].userId == userId
            && t[2].parent == Some(1) && t[2].deletedAt == Some(timestamp)
  {
    var before := [Create(userId, content, 0)] + [Fork(userId, 1, None, None, 0)];
    TwoRows(userId, content);
    RunExtend(EmptyDb(), before, Delete(userId, 2, false, timestamp));
    var t := Run(EmptyDb(), before).table;
    NothingBelow(t, 2);
  }

  lemma NothingBelow(t: Table, leaf: nat)
    requires t.Keys == {1, 2} && t[1].parent == None && t[2].parent == Some(1) && leaf == 2
    ensures forall x :: !Descends(t, x, leaf)
  {
    forall x, n: nat | n > 0
      ensures Up(t, x, n) != Some(leaf)
    {
      if x == 2 {
        assert n > 1 ==> Up(t, 1, n - 1) == None;
      }
    }
  }

  /** Deleting the conversation with cascade at that instant newly deletes one row and counts two. */
  lemma SameInstantIsCountedTwice(userId: nat, content: string, timestamp: int)
    ensures var t := Run(EmptyDb(), Instant(userId, content, timestamp)).table;
            && Visible(t, userId, 1)
            && |NewlyDeleted(t, 1, true)| == 1 && |CarryingStamp(t, 1, true, timestamp)| == 2
  {
    BranchGone(userId, content, timestamp);
    var t := Run(EmptyDb(), Instant(userId, content, timestamp)).table;
    assert Up(t, 1, 0) == Some(1) && Up(t, 2, 1) == Some(1);
    assert Target(t, 1, true, 2);
    assert NewlyDeleted(t, 1, true) == {1};
    assert CarryingStamp(t, 1, true, timestamp) == {1, 2};
  }

  /** The service, driven by one request, moves exactly as `Apply` says. */
  method Handle(service: ConversationService, q: Request)
    requires Forest(service.table, service.nextId)
    modifies service
    ensures service.State() == Apply(old(service.State()), q)
  {
    match q
    case Create(userId, content, now) =>
      var _ := service.CreateConversationWithUserMessage(userId, content, now);
    case Fork(userId, source, from, title, now) =>
      if Visible(service.table, userId, source) {
        var _ := service.ForkConversation(source, from, title, now);
      }
    case Archive(userId, id, archived, now) =>
      if Visible(service.table, userId, id) {
        service.SetArchived(id, archived, now);
      }
    case Delete(userId, id, cascade, now) =>
      if Visible(service.table, userId, id) {
        var _ := service.DeleteConversation(id, cascade, now);
      }
  }
}
