/** The bounded in-process token blacklist: an insertion-ordered dictionary of expiry times. */
module MemoryBlacklist {
  import opened Prelude

  /** A Python dict: keys in insertion order, and their values. */
  datatype Store = Store(order: seq<string>, expiry: map<string, int>)

  ghost predicate Coherent(s: Store) {
    Distinct(s.order) && Elements(s.order) == s.expiry.Keys
  }

  /** The entries that have not expired at `now`. */
  function LiveMap(m: map<string, int>, now: int): map<string, int> {
    map j | j in m && now < m[j] :: m[j]
  }

  function AtLeastOne(n: int): nat {
    if n < 1 then 1 else n
  }

  function FilterOut(order: seq<string>, ks: set<string>): seq<string> {
    if order == [] then []
    else FilterOut(order[..|order| - 1], ks)
         + (if order[|order| - 1] in ks then [] else [order[|order| - 1]])
  }

  function Without(s: Store, ks: set<string>): Store {
    Store(FilterOut(s.order, ks), s.expiry - ks)
  }

  function Expired(s: Store, now: int): set<string> {
    set j | j in s.expiry && now >= s.expiry[j]
  }

  function Purged(s: Store, now: int): Store {
    Without(s, Expired(s, now))
  }

  /** How many of the oldest entries go when the store is full of live entries. */
  function EvictCount(maxEntries: int): nat {
    AtLeastOne(maxEntries / 10)
  }

  function TakeAtMost<T>(s: seq<T>, n: nat): seq<T> {
    if n <= |s| then s[..n] else s
  }

  function Oldest(s: Store, n: nat): set<string> {
    var oldest := TakeAtMost(s.order, n);
    set j | j in oldest
  }

  function MadeRoom(s: Store, maxEntries: int, now: int): Store {
    var p := Purged(s, now);
    if |p.order| < maxEntries then p else Without(p, Oldest(p, EvictCount(maxEntries)))
  }

  function Put(s: Store, jti: string, expiry: int): Store {
    Store(if jti in s.expiry then s.order else s.order + [jti], s.expiry[jti := expiry])
  }

  function Added(s: Store, maxEntries: int, jti: string, ttl: int, now: int): Store {
    if ttl <= 0 then s
    else
      var roomy := if |s.order| >= maxEntries && jti !in s.expiry then MadeRoom(s, maxEntries, now) else s;
      Put(roomy, jti, now + ttl)
  }

  function LookedUp(s: Store, jti: string, now: int): Store {
    if jti in s.expiry && now >= s.expiry[jti] then Without(s, {jti}) else s
  }

  // ---------------------------------------------------------------- deletion keeps the dictionary coherent

  lemma {:induction false} FilterOutKeepsRest(order: seq<string>, ks: set<string>)
    requires Distinct(order)
    ensures Distinct(FilterOut(order, ks))
    ensures forall j :: j in FilterOut(order, ks) <==> j in order && j !in ks
    ensures |FilterOut(order, ks)| <= |order|
    ensures forall i :: 0 <= i < |order| && order[i] in ks ==> |FilterOut(order, ks)| < |order|
  {
    if order != [] {
      var n := |order| - 1;
      FilterOutKeepsRest(order[..n], ks);
      OneMore(order, n);
      NotEarlier(order, n);
      assert order[..n + 1] == order;
      DistinctAppend(FilterOut(order[..n], ks), if order[n] in ks then [] else [order[n]]);
    }
  }

  lemma {:induction false} FilterOutTwice(order: seq<string>, a: set<string>, b: set<string>)
    ensures FilterOut(FilterOut(order, a), b) == FilterOut(order, a + b)
  {
    if order != [] {
      var n := |order| - 1;
      FilterOutTwice(order[..n], a, b);
      var f := FilterOut(order[..n], a);
      assert f + [] == f;
      assert (f + [order[n]])[..|f|] == f;
    }
  }

  lemma {:induction false} FilterOutNothing(order: seq<string>)
    ensures FilterOut(order, {}) == order
  {
    if order != [] {
      FilterOutNothing(order[..|order| - 1]);
    }
  }

  lemma WithoutIsCoherent(s: Store, ks: set<string>)
    requires Coherent(s)
    ensures Coherent(Without(s, ks)) && |Without(s, ks).order| <= |s.order|
    ensures (exists j :: j in ks && j in s.expiry) ==> |Without(s, ks).order| < |s.order|
  {
    FilterOutKeepsRest(s.order, ks);
    assert forall j :: j in s.order <==> j in Elements(s.order);
    forall j | j in Elements(FilterOut(s.order, ks)) <==> j in (s.expiry - ks).Keys
    {
    }
    if j :| j in ks && j in s.expiry {
      assert j in s.order;
    }
  }

  // ---------------------------------------------------------------- capacity

  lemma PurgedIsLive(s: Store, now: int)
    requires Coherent(s)
    ensures Coherent(Purged(s, now)) && Purged(s, now).expiry == LiveMap(s.expiry, now)
    ensures |Purged(s, now).order| == |LiveMap(s.expiry, now)| <= |s.order|
  {
    WithoutIsCoherent(s, Expired(s, now));
    SizeOfDistinct(Purged(s, now).order);
  }

  lemma OldestIsPresent(s: Store, n: nat)
    requires Coherent(s) && n > 0 && s.order != []
    ensures s.order[0] in Oldest(s, n) && s.order[0] in s.expiry
  {
    assert s.order[0] in Elements(s.order);
    assert TakeAtMost(s.order, n)[0] == s.order[0];
  }

  lemma MadeRoomIsSmaller(s: Store, maxEntries: int, now: int)
    requires Coherent(s) && |s.order| <= AtLeastOne(maxEntries)
    ensures Coherent(MadeRoom(s, maxEntries, now)) && |MadeRoom(s, maxEntries, now).order| < AtLeastOne(maxEntries)
  {
    PurgedIsLive(s, now);
    var p := Purged(s, now);
    if |p.order| >= maxEntries {
      WithoutIsCoherent(p, Oldest(p, EvictCount(maxEntries)));
      if p.order != [] {
        OldestIsPresent(p, EvictCount(maxEntries));
      }
    }
  }

  /** The store never outgrows its limit, whatever is added. */
  lemma AddKeepsBound(s: Store, maxEntries: int, jti: string, ttl: int, now: int)
    requires Coherent(s) && |s.order| <= AtLeastOne(maxEntries)
    ensures var t := Added(s, maxEntries, jti, ttl, now); Coherent(t) && |t.order| <= AtLeastOne(maxEntries)
  {
    if ttl > 0 {
      if |s.order| >= maxEntries && jti !in s.expiry {
        MadeRoomIsSmaller(s, maxEntries, now);
        PutIsCoherent(MadeRoom(s, maxEntries, now), jti, now + ttl);
      } else {
        PutIsCoherent(s, jti, now + ttl);
      }
    }
  }

  lemma PutIsCoherent(s: Store, jti: string, expiry: int)
    requires Coherent(s)
    ensures Coherent(Put(s, jti, expiry))
    ensures |Put(s, jti, expiry).order| == |s.order| + if jti in s.expiry then 0 else 1
  {
    if jti !in s.expiry {
      assert jti !in Elements(s.order);
      DistinctAppend(s.order, [jti]);
      assert Elements(s.order + [jti]) == Elements(s.order) + {jti};
    }
  }

  // ---------------------------------------------------------------- agreement with an unbounded map

  /** At `now` and ever after, the two dictionaries say the same. */
  ghost predicate Agree(s: Store, ideal: map<string, int>, now: int) {
    LiveMap(s.expiry, now) == LiveMap(ideal, now)
  }

  lemma AgreeLater(s: Store, ideal: map<string, int>, now: int, later: int)
    requires Agree(s, ideal, now) && now <= later
    ensures Agree(s, ideal, later)
  {
    assert LiveMap(s.expiry, later) == LiveMap(LiveMap(s.expiry, now), later);
    assert LiveMap(ideal, later) == LiveMap(LiveMap(ideal, now), later);
  }

  lemma LookUpKeepsLive(s: Store, jti: string, now: int)
    ensures LiveMap(LookedUp(s, jti, now).expiry, now) == LiveMap(s.expiry, now)
  {
  }

  lemma PutAgrees(s: Store, ideal: map<string, int>, jti: string, expiry: int, now: int)
    requires Agree(s, ideal, now)
    ensures Agree(Put(s, jti, expiry), ideal[jti := expiry], now)
  {
    var m, m' := LiveMap(s.expiry[jti := expiry], now), LiveMap(ideal[jti := expiry], now);
    forall j
      ensures j in m <==> j in m'
      ensures j in m ==> m[j] == m'[j]
    {
      assert j in LiveMap(s.expiry, now) <==> j in LiveMap(ideal, now);
    }
  }

  lemma PurgedAgrees(s: Store, ideal: map<string, int>, now: int)
    requires Coherent(s) && Agree(s, ideal, now)
    ensures Agree(Purged(s, now), ideal, now) && |Purged(s, now).order| == |LiveMap(ideal, now)|
  {
    PurgedIsLive(s, now);
    assert LiveMap(LiveMap(s.expiry, now), now) == LiveMap(s.expiry, now);
  }

  /** An insertion agrees with the unbounded map exactly when the entry is already present or fewer
      than the limit are live; otherwise the oldest live entry is forgotten. */
  lemma AddAgreesIff(s: Store, maxEntries: int, ideal: map<string, int>, jti: string, ttl: int, now: int)
    requires Coherent(s) && Agree(s, ideal, now) && ttl > 0
    ensures Agree(Added(s, maxEntries, jti, ttl, now), ideal[jti := now + ttl], now)
            <==> jti in s.expiry || |LiveMap(ideal, now)| < AtLeastOne(maxEntries)
  {
    if jti in s.expiry || |LiveMap(ideal, now)| < AtLeastOne(maxEntries) {
      AddAgrees(s, maxEntries, ideal, jti, ttl, now);
    } else {
      PurgedIsLive(s, now);
      EvictionForgets(s, maxEntries, ideal, jti, ttl, now);
    }
  }

  lemma AddAgrees(s: Store, maxEntries: int, ideal: map<string, int>, jti: string, ttl: int, now: int)
    requires Coherent(s) && Agree(s, ideal, now) && ttl > 0
    requires jti in s.expiry || |LiveMap(ideal, now)| < AtLeastOne(maxEntries)
    ensures Agree(Added(s, maxEntries, jti, ttl, now), ideal[jti := now + ttl], now)
  {
    var roomy := if |s.order| >= maxEntries && jti !in s.expiry then MadeRoom(s, maxEntries, now) else s;
    if |s.order| >= maxEntries && jti !in s.expiry {
      MadeRoomAgrees(s, maxEntries, ideal, now);
    }
    var t := Put(roomy, jti, now + ttl);
    assert Agree(t, ideal[jti := now + ttl], now) by {
      PutAgrees(roomy, ideal, jti, now + ttl, now);
    }
    assert Added(s, maxEntries, jti, ttl, now) == t;
  }

  lemma MadeRoomAgrees(s: Store, maxEntries: int, ideal: map<string, int>, now: int)
    requires Coherent(s) && Agree(s, ideal, now) && |LiveMap(ideal, now)| < AtLeastOne(maxEntries)
    ensures MadeRoom(s, maxEntries, now) == Purged(s, now) && Agree(MadeRoom(s, maxEntries, now), ideal, now)
  {
    PurgedAgrees(s, ideal, now);
    var p := Purged(s, now);
    if |p.order| >= maxEntries {
      NothingOldest(p, EvictCount(maxEntries));
    }
  }

  lemma NothingOldest(p: Store, n: nat)
    requires |p.order| == 0
    ensures Without(p, Oldest(p, n)) == p
  {
    assert Oldest(p, n) == {};
    assert p.expiry - {} == p.expiry;
  }

  lemma EvictionForgets(s: Store, maxEntries: int, ideal: map<string, int>, jti: string, ttl: int, now: int)
    requires Coherent(s) && Agree(s, ideal, now) && ttl > 0
    requires jti !in s.expiry && |s.order| >= maxEntries && |Purged(s, now).order| >= maxEntries
    requires Purged(s, now).order != []
    ensures var gone := Purged(s, now).order[0];
            && gone in LiveMap(ideal, now) && gone in LiveMap(ideal[jti := now + ttl], now)
            && gone !in Added(s, maxEntries, jti, ttl, now).expiry
    ensures !Agree(Added(s, maxEntries, jti, ttl, now), ideal[jti := now + ttl], now)
  {
    PurgedIsLive(s, now);
    var p := Purged(s, now);
    OldestIsPresent(p, EvictCount(maxEntries));
    var gone := p.order[0];
    assert gone in LiveMap(s.expiry, now);
  }

  // ---------------------------------------------------------------- what an insertion does

  lemma {:induction false} FilterOutOldest(order: seq<string>, n: nat)
    requires Distinct(order) && n <= |order|
    ensures FilterOut(order, Elements(order[..n])) == order[n..]
  {
    if order == [] {
    } else if n == |order| {
      FilterOutAll(order, Elements(order));
      assert order[..n] == order;
    } else {
      var m := |order| - 1;
      FilterOutOldest(order[..m], n);
      assert order[..m][..n] == order[..n];
      NotEarlier(order, m);
      assert forall j :: 0 <= j < n ==> order[..n][j] == order[..m][j];
      assert order[m] !in order[..n];
      assert order[n..] == order[..m][n..] + [order[m]];
    }
  }

  lemma {:induction false} FilterOutAll(order: seq<string>, ks: set<string>)
    requires forall j :: j in order ==> j in ks
    ensures FilterOut(order, ks) == []
  {
    if order != [] {
      FilterOutAll(order[..|order| - 1], ks);
    }
  }

  /** A lifetime that is not positive is ignored. A known token, or any token while there is room, changes nothing
      but its own entry, and keeps its place if it has one. */
  lemma RoomyAddIs(s: Store, maxEntries: int, jti: string, ttl: int, now: int)
    ensures ttl <= 0 ==> Added(s, maxEntries, jti, ttl, now) == s
    ensures ttl > 0 && (jti in s.expiry || |s.order| < maxEntries) ==>
              Added(s, maxEntries, jti, ttl, now)
              == Store(if jti in s.expiry then s.order else s.order + [jti], s.expiry[jti := now + ttl])
  {
  }

  /** A new token in a full store first drives out what has expired, and if that is nothing, the oldest tenth of the
      limit, at least one; everything else stays, in its order. */
  lemma CrowdedAddIs(s: Store, maxEntries: int, jti: string, ttl: int, now: int)
    requires Coherent(s) && ttl > 0 && jti !in s.expiry && |s.order| >= maxEntries && |s.order| > 0
    requires forall j :: j in s.expiry ==> now < s.expiry[j]
    ensures var gone := if maxEntries < 20 then 1 else maxEntries / 10;
            Added(s, maxEntries, jti, ttl, now).order == (if gone <= |s.order| then s.order[gone..] else []) + [jti]
    ensures forall j :: j in Added(s, maxEntries, jti, ttl, now).expiry && j != jti ==>
              j in s.expiry && Added(s, maxEntries, jti, ttl, now).expiry[j] == s.expiry[j]
    ensures jti in Added(s, maxEntries, jti, ttl, now).expiry && Added(s, maxEntries, jti, ttl, now).expiry[jti] == now + ttl
  {
    var gone := if maxEntries < 20 then 1 else maxEntries / 10;
    CrowdedRoom(s, maxEntries, now, gone);
    OldestGone(s, gone);
    PutFresh(s, Oldest(s, gone), jti, now + ttl);
  }

  lemma CrowdedRoom(s: Store, maxEntries: int, now: int, gone: nat)
    requires |s.order| >= maxEntries && forall j :: j in s.expiry ==> now < s.expiry[j]
    requires gone == if maxEntries < 20 then 1 else maxEntries / 10
    ensures MadeRoom(s, maxEntries, now) == Without(s, Oldest(s, gone))
  {
    NothingExpired(s, now);
    assert EvictCount(maxEntries) == gone;
  }

  lemma PutFresh(s: Store, gone: set<string>, jti: string, expiry: int)
    requires jti !in s.expiry
    ensures var t := Put(Without(s, gone), jti, expiry);
            && t.order == Without(s, gone).order + [jti] && jti in t.expiry && t.expiry[jti] == expiry
            && forall j :: j in t.expiry && j != jti ==> j in s.expiry && t.expiry[j] == s.expiry[j]
  {
  }

  lemma NothingExpired(s: Store, now: int)
    requires forall j :: j in s.expiry ==> now < s.expiry[j]
    ensures Purged(s, now) == s
  {
    FilterOutNothing(s.order);
    assert Expired(s, now) == {} && s.expiry - {} == s.expiry;
  }

  lemma OldestGone(s: Store, gone: nat)
    requires Coherent(s)
    ensures Without(s, Oldest(s, gone)).order == if gone <= |s.order| then s.order[gone..] else []
  {
    var n := if gone <= |s.order| then gone else |s.order|;
    assert s.order[..|s.order|] == s.order;
    assert TakeAtMost(s.order, gone) == s.order[..n];
    assert Oldest(s, gone) == Elements(s.order[..n]);
    FilterOutOldest(s.order, n);
  }

  /** When something has expired in a full store of legal size, exactly the live entries stay. */
  lemma PurgingAddIs(s: Store, maxEntries: int, jti: string, ttl: int, now: int)
    requires Coherent(s) && ttl > 0 && jti !in s.expiry && |s.order| == maxEntries
    requires exists j :: j in s.expiry && now >= s.expiry[j]
    ensures var z := Added(s, maxEntries, jti, ttl, now);
            forall j :: j in z.expiry <==> j == jti || (j in s.expiry && now < s.expiry[j])
  {
    WithoutIsCoherent(s, Expired(s, now));
    var j :| j in s.expiry && now >= s.expiry[j];
    assert j in Expired(s, now);
  }

  // ---------------------------------------------------------------- the class

  class MemoryBlacklist {
    const maxEntries: int
    var order: seq<string>
    var expiry: map<string, int>

    ghost function State(): Store
      reads this
    {
      Store(order, expiry)
    }

    ghost predicate Valid()
      reads this
    {
      Coherent(State()) && |order| <= AtLeastOne(maxEntries)
    }

    constructor (maxEntries: int)
      ensures Valid() && this.maxEntries == maxEntries && State() == Store([], map[])
    {
      this.maxEntries := maxEntries;
      order, expiry := [], map[];
    }

    method Add(jti: string, ttl: int, now: int)
      requires Valid()
      modifies this
      ensures Valid() && State() == Added(old(State()), maxEntries, jti, ttl, now)
    {
      AddKeepsBound(State(), maxEntries, jti, ttl, now);
      if ttl <= 0 {
        return;
      }
      if |order| >= maxEntries && jti !in expiry {
        EvictToMakeRoom(now);
      }
      if jti !in expiry {
        order := order + [jti];
      }
      expiry := expiry[jti := now + ttl];
    }

    method Contains(jti: string, now: int) returns (hit: bool)
      requires Valid()
      modifies this
      ensures Valid() && State() == LookedUp(old(State()), jti, now)
      ensures hit <==> jti in old(expiry) && now < old(expiry)[jti]
      ensures jti in expiry <==> hit
      ensures expiry - {jti} == old(expiry) - {jti} && (hit || jti !in old(expiry) ==> State() == old(State()))
    {
      if jti !in expiry {
        return false;
      }
      if now >= expiry[jti] {
        WithoutIsCoherent(State(), {jti});
        assert Elements([jti]) == {jti};
        DeleteAll([jti]);
        return false;
      }
      hit := true;
    }

    method EvictToMakeRoom(now: int)
      requires Coherent(State())
      modifies this
      ensures State() == MadeRoom(old(State()), maxEntries, now)
    {
      var expired: seq<string> := [];
      var i := 0;
      while i < |order|
        invariant 0 <= i <= |order| && unchanged(this)
        invariant forall j :: j in expired <==> j in order[..i] && j in expiry && now >= expiry[j]
      {
        OneMore(order, i);
        assert order[i] in Elements(order);
        if now >= expiry[order[i]] {
          expired := expired + [order[i]];
        }
        i := i + 1;
      }
      assert order[..i] == order;
      assert forall j :: j in order <==> j in Elements(order);
      assert Elements(expired) == Expired(State(), now);
      DeleteAll(expired);
      if |order| < maxEntries {
        return;
      }
      var evictCount := EvictCount(maxEntries);
      var oldest := TakeAtMost(order, evictCount);
      assert Elements(oldest) == Oldest(State(), evictCount);
      DeleteAll(oldest);
    }

    /** `del` for each listed key. */
    method DeleteAll(keys: seq<string>)
      modifies this
      ensures State() == Without(old(State()), Elements(keys))
    {
      ghost var s := State();
      var i := 0;
      FilterOutNothing(order);
      assert Elements(keys[..0]) == {} && s.expiry - {} == s.expiry;
      while i < |keys|
        invariant 0 <= i <= |keys|
        invariant State() == Without(s, Elements(keys[..i]))
      {
        WithoutOneMore(s, keys, i);
        order := FilterOut(order, {keys[i]});
        expiry := expiry - {keys[i]};
        i := i + 1;
      }
      assert keys[..i] == keys;
    }
  }

  lemma WithoutOneMore(s: Store, keys: seq<string>, i: nat)
    requires i < |keys|
    ensures Without(Without(s, Elements(keys[..i])), {keys[i]}) == Without(s, Elements(keys[..i + 1]))
  {
    OneMore(keys, i);
    FilterOutTwice(s.order, Elements(keys[..i]), {keys[i]});
    assert Elements(keys[..i + 1]) == Elements(keys[..i]) + {keys[i]};
    assert s.expiry - Elements(keys[..i]) - {keys[i]} == s.expiry - Elements(keys[..i + 1]);
  }
}
