/** The points ledger: an append-only list of transactions, each carrying the balance after it. */
module PointsLedger {
  import opened Prelude

  datatype Tx = Tx(userId: nat, amount: int, sourceType: string, sourceId: Option<nat>, balanceAfter: int, createdAt: int)

  datatype Error = NotPositive | Insufficient

  // ---------------------------------------------------------------- what the ledger means

  /** The running sum of a user's amounts. */
  function Sum(txs: seq<Tx>, userId: nat): int {
    if txs == [] then 0
    else Sum(txs[..|txs| - 1], userId) + if txs[|txs| - 1].userId == userId then txs[|txs| - 1].amount else 0
  }

  /** The balance the service reads: the one recorded on the user's last row. */
  function Balance(txs: seq<Tx>, userId: nat): int {
    if txs == [] then 0
    else if txs[|txs| - 1].userId == userId then txs[|txs| - 1].balanceAfter
    else Balance(txs[..|txs| - 1], userId)
  }

  /** Every row records the running sum, which was not negative. */
  ghost predicate Consistent(txs: seq<Tx>) {
    forall i :: 0 <= i < |txs| ==> txs[i].balanceAfter == Sum(txs[..i + 1], txs[i].userId) && txs[i].balanceAfter >= 0
  }

  /** Rows were written at non-decreasing times. */
  ghost predicate Chronological(txs: seq<Tx>) {
    forall i, j :: 0 <= i < j < |txs| ==> txs[i].createdAt <= txs[j].createdAt
  }

  ghost predicate NotBefore(txs: seq<Tx>, now: int) {
    forall i :: 0 <= i < |txs| ==> txs[i].createdAt <= now
  }

  lemma ConsistentPrefix(txs: seq<Tx>, n: nat)
    requires Consistent(txs) && n <= |txs|
    ensures Consistent(txs[..n])
  {
    forall i | 0 <= i < n
      ensures txs[i].balanceAfter == Sum(txs[..n][..i + 1], txs[i].userId) && txs[i].balanceAfter >= 0
    {
      assert txs[..n][..i + 1] == txs[..i + 1];
    }
  }

  /** The recorded balance is the sum of everything the user ever earned and spent, and is never negative. */
  lemma {:induction false} BalanceIsSum(txs: seq<Tx>, userId: nat)
    requires Consistent(txs)
    ensures Balance(txs, userId) == Sum(txs, userId) >= 0
  {
    if txs != [] {
      var n := |txs| - 1;
      ConsistentPrefix(txs, n);
      BalanceIsSum(txs[..n], userId);
      assert txs[..n + 1] == txs;
    }
  }

  lemma AppendKeepsConsistent(txs: seq<Tx>, x: Tx)
    requires Consistent(txs) && x.balanceAfter == Balance(txs, x.userId) + x.amount >= 0
    ensures Consistent(txs + [x])
  {
    BalanceIsSum(txs, x.userId);
    var all := txs + [x];
    forall i | 0 <= i < |all|
      ensures all[i].balanceAfter == Sum(all[..i + 1], all[i].userId) && all[i].balanceAfter >= 0
    {
      if i < |txs| {
        assert all[..i + 1] == txs[..i + 1];
      } else {
        assert all[..i + 1] == all && all[..|all| - 1] == txs;
      }
    }
  }

  // ---------------------------------------------------------------- leaderboard

  function Max(a: int, b: int): int {
    if a >= b then a else b
  }

  /** `max(balance_after)` of the user's rows, as the leaderboard query computes it. */
  function Peak(txs: seq<Tx>, userId: nat): Option<int> {
    if txs == [] then None
    else
      var n, front := |txs| - 1, Peak(txs[..|txs| - 1], userId);
      if txs[n].userId != userId then front
      else Some(if front.Some? then Max(front.value, txs[n].balanceAfter) else txs[n].balanceAfter)
  }

  /** No balance the user ever had exceeds the peak. */
  lemma {:induction false} PeakBoundsEveryBalance(txs: seq<Tx>, userId: nat, k: nat)
    requires Consistent(txs) && k <= |txs|
    ensures Sum(txs[..k], userId) <= if Peak(txs, userId).Some? then Peak(txs, userId).value else 0
    ensures Peak(txs, userId).None? ==> Sum(txs[..k], userId) == 0
    ensures Peak(txs, userId).Some? ==> Peak(txs, userId).value >= 0
  {
    if txs != [] {
      var n := |txs| - 1;
      var j := if k <= n then k else n;
      ConsistentPrefix(txs, n);
      PeakBoundsEveryBalance(txs[..n], userId, j);
      assert txs[..n][..j] == txs[..j];
      LastRow(txs, userId);
      if k == n + 1 {
        assert txs[..k] == txs;
      }
    }
  }

  /** What the last row does to a user's sum and peak. */
  lemma LastRow(txs: seq<Tx>, userId: nat)
    requires Consistent(txs) && txs != []
    ensures var front, x, peak := txs[..|txs| - 1], txs[|txs| - 1], Peak(txs, userId);
            if x.userId != userId then Sum(txs, userId) == Sum(front, userId) && peak == Peak(front, userId)
            else
              && Sum(txs, userId) == x.balanceAfter >= 0 && peak.Some? && peak.value >= x.balanceAfter
              && (Peak(front, userId).Some? ==> peak.value >= Peak(front, userId).value)
  {
    assert txs[..|txs|] == txs;
  }

  /** The peak is a balance the user actually had. */
  lemma {:induction false} PeakWasReached(txs: seq<Tx>, userId: nat) returns (k: nat)
    requires Consistent(txs) && Peak(txs, userId).Some?
    ensures k <= |txs| && Sum(txs[..k], userId) == Peak(txs, userId).value
  {
    var n := |txs| - 1;
    assert txs[..n + 1] == txs;
    if txs[n].userId == userId && Peak(txs, userId).value == txs[n].balanceAfter {
      k := n + 1;
    } else {
      ConsistentPrefix(txs, n);
      k := PeakWasReached(txs[..n], userId);
      assert txs[..n][..k] == txs[..k];
    }
  }

  /** The leaderboard value is the running maximum of the user's balance over the whole history. */
  lemma PeakIsRunningMaximum(txs: seq<Tx>, userId: nat)
    requires Consistent(txs)
    ensures Peak(txs, userId).Some? ==>
              && (forall k :: 0 <= k <= |txs| ==> Sum(txs[..k], userId) <= Peak(txs, userId).value)
              && (exists k :: 0 <= k <= |txs| && Sum(txs[..k], userId) == Peak(txs, userId).value)
    ensures Peak(txs, userId).None? ==> forall k :: 0 <= k <= |txs| ==> Sum(txs[..k], userId) == 0
  {
    forall k: nat | k <= |txs|
      ensures Sum(txs[..k], userId) <= if Peak(txs, userId).Some? then Peak(txs, userId).value else 0
      ensures Peak(txs, userId).None? ==> Sum(txs[..k], userId) == 0
    {
      PeakBoundsEveryBalance(txs, userId, k);
    }
    if Peak(txs, userId).Some? {
      var _ := PeakWasReached(txs, userId);
    }
  }

  /** A user's leaderboard value is at least the current balance, and equals it exactly when the balance
      has never been higher than it is now. */
  lemma LeaderboardShowsBalanceIff(txs: seq<Tx>, userId: nat)
    requires Consistent(txs) && Peak(txs, userId).Some?
    ensures Peak(txs, userId).value >= Balance(txs, userId)
    ensures Peak(txs, userId).value == Balance(txs, userId)
            <==> forall k :: 0 <= k <= |txs| ==> Sum(txs[..k], userId) <= Sum(txs, userId)
  {
    BalanceIsSum(txs, userId);
    PeakIsRunningMaximum(txs, userId);
    assert txs[..|txs|] == txs;
    assert Sum(txs[..|txs|], userId) <= Peak(txs, userId).value;
  }

  // ---------------------------------------------------------------- the service

  function Entry(txs: seq<Tx>, userId: nat, amount: int, sourceType: string, sourceId: Option<nat>, now: int): Tx {
    Tx(userId, amount, sourceType, sourceId, Balance(txs, userId) + amount, now)
  }

  function Added(txs: seq<Tx>, userId: nat, amount: int, sourceType: string, sourceId: Option<nat>, now: int): seq<Tx> {
    if amount <= 0 then txs else txs + [Entry(txs, userId, amount, sourceType, sourceId, now)]
  }

  function Deducted(txs: seq<Tx>, userId: nat, amount: int, sourceType: string, sourceId: Option<nat>, now: int): seq<Tx> {
    if amount <= 0 || Balance(txs, userId) < amount then txs
    else txs + [Entry(txs, userId, -amount, sourceType, sourceId, now)]
  }

  /** The rows that earning and spending write, and when none is written. */
  lemma WrittenRow(txs: seq<Tx>, userId: nat, amount: int, source: string, id: Option<nat>, now: int)
    ensures Added(txs, userId, amount, source, id, now)
            == if amount > 0 then txs + [Tx(userId, amount, source, id, Balance(txs, userId) + amount, now)] else txs
    ensures Deducted(txs, userId, amount, source, id, now)
            == if 0 < amount <= Balance(txs, userId)
               then txs + [Tx(userId, -amount, source, id, Balance(txs, userId) - amount, now)] else txs
  {
  }

  /** A user's sum counts every row of the user once and no other. */
  lemma {:induction false} SumAppend(a: seq<Tx>, b: seq<Tx>, x: Tx, userId: nat)
    ensures Sum(a + b, userId) == Sum(a, userId) + Sum(b, userId)
    ensures Sum([x], userId) == if x.userId == userId then x.amount else 0
  {
    assert [x][..0] == [];
    if b == [] {
      assert a + b == a;
    } else {
      var n := |b| - 1;
      assert (a + b)[..|a + b| - 1] == a + b[..n];
      SumAppend(a, b[..n], x, userId);
    }
  }

  /** Earning ten points and spending four: the balance is six and the leaderboard still shows ten. */
  lemma LeaderboardKeepsSpentPoints(userId: nat, now: int)
    ensures var txs := Deducted(Added([], userId, 10, "event", None, now), userId, 4, "shop", None, now);
            Consistent(txs) && Balance(txs, userId) == 6 && Peak(txs, userId) == Some(10)
  {
    var x, y := Tx(userId, 10, "event", None, 10, now), Tx(userId, -4, "shop", None, 6, now);
    assert [] + [x] == [x] && Balance([], userId) == 0;
    AppendKeepsConsistent([], x);
    RowAtEnd([], x);
    AppendKeepsConsistent([x], y);
    RowAtEnd([x], y);
    assert Added([], userId, 10, "event", None, now) == [x];
    assert Deducted([x], userId, 4, "shop", None, now) == [x] + [y];
  }

  lemma RowAtEnd(txs: seq<Tx>, x: Tx)
    ensures Balance(txs + [x], x.userId) == x.balanceAfter
    ensures var front := Peak(txs, x.userId);
            Peak(txs + [x], x.userId) == Some(if front.Some? then Max(front.value, x.balanceAfter) else x.balanceAfter)
  {
    assert (txs + [x])[..|txs|] == txs;
  }

  class PointsLedger {
    var txs: seq<Tx>

    ghost predicate Valid()
      reads this
    {
      Consistent(txs) && Chronological(txs)
    }

    constructor ()
      ensures Valid() && txs == []
    {
      txs := [];
    }

    /** The newest row by creation time, then id. */
    method LastBalance(userId: nat) returns (balance: int)
      requires Chronological(txs)
      ensures balance == Balance(txs, userId)
    {
      var best: Option<nat> := None;
      var i := 0;
      while i < |txs|
        invariant 0 <= i <= |txs|
        invariant best.Some? ==> best.value < i && txs[best.value].userId == userId
        invariant Balance(txs[..i], userId) == if best.Some? then txs[best.value].balanceAfter else 0
      {
        OneMore(txs, i);
        if txs[i].userId == userId && (best.None? || txs[best.value].createdAt <= txs[i].createdAt) {
          best := Some(i);
        }
        i := i + 1;
      }
      assert txs[..i] == txs;
      balance := if best.Some? then txs[best.value].balanceAfter else 0;
    }

    method AddPoints(userId: nat, amount: int, sourceType: string, sourceId: Option<nat>, now: int)
      returns (r: Result<Tx, Error>)
      requires Valid() && NotBefore(txs, now)
      modifies this
      ensures Valid() && txs == Added(old(txs), userId, amount, sourceType, sourceId, now)
      ensures r.Ok? <==> amount > 0
      ensures r.Ok? ==> r.value == txs[|txs| - 1] && r.value.balanceAfter == Sum(old(txs), userId) + amount
    {
      BalanceIsSum(txs, userId);
      if amount <= 0 {
        return Err(NotPositive);
      }
      var balance := LastBalance(userId);
      var tx := Tx(userId, amount, sourceType, sourceId, balance + amount, now);
      AppendKeepsConsistent(txs, tx);
      txs := txs + [tx];
      r := Ok(tx);
    }

    method DeductPoints(userId: nat, amount: int, sourceType: string, sourceId: Option<nat>, now: int)
      returns (r: Result<Tx, Error>)
      requires Valid() && NotBefore(txs, now)
      modifies this
      ensures Valid() && txs == Deducted(old(txs), userId, amount, sourceType, sourceId, now)
      ensures r == Err(NotPositive) <==> amount <= 0
      ensures r == Err(Insufficient) <==> amount > 0 && Sum(old(txs), userId) < amount
      ensures r.Ok? ==> r.value == txs[|txs| - 1] && r.value.balanceAfter == Sum(old(txs), userId) - amount
    {
      BalanceIsSum(txs, userId);
      if amount <= 0 {
        return Err(NotPositive);
      }
      var balance := LastBalance(userId);
      if balance < amount {
        return Err(Insufficient);
      }
      var tx := Tx(userId, -amount, sourceType, sourceId, balance - amount, now);
      AppendKeepsConsistent(txs, tx);
      txs := txs + [tx];
      r := Ok(tx);
    }

    /** The grouped maximum behind the leaderboard. */
    method Peaks() returns (peaks: map<nat, int>)
      ensures forall u :: u in peaks <==> Peak(txs, u).Some?
      ensures forall u :: u in peaks ==> Peak(txs, u) == Some(peaks[u])
    {
      peaks := map[];
      var i := 0;
      while i < |txs|
        invariant 0 <= i <= |txs|
        invariant forall u :: u in peaks <==> Peak(txs[..i], u).Some?
        invariant forall u :: u in peaks ==> Peak(txs[..i], u) == Some(peaks[u])
      {
        OneMore(txs, i);
        var u := txs[i].userId;
        peaks := peaks[u := if u in peaks then Max(peaks[u], txs[i].balanceAfter) else txs[i].balanceAfter];
        i := i + 1;
      }
      assert txs[..i] == txs;
    }
  }
}
