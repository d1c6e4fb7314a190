/** Mastery scores per knowledge tag: decayed accumulation over exam attempts, and the arithmetic of the
    score before display rounding. */
module Mastery {
  import opened Prelude

  /** One graded attempt: its recency weight (1 at age zero, decaying towards 0) and the tags of its exam. */
  datatype Attempt = Attempt(questionId: nat, correct: bool, weight: real, tags: seq<string>)

  datatype Stats = Stats(total: nat, correct: nat, incorrect: nat, weightedTotal: real, weightedCorrect: real, mistakes: nat)

  const EMPTY := Stats(0, 0, 0, 0.0, 0.0, 0)
  const PRIOR := 2.0

  function Mistakes(wrongCounts: map<nat, nat>, questionId: nat): nat {
    if questionId in wrongCounts then wrongCounts[questionId] else 0
  }

  function Bump(s: Stats, a: Attempt, wrongCounts: map<nat, nat>): Stats {
    Stats(s.total + 1,
          if a.correct then s.correct + 1 else s.correct,
          if a.correct then s.incorrect else s.incorrect + 1,
          s.weightedTotal + a.weight,
          if a.correct then s.weightedCorrect + a.weight else s.weightedCorrect,
          s.mistakes + Mistakes(wrongCounts, a.questionId))
  }

  // ---------------------------------------------------------------- accumulation, seen from one tag

  function Occurrences(tags: seq<string>, tag: string): nat {
    if tags == [] then 0 else Occurrences(tags[..|tags| - 1], tag) + if tags[|tags| - 1] == tag then 1 else 0
  }

  function BumpTimes(s: Stats, a: Attempt, wrongCounts: map<nat, nat>, n: nat): Stats {
    if n == 0 then s else Bump(BumpTimes(s, a, wrongCounts, n - 1), a, wrongCounts)
  }

  /** The statistics one tag collects, looking only at that tag: once per mention. */
  function StatsFor(rows: seq<Attempt>, wrongCounts: map<nat, nat>, tag: string): Stats {
    if rows == [] then EMPTY
    else
      var n := |rows| - 1;
      BumpTimes(StatsFor(rows[..n], wrongCounts, tag), rows[n], wrongCounts, Occurrences(rows[n].tags, tag))
  }

  function Get(m: map<string, Stats>, tag: string): Stats {
    if tag in m then m[tag] else EMPTY
  }

  lemma MentionOneMore(tags: seq<string>, j: nat)
    requires j < |tags|
    ensures forall tag :: Occurrences(tags[..j + 1], tag) == Occurrences(tags[..j], tag) + if tag == tags[j] then 1 else 0
    ensures forall tag :: tag in tags[..j + 1] <==> tag in tags[..j] || tag == tags[j]
  {
    OneMore(tags, j);
  }

  /** A tag is mentioned as often as it occurs in the list. */
  lemma {:induction false} OccurrencesAre(tags: seq<string>, tag: string)
    ensures Occurrences(tags, tag) == multiset(tags)[tag]
  {
    if tags != [] {
      OccurrencesAre(tags[..|tags| - 1], tag);
      assert tags == tags[..|tags| - 1] + [tags[|tags| - 1]];
    }
  }

  /** The statistics after `n` more mentions of the tag in one attempt: one to the totals for each, its weight to the
      weighted sums, and the mistakes recorded for its question. */
  function WithMentions(s: Stats, a: Attempt, wrongCounts: map<nat, nat>, n: nat): Stats {
    var wrong := if a.questionId in wrongCounts then wrongCounts[a.questionId] else 0;
    Stats(s.total + n, s.correct + (if a.correct then n else 0), s.incorrect + (if a.correct then 0 else n),
          s.weightedTotal + Times(a.weight, n), s.weightedCorrect + (if a.correct then Times(a.weight, n) else 0.0),
          s.mistakes + wrong * n)
  }

  function Times(w: real, n: nat): real {
    w * n as real
  }

  lemma OneMoreMention(s: Stats, a: Attempt, wrongCounts: map<nat, nat>, n: nat)
    requires n > 0
    ensures Bump(WithMentions(s, a, wrongCounts, n - 1), a, wrongCounts) == WithMentions(s, a, wrongCounts, n)
  {
    MoreByOne(a.weight, n);
    MoreByOneMistake(if a.questionId in wrongCounts then wrongCounts[a.questionId] else 0, n);
  }

  lemma {:induction false} BumpTimesIs(s: Stats, a: Attempt, wrongCounts: map<nat, nat>, n: nat)
    ensures BumpTimes(s, a, wrongCounts, n) == WithMentions(s, a, wrongCounts, n)
  {
    if n > 0 {
      BumpTimesIs(s, a, wrongCounts, n - 1);
      OneMoreMention(s, a, wrongCounts, n);
    } else {
      NoMention(s, a, wrongCounts);
    }
  }

  lemma NoMention(s: Stats, a: Attempt, wrongCounts: map<nat, nat>)
    ensures WithMentions(s, a, wrongCounts, 0) == s
  {
    assert Times(a.weight, 0) == 0.0;
    assert (if a.questionId in wrongCounts then wrongCounts[a.questionId] else 0) * 0 == 0;
  }

  lemma MoreByOne(w: real, n: nat)
    requires n > 0
    ensures Times(w, n) == Times(w, n - 1) + w
  {
    assert n as real == (n - 1) as real + 1.0;
  }

  lemma MoreByOneMistake(w: nat, n: nat)
    requires n > 0
    ensures w * n == w * (n - 1) + w
  {
  }

  /** One more attempt counts for a tag once per mention, and a tag without attempts has nothing. */
  lemma OneMoreAttempt(rows: seq<Attempt>, a: Attempt, wrongCounts: map<nat, nat>, tag: string)
    ensures StatsFor(rows + [a], wrongCounts, tag)
            == WithMentions(StatsFor(rows, wrongCounts, tag), a, wrongCounts, multiset(a.tags)[tag])
    ensures StatsFor([], wrongCounts, tag) == Stats(0, 0, 0, 0.0, 0.0, 0)
  {
    assert (rows + [a])[..|rows|] == rows;
    OccurrencesAre(a.tags, tag);
    BumpTimesIs(StatsFor(rows, wrongCounts, tag), a, wrongCounts, multiset(a.tags)[tag]);
  }

  /** Counting one more mention of one tag. */
  lemma MentionCounted(before: map<string, Stats>, stats: map<string, Stats>, row: Attempt, wrongCounts: map<nat, nat>, j: nat)
    requires j < |row.tags|
    requires forall tag ::
               Get(stats, tag) == BumpTimes(Get(before, tag), row, wrongCounts, Occurrences(row.tags[..j], tag))
    requires forall tag :: tag in stats <==> tag in before || tag in row.tags[..j]
    ensures var stats' := stats[row.tags[j] := Bump(Get(stats, row.tags[j]), row, wrongCounts)];
            && (forall tag ::
                  Get(stats', tag) == BumpTimes(Get(before, tag), row, wrongCounts, Occurrences(row.tags[..j + 1], tag)))
            && forall tag :: tag in stats' <==> tag in before || tag in row.tags[..j + 1]
  {
    MentionOneMore(row.tags, j);
  }

  /** The inner loop: one attempt counts once for every mention of a tag. */
  method AddAttempt(before: map<string, Stats>, row: Attempt, wrongCounts: map<nat, nat>)
    returns (stats: map<string, Stats>)
    ensures forall tag :: Get(stats, tag) == BumpTimes(Get(before, tag), row, wrongCounts, Occurrences(row.tags, tag))
    ensures forall tag :: tag in stats <==> tag in before || tag in row.tags
  {
    stats := before;
    var j := 0;
    while j < |row.tags|
      invariant 0 <= j <= |row.tags|
      invariant forall tag ::
                  Get(stats, tag) == BumpTimes(Get(before, tag), row, wrongCounts, Occurrences(row.tags[..j], tag))
      invariant forall tag :: tag in stats <==> tag in before || tag in row.tags[..j]
    {
      MentionCounted(before, stats, row, wrongCounts, j);
      var tag := row.tags[j];
      stats := stats[tag := Bump(Get(stats, tag), row, wrongCounts)];
      j := j + 1;
    }
    assert row.tags[..j] == row.tags;
  }

  /** The accumulation loops: all tags at once, into one dictionary. */
  method Accumulate(rows: seq<Attempt>, wrongCounts: map<nat, nat>) returns (stats: map<string, Stats>)
    ensures forall tag :: Get(stats, tag) == StatsFor(rows, wrongCounts, tag)
    ensures forall tag :: tag in stats <==> exists i :: 0 <= i < |rows| && tag in rows[i].tags
  {
    stats := map[];
    var i := 0;
    while i < |rows|
      invariant 0 <= i <= |rows|
      invariant forall tag :: Get(stats, tag) == StatsFor(rows[..i], wrongCounts, tag)
      invariant forall tag :: tag in stats <==> exists k :: 0 <= k < i && tag in rows[k].tags
    {
      OneMore(rows, i);
      stats := AddAttempt(stats, rows[i], wrongCounts);
      i := i + 1;
    }
    assert rows[..i] == rows;
  }

  // ---------------------------------------------------------------- the score

  function Min(a: real, b: real): real {
    if a <= b then a else b
  }

  function Smoothed(s: Stats): real {
    (s.correct as real + PRIOR * 0.5) / (s.total as real + PRIOR)
  }

  function RecencyAccuracy(s: Stats): real {
    if s.weightedTotal == 0.0 then 0.0 else s.weightedCorrect / s.weightedTotal
  }

  function Decay(weightedTotal: real, total: nat): real {
    Min(1.0, if total == 0 then 0.0 else weightedTotal / total as real)
  }

  function DecayFactor(s: Stats): real {
    Decay(s.weightedTotal, s.total)
  }

  function Score(smoothed: real, recency: real, decay: real): real {
    var accuracy, freshness := smoothed * 0.6 + recency * 0.4, 0.6 + 0.4 * decay;
    Product(accuracy, freshness)
  }

  function Product(a: real, b: real): real {
    a * b
  }

  function MasteryScore(s: Stats): real {
    Score(Smoothed(s), RecencyAccuracy(s), DecayFactor(s))
  }

  function Confidence(s: Stats): real {
    Min(1.0, s.weightedTotal / 5.0)
  }

  /** The score in numbers: six tenths of the accuracy smoothed by two imagined attempts of which one is correct, four
      tenths of the recent accuracy, and from that at least six tenths however old the attempts are. */
  lemma ScoreIs(s: Stats)
    requires s.total > 0 && 0.0 < s.weightedTotal <= s.total as real
    ensures MasteryScore(s)
            == ((s.correct as real + 1.0) / (s.total as real + 2.0) * 0.6 + s.weightedCorrect / s.weightedTotal * 0.4)
               * (0.6 + 0.4 * (s.weightedTotal / s.total as real))
    ensures Confidence(s) == if s.weightedTotal >= 5.0 then 1.0 else s.weightedTotal / 5.0
  {
    DivideBounds(s.weightedTotal, s.total as real);
  }

  /** One correct attempt just now: 0.8. One wrong attempt a half-life ago: 0.16. */
  lemma ScoreExamples(mistakes: nat)
    ensures MasteryScore(Stats(1, 1, 0, 1.0, 1.0, mistakes)) == 0.8
    ensures MasteryScore(Stats(1, 0, 1, 0.5, 0.0, mistakes)) == 0.16
    ensures Confidence(Stats(1, 1, 0, 1.0, 1.0, mistakes)) == 0.2
  {
  }

  /** Weights lie in (0, 1], so the weighted sums are trapped by the counts. */
  ghost predicate Sane(s: Stats) {
    && s.correct + s.incorrect == s.total
    && 0.0 <= s.weightedCorrect <= s.weightedTotal <= s.total as real
    && (s.total > 0 ==> s.weightedTotal > 0.0)
  }

  lemma {:induction false} BumpTimesKeepsSane(s: Stats, a: Attempt, wrongCounts: map<nat, nat>, n: nat)
    requires Sane(s) && 0.0 < a.weight <= 1.0
    ensures Sane(BumpTimes(s, a, wrongCounts, n))
    ensures BumpTimes(s, a, wrongCounts, n).total == s.total + n
  {
    if n > 0 {
      BumpTimesKeepsSane(s, a, wrongCounts, n - 1);
    }
  }

  lemma {:induction false} StatsAreSane(rows: seq<Attempt>, wrongCounts: map<nat, nat>, tag: string)
    requires forall i :: 0 <= i < |rows| ==> 0.0 < rows[i].weight <= 1.0
    ensures Sane(StatsFor(rows, wrongCounts, tag))
  {
    if rows != [] {
      var n := |rows| - 1;
      StatsAreSane(rows[..n], wrongCounts, tag);
      BumpTimesKeepsSane(StatsFor(rows[..n], wrongCounts, tag), rows[n], wrongCounts, Occurrences(rows[n].tags, tag));
    }
  }

  lemma DivideBounds(a: real, b: real)
    requires 0.0 <= a <= b && b > 0.0
    ensures 0.0 <= a / b <= 1.0
    ensures a < b ==> a / b < 1.0
    ensures a > 0.0 ==> a / b > 0.0
  {
    assert (a / b) * b == a;
  }

  lemma ProductBounds(x: real, y: real)
    requires 0.0 < x < 1.0 && 0.0 < y <= 1.0
    ensures 0.0 < Product(x, y) < 1.0
  {
    assert x * y <= x * 1.0;
  }

  lemma ScoreBounds(smoothed: real, recency: real, decay: real)
    requires 0.0 < smoothed < 1.0 && 0.0 <= recency <= 1.0 && 0.0 < decay <= 1.0
    ensures 0.0 < Score(smoothed, recency, decay) < 1.0
  {
    ProductBounds(smoothed * 0.6 + recency * 0.4, 0.6 + 0.4 * decay);
  }

  lemma SmoothedBounds(s: Stats)
    requires s.correct <= s.total
    ensures 0.0 < Smoothed(s) < 1.0
  {
    DivideBounds(s.correct as real + 1.0, s.total as real + 2.0);
  }

  lemma RecencyBounds(s: Stats)
    requires Sane(s) && s.total > 0
    ensures 0.0 <= RecencyAccuracy(s) <= 1.0
  {
    DivideBounds(s.weightedCorrect, s.weightedTotal);
  }

  lemma DecayBounds(s: Stats)
    requires Sane(s) && s.total > 0
    ensures 0.0 < DecayFactor(s) <= 1.0
  {
    DivideBounds(s.weightedTotal, s.total as real);
  }

  /** The score of any non-empty history lies strictly between 0 and 1. */
  lemma ScoreInOpenUnit(s: Stats)
    requires Sane(s) && s.total > 0
    ensures 0.0 < MasteryScore(s) < 1.0
    ensures 0.0 < Confidence(s) <= 1.0
  {
    SmoothedBounds(s);
    RecencyBounds(s);
    DecayBounds(s);
    ScoreBounds(Smoothed(s), RecencyAccuracy(s), DecayFactor(s));
  }

  lemma DivideMonotone(a: real, b: real, d: real)
    requires a < b && d > 0.0
    ensures a / d < b / d
  {
    assert (a / d) * d == a && (b / d) * d == b;
  }

  lemma ScaleMonotone(a: real, b: real, f: real)
    requires a < b && f > 0.0
    ensures Product(a, f) < Product(b, f)
  {
  }

  /** `t` is `s` with `k` wrong answers of total weight `x` counted as correct instead. */
  ghost predicate Improves(s: Stats, t: Stats, k: nat, x: real) {
    && t.total == s.total && t.weightedTotal == s.weightedTotal && t.mistakes == s.mistakes
    && t.correct == s.correct + k && t.incorrect + k == s.incorrect
    && t.weightedCorrect == s.weightedCorrect + x
  }

  lemma ScoreRises(smoothed: real, smoothed': real, recency: real, recency': real, decay: real)
    requires smoothed < smoothed' && recency < recency' && 0.0 <= decay
    ensures Score(smoothed, recency, decay) < Score(smoothed', recency', decay)
  {
    ScaleMonotone(smoothed * 0.6 + recency * 0.4, smoothed' * 0.6 + recency' * 0.4, 0.6 + 0.4 * decay);
  }

  lemma SmoothedRises(s: Stats, t: Stats)
    requires s.total == t.total && s.correct < t.correct
    ensures Smoothed(s) < Smoothed(t)
  {
    DivideMonotone(s.correct as real + 1.0, t.correct as real + 1.0, s.total as real + 2.0);
  }

  lemma RecencyRises(s: Stats, t: Stats)
    requires s.weightedTotal == t.weightedTotal > 0.0 && s.weightedCorrect < t.weightedCorrect
    ensures RecencyAccuracy(s) < RecencyAccuracy(t)
  {
    DivideMonotone(s.weightedCorrect, t.weightedCorrect, s.weightedTotal);
  }

  lemma ImprovementRaisesScore(s: Stats, t: Stats, k: nat, x: real)
    requires Sane(s) && Sane(t) && Improves(s, t, k, x) && k > 0 && x > 0.0
    ensures MasteryScore(t) > MasteryScore(s)
  {
    SmoothedRises(s, t);
    RecencyRises(s, t);
    DecayBounds(s);
    SameDecay(s, t);
    ScoreRises(Smoothed(s), Smoothed(t), RecencyAccuracy(s), RecencyAccuracy(t), DecayFactor(s));
  }

  lemma SameDecay(s: Stats, t: Stats)
    requires s.total == t.total && s.weightedTotal == t.weightedTotal
    ensures DecayFactor(s) == DecayFactor(t)
  {
  }

  lemma {:induction false} FlipTimes(s: Stats, a: Attempt, wrongCounts: map<nat, nat>, n: nat) returns (x: real)
    requires !a.correct && a.weight > 0.0
    ensures Improves(BumpTimes(s, a, wrongCounts, n), BumpTimes(s, a.(correct := true), wrongCounts, n), n, x)
    ensures n > 0 ==> x > 0.0
  {
    x := 0.0;
    if n > 0 {
      x := FlipTimes(s, a, wrongCounts, n - 1);
      x := if n == 1 then a.weight else x + a.weight;
    }
  }

  lemma {:induction false} ImprovementSurvives(
      s: Stats, t: Stats, k: nat, x: real, a: Attempt, wrongCounts: map<nat, nat>, n: nat)
    requires Improves(s, t, k, x)
    ensures Improves(BumpTimes(s, a, wrongCounts, n), BumpTimes(t, a, wrongCounts, n), k, x)
  {
    if n > 0 {
      ImprovementSurvives(s, t, k, x, a, wrongCounts, n - 1);
    }
  }

  lemma {:induction false} FlipImproves(rows: seq<Attempt>, wrongCounts: map<nat, nat>, tag: string, i: nat)
    returns (k: nat, x: real)
    requires i < |rows| && !rows[i].correct && rows[i].weight > 0.0
    ensures Improves(StatsFor(rows, wrongCounts, tag),
                     StatsFor(rows[i := rows[i].(correct := true)], wrongCounts, tag), k, x)
    ensures k == Occurrences(rows[i].tags, tag) && (k > 0 ==> x > 0.0)
  {
    var n := |rows| - 1;
    var flipped := rows[i := rows[i].(correct := true)];
    if i == n {
      assert flipped[..n] == rows[..n];
      k := Occurrences(rows[n].tags, tag);
      x := FlipTimes(StatsFor(rows[..n], wrongCounts, tag), rows[n], wrongCounts, k);
    } else {
      assert flipped[..n] == rows[..n][i := rows[..n][i].(correct := true)];
      k, x := FlipImproves(rows[..n], wrongCounts, tag, i);
      ImprovementSurvives(StatsFor(rows[..n], wrongCounts, tag), StatsFor(flipped[..n], wrongCounts, tag), k, x,
                          rows[n], wrongCounts, Occurrences(rows[n].tags, tag));
    }
  }

  /** Had any one wrong attempt at a tag been right instead, the tag's score would be strictly higher. */
  lemma CorrectionRaisesScore(rows: seq<Attempt>, wrongCounts: map<nat, nat>, tag: string, i: nat)
    requires i < |rows| && !rows[i].correct && Occurrences(rows[i].tags, tag) > 0
    requires forall j :: 0 <= j < |rows| ==> 0.0 < rows[j].weight <= 1.0
    ensures MasteryScore(StatsFor(rows[i := rows[i].(correct := true)], wrongCounts, tag))
            > MasteryScore(StatsFor(rows, wrongCounts, tag))
  {
    StatsAreSane(rows, wrongCounts, tag);
    StatsAreSane(rows[i := rows[i].(correct := true)], wrongCounts, tag);
    var k, x := FlipImproves(rows, wrongCounts, tag, i);
    ImprovementRaisesScore(StatsFor(rows, wrongCounts, tag),
                           StatsFor(rows[i := rows[i].(correct := true)], wrongCounts, tag), k, x);
  }

  // ---------------------------------------------------------------- time passing without attempts

  /** The same history later: every weight has shrunk by the common factor of the elapsed time. */
  function Aged(s: Stats, factor: real): Stats {
    s.(weightedTotal := s.weightedTotal * factor, weightedCorrect := s.weightedCorrect * factor)
  }

  function AgedAttempt(a: Attempt, factor: real): Attempt {
    a.(weight := a.weight * factor)
  }

  function AgedRows(rows: seq<Attempt>, factor: real): seq<Attempt> {
    if rows == [] then [] else AgedRows(rows[..|rows| - 1], factor) + [AgedAttempt(rows[|rows| - 1], factor)]
  }

  lemma Distribute(a: real, b: real, f: real)
    ensures (a + b) * f == a * f + b * f
  {
  }

  lemma AgedBump(s: Stats, a: Attempt, wrongCounts: map<nat, nat>, factor: real)
    ensures Bump(Aged(s, factor), AgedAttempt(a, factor), wrongCounts) == Aged(Bump(s, a, wrongCounts), factor)
  {
    Distribute(s.weightedTotal, a.weight, factor);
    Distribute(s.weightedCorrect, a.weight, factor);
  }

  lemma {:induction false} AgedBumpTimes(s: Stats, a: Attempt, wrongCounts: map<nat, nat>, n: nat, factor: real)
    ensures BumpTimes(Aged(s, factor), AgedAttempt(a, factor), wrongCounts, n)
            == Aged(BumpTimes(s, a, wrongCounts, n), factor)
  {
    if n > 0 {
      AgedBumpTimes(s, a, wrongCounts, n - 1, factor);
      AgedBump(BumpTimes(s, a, wrongCounts, n - 1), a, wrongCounts, factor);
    }
  }

  /** Ageing every attempt ages the accumulated statistics. */
  lemma {:induction false} AgeingCommutes(rows: seq<Attempt>, wrongCounts: map<nat, nat>, tag: string, factor: real)
    ensures StatsFor(AgedRows(rows, factor), wrongCounts, tag) == Aged(StatsFor(rows, wrongCounts, tag), factor)
  {
    if rows != [] {
      var n := |rows| - 1;
      AgeingCommutes(rows[..n], wrongCounts, tag, factor);
      var front := AgedRows(rows[..n], factor);
      assert (front + [AgedAttempt(rows[n], factor)])[..|front|] == front;
      AgedBumpTimes(StatsFor(rows[..n], wrongCounts, tag), rows[n], wrongCounts, Occurrences(rows[n].tags, tag), factor);
    }
  }

  lemma CommonFactorCancels(a: real, b: real, f: real)
    requires b > 0.0 && f > 0.0
    ensures (a * f) / (b * f) == a / b
  {
    var q := a / b;
    assert q * b == a;
    assert b * f > 0.0;
    assert q * (b * f) == (q * b) * f == a * f;
    QuotientIs(a * f, b * f, q);
  }

  lemma QuotientIs(a: real, b: real, q: real)
    requires b > 0.0 && q * b == a
    ensures a / b == q
  {
  }

  lemma ScaleDown(a: real, f: real)
    requires a >= 0.0 && 0.0 < f <= 1.0
    ensures 0.0 <= a * f <= a
    ensures a > 0.0 ==> a * f > 0.0
  {
  }

  lemma DivideWeaklyMonotone(a: real, b: real, d: real)
    requires a <= b && d > 0.0
    ensures a / d <= b / d
  {
    if a < b {
      DivideMonotone(a, b, d);
    }
  }

  lemma ScaleWeaklyMonotone(a: real, b: real, f: real)
    requires a <= b && f >= 0.0
    ensures Product(f, a) <= Product(f, b)
  {
  }

  lemma AgedRecency(s: Stats, factor: real)
    requires Sane(s) && s.total > 0 && 0.0 < factor <= 1.0
    ensures RecencyAccuracy(Aged(s, factor)) == RecencyAccuracy(s)
  {
    CommonFactorCancels(s.weightedCorrect, s.weightedTotal, factor);
    ScaleDown(s.weightedTotal, factor);
  }

  lemma AgedDecay(s: Stats, factor: real)
    requires Sane(s) && s.total > 0 && 0.0 < factor <= 1.0
    ensures DecayFactor(Aged(s, factor)) <= DecayFactor(s)
  {
    AgedIsLighter(s, factor);
    DecayFalls(Aged(s, factor).weightedTotal, s.weightedTotal, s.total);
  }

  lemma DecayFalls(a: real, b: real, total: nat)
    requires a <= b && total > 0
    ensures Decay(a, total) <= Decay(b, total)
  {
    DivideWeaklyMonotone(a, b, total as real);
  }

  lemma AgedIsLighter(s: Stats, factor: real)
    requires s.weightedTotal >= 0.0 && 0.0 < factor <= 1.0
    ensures Aged(s, factor).weightedTotal <= s.weightedTotal
  {
    ScaleDown(s.weightedTotal, factor);
  }

  lemma ConfidenceFalls(lighter: Stats, s: Stats)
    requires lighter.weightedTotal <= s.weightedTotal
    ensures Confidence(lighter) <= Confidence(s)
  {
  }

  /** Time passing without attempts leaves the recency accuracy alone and never raises mastery or
      confidence. */
  lemma AgeingNeverRaises(s: Stats, factor: real)
    requires Sane(s) && s.total > 0 && 0.0 < factor <= 1.0
    ensures RecencyAccuracy(Aged(s, factor)) == RecencyAccuracy(s)
    ensures MasteryScore(Aged(s, factor)) <= MasteryScore(s)
    ensures Confidence(Aged(s, factor)) <= Confidence(s)
  {
    AgedRecency(s, factor);
    AgedDecay(s, factor);
    AgedIsLighter(s, factor);
    ConfidenceFalls(Aged(s, factor), s);
    SmoothedBounds(s);
    RecencyBounds(s);
    ScoreFalls(Smoothed(s), RecencyAccuracy(s), DecayFactor(Aged(s, factor)), DecayFactor(s));
  }

  lemma ScoreFalls(smoothed: real, recency: real, decay: real, decay': real)
    requires smoothed >= 0.0 && recency >= 0.0 && decay <= decay'
    ensures Score(smoothed, recency, decay) <= Score(smoothed, recency, decay')
  {
    ScaleWeaklyMonotone(0.6 + 0.4 * decay, 0.6 + 0.4 * decay', smoothed * 0.6 + recency * 0.4);
  }

  /** The same of a whole history: when every attempt has aged by the same time, a tag that was practised keeps
      its recency accuracy, and its mastery and confidence have not risen. */
  lemma PassingTimeNeverRaises(rows: seq<Attempt>, wrongCounts: map<nat, nat>, tag: string, factor: real)
    requires forall i :: 0 <= i < |rows| ==> 0.0 < rows[i].weight <= 1.0
    requires 0.0 < factor <= 1.0 && StatsFor(rows, wrongCounts, tag).total > 0
    ensures var before, after := StatsFor(rows, wrongCounts, tag), StatsFor(AgedRows(rows, factor), wrongCounts, tag);
            && RecencyAccuracy(after) == RecencyAccuracy(before)
            && MasteryScore(after) <= MasteryScore(before) && Confidence(after) <= Confidence(before)
  {
    AgeingCommutes(rows, wrongCounts, tag, factor);
    StatsAreSane(rows, wrongCounts, tag);
    AgeingNeverRaises(StatsFor(rows, wrongCounts, tag), factor);
  }
}
