/**
 * The deterministic scoring core of the evaluation gate: a single greedy pass matches
 * reported findings to golden ones, and precision, recall and F1 are computed from the result.
 *
 * Points are counted in halves: a category match and a severity match are worth one each.
 */
module Judge {
  import opened Common

  /** A finding as the scorer reads it; a missing dictionary key is `None`. */
  datatype Finding = Finding(
    path: Option<string>,
    line: Option<int>,
    category: Option<string>,
    severity: Option<string>
  )

  /** Everything about a finding that the scorer looks at. */
  datatype Key = Key(path: Option<string>, line: Option<int>, category: string, severity: string)

  datatype Score = Score(
    precision: real,
    recall: real,
    f1: real,
    matched: real,
    expected: nat,
    actual: nat
  ) {
    predicate Passes(minF1: real) {
      f1 >= minF1
    }
  }

  // ---------- Reading a finding ----------

  /** The case mappings of the scorer, `str.lower` and `str.upper`: any two functions on texts. */
  datatype Cases = Cases(lower: string -> string, upper: string -> string)

  function Category(cases: Cases, f: Finding): string {
    cases.lower(f.category.GetOr(""))
  }

  /** A missing severity is rendered by `str(None)`. */
  function Severity(cases: Cases, f: Finding): string {
    cases.upper(f.severity.GetOr("None"))
  }

  function KeyOf(cases: Cases, f: Finding): Key {
    Key(f.path, f.line, Category(cases, f), Severity(cases, f))
  }

  function Keys(cases: Cases, fs: seq<Finding>): seq<Key> {
    Map(f => KeyOf(cases, f), fs)
  }

  predicate SameLocation(a: Key, g: Key) {
    a.path == g.path && a.line == g.line
  }

  /** Half-points that reported finding `a` earns against golden finding `g`. */
  function Points(a: Key, g: Key): (p: nat)
    ensures p <= 2
    ensures p == 2 <==> a == g
    ensures p > 0 <==> SameLocation(a, g) && (a.category == g.category || a.severity == g.severity)
  {
    if !SameLocation(a, g) then 0
    else (if a.category == g.category then 1 else 0) + (if a.severity == g.severity then 1 else 0)
  }

  // ---------- The greedy pass ----------

  /** The golden entry that the inner loop settles on after looking at the first `n`. */
  function Best(expected: seq<Key>, used: set<nat>, a: Key, n: nat): (r: Option<nat>)
    requires n <= |expected|
    ensures r.None? <==> forall i: nat | i < n && i !in used :: Points(a, expected[i]) == 0
    ensures r.Some? ==> r.value < n && r.value !in used && Points(a, expected[r.value]) > 0
    ensures r.Some? ==> forall i: nat | i < n && i !in used ::
                          && Points(a, expected[i]) <= Points(a, expected[r.value])
                          && (i < r.value ==> Points(a, expected[i]) < Points(a, expected[r.value]))
  {
    if n == 0 then None
    else
      var sofar := Best(expected, used, a, n - 1);
      var bar := if sofar.Some? then Points(a, expected[sofar.value]) else 0;
      if n - 1 !in used && Points(a, expected[n - 1]) > bar then Some(n - 1) else sofar
  }

  /** Golden entries claimed so far, and the half-points collected. */
  datatype Pass = Pass(used: set<nat>, points: nat)

  function Claim(expected: seq<Key>, t: Pass, a: Key): Pass {
    match Best(expected, t.used, a, |expected|)
    case None => t
    case Some(g) => Pass(t.used + {g}, t.points + Points(a, expected[g]))
  }

  /** The outer loop, resumed in state `t` with the findings in `actual` still to come. */
  function GreedyFrom(expected: seq<Key>, t: Pass, actual: seq<Key>): Pass
    decreases actual
  {
    if actual == [] then t else GreedyFrom(expected, Claim(expected, t, actual[0]), actual[1..])
  }

  function Greedy(expected: seq<Key>, actual: seq<Key>): Pass {
    GreedyFrom(expected, Pass({}, 0), actual)
  }

  /** Claims name golden entries, and each is worth one or two half-points. */
  predicate Sound(expected: seq<Key>, t: Pass) {
    && (forall g | g in t.used :: g < |expected|)
    && |t.used| <= t.points <= 2 * |t.used|
  }

  lemma {:induction false} GreedySound(expected: seq<Key>, t: Pass, actual: seq<Key>)
    requires Sound(expected, t)
    ensures var r := GreedyFrom(expected, t, actual);
            && Sound(expected, r)
            && t.points <= r.points <= t.points + 2 * |actual|
            && |r.used| <= |t.used| + |actual|
    decreases actual
  {
    if actual != [] {
      GreedySound(expected, Claim(expected, t, actual[0]), actual[1..]);
    }
  }

  lemma {:induction false} IndicesBound(s: set<nat>, n: nat)
    requires forall g | g in s :: g < n
    ensures |s| <= n
  {
    if n == 0 {
      assert s == {};
    } else {
      IndicesBound(s - {n - 1}, n - 1);
      assert n - 1 !in s ==> s - {n - 1} == s;
    }
  }

  // ---------- The approximation bound ----------

  /** `m[j]` is the golden entry given to reported finding `j`, if any. */
  ghost predicate OneToOne(expected: seq<Key>, actual: seq<Key>, m: seq<Option<nat>>) {
    && |m| == |actual|
    && (forall j | 0 <= j < |m| && m[j].Some? ::
          m[j].value < |expected| && SameLocation(actual[j], expected[m[j].value]))
    && (forall i, j | 0 <= i < j < |m| && m[i].Some? && m[j].Some? :: m[i].value != m[j].value)
  }

  /** Half-points of an assignment. */
  ghost function Worth(expected: seq<Key>, actual: seq<Key>, m: seq<Option<nat>>): nat
    requires OneToOne(expected, actual, m)
  {
    if m == [] then 0
    else (if m[0].Some? then Points(actual[0], expected[m[0].value]) else 0)
         + Worth(expected, actual[1..], m[1..])
  }

  /** One report: whatever the assignment gives it is paid for by its own claim or by one new charge. */
  lemma {:induction false} ChargingStep(expected: seq<Key>, t: Pass, a: Key, taken: set<nat>, g: Option<nat>)
    requires g.Some? ==> g.value < |expected| && g.value !in taken
    ensures var t' := Claim(expected, t, a);
            var taken' := if g.Some? then taken + {g.value} else taken;
            var gain := if g.Some? then Points(a, expected[g.value]) else 0;
            gain + t.points + 2 * |t.used * taken| <= t'.points + 2 * |t'.used * taken'|
  {
    var t' := Claim(expected, t, a);
    Subset(t.used * taken, t'.used * taken);
    if g.Some? {
      var taken' := taken + {g.value};
      Subset(t'.used * taken, t'.used * taken');
      if g.value in t.used {
        assert t.used * taken' == t.used * taken + {g.value};
        Subset(t.used * taken', t'.used * taken');
      }
    }
  }

  /** Every claimed entry is charged at most once, by the report that the assignment gives it to. */
  lemma {:induction false} ChargingArgument(expected: seq<Key>, t: Pass, actual: seq<Key>,
                                            m: seq<Option<nat>>, taken: set<nat>)
    requires OneToOne(expected, actual, m)
    requires forall j | 0 <= j < |m| && m[j].Some? :: m[j].value !in taken
    ensures var r := GreedyFrom(expected, t, actual);
            Worth(expected, actual, m) + t.points + 2 * |t.used * taken| <= r.points + 2 * |r.used|
    decreases actual
  {
    if m == [] {
      Subset(t.used * taken, t.used);
    } else {
      ChargingStep(expected, t, actual[0], taken, m[0]);
      var taken' := if m[0].Some? then taken + {m[0].value} else taken;
      ChargingArgument(expected, Claim(expected, t, actual[0]), actual[1..], m[1..], taken');
    }
  }

  lemma {:induction false} Subset(a: set<nat>, b: set<nat>)
    requires a <= b
    ensures |a| <= |b|
  {
    if a != {} {
      var x :| x in a;
      Subset(a - {x}, b - {x});
    }
  }

  /** The pass collects at least a third of what any one-to-one assignment collects. */
  lemma {:induction false} GreedyIsWithinAThird(expected: seq<Key>, actual: seq<Key>, m: seq<Option<nat>>)
    requires OneToOne(expected, actual, m)
    ensures Worth(expected, actual, m) <= 3 * Greedy(expected, actual).points
  {
    ChargingArgument(expected, Pass({}, 0), actual, m, {});
    GreedySound(expected, Pass({}, 0), actual);
  }

  /** Two golden and two reported findings on which the third is reached exactly. */
  lemma {:induction false} AThirdIsTight() returns (expected: seq<Key>, actual: seq<Key>, m: seq<Option<nat>>)
    ensures |expected| == |actual| == 2
    ensures OneToOne(expected, actual, m)
    ensures Worth(expected, actual, m) == 3 * Greedy(expected, actual).points > 0
  {
    var g0 := Key(None, Some(1), "", "");
    var g1 := Key(None, Some(1), "x", "M");
    // The first report ties at one half-point on both entries and blocks the second report.
    var a0 := Key(None, Some(1), "", "M");
    expected, actual, m := [g0, g1], [a0, g0], [Some(1), Some(0)];
    assert Points(a0, g0) == 1 && Points(a0, g1) == 1 && Points(g0, g1) == 0 && Points(g0, g0) == 2;
    assert Best(expected, {}, a0, 1) == Some(0) && Best(expected, {0}, g0, 1) == None;
    assert Claim(expected, Pass({}, 0), a0) == Pass({0}, 1);
    assert Claim(expected, Pass({0}, 1), g0) == Pass({0}, 1);
    assert GreedyFrom(expected, Pass({0}, 1), [g0]) == Pass({0}, 1);
    assert Worth(expected, [g0], [Some(0)]) == 2;
  }

  // ---------- Perfect scores ----------

  /** Keys of the golden entries below `n` that nobody has claimed. */
  ghost function Free(expected: seq<Key>, used: set<nat>, n: nat): multiset<Key>
    requires n <= |expected|
  {
    if n == 0 then multiset{}
    else if n - 1 in used then Free(expected, used, n - 1)
    else Free(expected, used, n - 1) + multiset{expected[n - 1]}
  }

  lemma {:induction false} FreeAfterClaim(expected: seq<Key>, used: set<nat>, g: nat, n: nat)
    requires n <= |expected| && g !in used && g < |expected|
    ensures g >= n ==> Free(expected, used, n) == Free(expected, used + {g}, n)
    ensures g < n ==> Free(expected, used, n) == Free(expected, used + {g}, n) + multiset{expected[g]}
  {
    if n > 0 {
      FreeAfterClaim(expected, used, g, n - 1);
      assert n - 1 in used + {g} <==> n - 1 in used || n - 1 == g;
    }
  }

  lemma {:induction false} AllFree(expected: seq<Key>, n: nat)
    requires n <= |expected|
    ensures Free(expected, {}, n) == multiset(expected[..n])
  {
    if n > 0 {
      AllFree(expected, n - 1);
      assert expected[..n] == expected[..n - 1] + [expected[n - 1]];
    }
  }

  lemma {:induction false} FreeMember(expected: seq<Key>, used: set<nat>, key: Key, n: nat) returns (g: nat)
    requires n <= |expected| && key in Free(expected, used, n)
    ensures g < n && g !in used && expected[g] == key
  {
    if n - 1 !in used && expected[n - 1] == key {
      g := n - 1;
    } else {
      g := FreeMember(expected, used, key, n - 1);
    }
  }

  /** A report that earns full marks takes exactly its own key out of the free ones. */
  lemma {:induction false} PerfectStep(expected: seq<Key>, t: Pass, a: Key)
    requires Claim(expected, t, a).points == t.points + 2
    ensures Free(expected, t.used, |expected|)
            == Free(expected, Claim(expected, t, a).used, |expected|) + multiset{a}
  {
    var best := Best(expected, t.used, a, |expected|);
    assert best.Some? && expected[best.value] == a;
    FreeAfterClaim(expected, t.used, best.value, |expected|);
  }

  /** If every report earns full marks, the keys claimed are exactly the reported keys. */
  lemma {:induction false} FullMarksClaimReports(expected: seq<Key>, t: Pass, actual: seq<Key>)
    requires Sound(expected, t)
    requires GreedyFrom(expected, t, actual).points == t.points + 2 * |actual|
    ensures Free(expected, t.used, |expected|)
            == Free(expected, GreedyFrom(expected, t, actual).used, |expected|) + multiset(actual)
    decreases actual
  {
    if actual != [] {
      var t' := Claim(expected, t, actual[0]);
      GreedySound(expected, t', actual[1..]);
      PerfectStep(expected, t, actual[0]);
      FullMarksClaimReports(expected, t', actual[1..]);
      HeadTail(actual);
    }
  }

  /** A report whose key is still free earns full marks. */
  lemma {:induction false} FreeKeyScoresFully(expected: seq<Key>, t: Pass, a: Key)
    requires a in Free(expected, t.used, |expected|)
    ensures Claim(expected, t, a).points == t.points + 2
  {
    var g := FreeMember(expected, t.used, a, |expected|);
    assert Points(a, expected[g]) == 2;
  }

  /** If the free keys cover the reports, no report is ever short of a full match. */
  lemma {:induction false} CoveredReportsScoreFully(expected: seq<Key>, t: Pass, actual: seq<Key>)
    requires multiset(actual) <= Free(expected, t.used, |expected|)
    ensures GreedyFrom(expected, t, actual).points == t.points + 2 * |actual|
    decreases actual
  {
    if actual != [] {
      HeadTail(actual);
      assert actual[0] in multiset(actual);
      FreeKeyScoresFully(expected, t, actual[0]);
      PerfectStep(expected, t, actual[0]);
      var free := Free(expected, Claim(expected, t, actual[0]).used, |expected|);
      assert multiset(actual[1..]) + multiset{actual[0]} <= free + multiset{actual[0]};
      assert multiset(actual[1..]) <= free by {
        forall k | k in multiset(actual[1..])
          ensures multiset(actual[1..])[k] <= free[k]
        {
          assert (multiset(actual[1..]) + multiset{actual[0]})[k] <= (free + multiset{actual[0]})[k];
        }
      }
      CoveredReportsScoreFully(expected, Claim(expected, t, actual[0]), actual[1..]);
    }
  }

  /** Full marks on both sides mean the same keys, in any order. */
  lemma {:induction false} FullMarks(expected: seq<Key>, actual: seq<Key>)
    ensures (Greedy(expected, actual).points == 2 * |actual| && |actual| == |expected|)
            <==> multiset(expected) == multiset(actual)
  {
    var n, t, r := |expected|, Pass({}, 0), Greedy(expected, actual);
    AllFree(expected, n);
    assert expected[..n] == expected;
    if r.points == 2 * |actual| && |actual| == n {
      FullMarksClaimReports(expected, t, actual);
      assert |multiset(actual)| == |multiset(expected)| == n;
      assert Free(expected, r.used, n) == multiset{};
    }
    if multiset(expected) == multiset(actual) {
      CoveredReportsScoreFully(expected, t, actual);
      assert |multiset(expected)| == n;
    }
  }

  // ---------- Precision, recall and F1 ----------

  /** No more points are matched than either list has findings. */
  lemma {:induction false} MatchedBound(expected: seq<Key>, actual: seq<Key>)
    ensures Greedy(expected, actual).points <= 2 * |actual|
    ensures Greedy(expected, actual).points <= 2 * |expected|
  {
    GreedySound(expected, Pass({}, 0), actual);
    IndicesBound(Greedy(expected, actual).used, |expected|);
  }

  /** The F1 that the code computes from precision and recall, on half-point totals. */
  function F1(precision: real, recall: real): real {
    if precision + recall > 0.0 then 2.0 * precision * recall / (precision + recall) else 0.0
  }

  function Ratio(matched: real, n: nat, whenEmpty: real): real {
    if n == 0 then whenEmpty else matched / n as real
  }

  /** F1 is the Dice coefficient of the two lists. */
  ghost predicate IsDice(f1: real, matched: real, expected: nat, actual: nat) {
    f1 * (actual as real + expected as real) == 2.0 * matched && 0.0 <= f1 <= 1.0
  }

  lemma {:induction false} SummaryIsDice(matched: real, expected: nat, actual: nat)
    requires 0.0 <= matched <= actual as real && matched <= expected as real
    ensures IsDice(Summary(matched, expected, actual).f1, matched, expected, actual)
    ensures Summary(matched, expected, actual).f1 == 1.0
            <==> matched == actual as real && actual == expected && expected > 0
  {
    var a, e := actual as real, expected as real;
    if matched > 0.0 {
      HarmonicMean(matched, a, e);
      DiceRange(F1(matched / a, matched / e), matched, a, e);
    } else {
      assert Ratio(matched, actual, 0.0) == 0.0;
    }
  }

  lemma {:induction false} DiceRange(f: real, m: real, a: real, e: real)
    requires 0.0 < m <= a && m <= e && f * (a + e) == 2.0 * m
    ensures 0.0 <= f <= 1.0
    ensures f == 1.0 <==> m == a == e
  {
    Ordered(0.0, f, a + e);
    assert f * (a + e) <= 1.0 * (a + e);
    Ordered(f, 1.0, a + e);
    if m == a == e {
      Cancel(f, 1.0, a + e);
    }
  }

  lemma {:induction false} HarmonicMean(m: real, a: real, e: real)
    requires m > 0.0 && a > 0.0 && e > 0.0
    ensures m / a + m / e > 0.0
    ensures 2.0 * (m / a) * (m / e) / (m / a + m / e) * (a + e) == 2.0 * m
  {
    var p, r := m / a, m / e;
    assert p * a == m && r * e == m;
    assert p > 0.0 && r > 0.0;
    var f := 2.0 * m / (a + e);
    assert f * (a + e) == 2.0 * m;
    calc {
      f * (p + r) * (a * e);
      f * (p * a * e + r * e * a);
      f * (m * e + m * a);
      (f * (a + e)) * m;
      2.0 * m * m;
      2.0 * (p * a) * (r * e);
      2.0 * p * r * (a * e);
    }
    assert a * e > 0.0;
    Cancel(f * (p + r), 2.0 * p * r, a * e);
    assert f * (p + r) == 2.0 * p * r;
    assert 2.0 * p * r / (p + r) == f;
  }

  lemma {:induction false} Ordered(x: real, y: real, c: real)
    requires c > 0.0 && x * c <= y * c
    ensures x <= y
  {
    assert (y - x) * c >= 0.0;
  }

  lemma {:induction false} Cancel(x: real, y: real, c: real)
    requires c > 0.0 && x * c == y * c
    ensures x == y
  {
    assert (x - y) * c == 0.0;
  }

  function Summary(matched: real, expected: nat, actual: nat): Score {
    var precision := Ratio(matched, actual, 0.0);
    var recall := Ratio(matched, expected, 1.0);
    Score(precision, recall, F1(precision, recall), matched, expected, actual)
  }

  /** The score as a function of the two lists. */
  function ScoreOf(cases: Cases, golden: seq<Finding>, actual: seq<Finding>): Score {
    Summary(Greedy(Keys(cases, golden), Keys(cases, actual)).points as real / 2.0, |golden|, |actual|)
  }

  lemma {:induction false} KeyLaws(expected: seq<Key>, actual: seq<Key>)
    ensures var matched := Greedy(expected, actual).points as real / 2.0;
            var f1 := Summary(matched, |expected|, |actual|).f1;
            && IsDice(f1, matched, |expected|, |actual|)
            && (f1 == 1.0 <==> expected != [] && multiset(expected) == multiset(actual))
  {
    MatchedBound(expected, actual);
    FullMarks(expected, actual);
    SummaryIsDice(Greedy(expected, actual).points as real / 2.0, |expected|, |actual|);
  }

  /** F1 is 2 * matched / (actual + expected), and it is 1 exactly for the same findings in any order. */
  lemma {:induction false} F1Laws(cases: Cases, golden: seq<Finding>, actual: seq<Finding>)
    ensures var s := ScoreOf(cases, golden, actual);
            && IsDice(s.f1, s.matched, |golden|, |actual|)
            && (s.f1 == 1.0 <==> golden != [] && multiset(Keys(cases, golden)) == multiset(Keys(cases, actual)))
  {
    KeyLaws(Keys(cases, golden), Keys(cases, actual));
  }

  // ---------- The score in plain terms ----------

  /** Two findings agree in everything the scorer reads: a missing category is empty, a missing severity "None". */
  predicate Agree(cases: Cases, a: Finding, g: Finding) {
    && a.path == g.path && a.line == g.line
    && SameCategory(cases, a, g) && SameSeverity(cases, a, g)
  }

  predicate SameCategory(cases: Cases, a: Finding, g: Finding) {
    cases.lower(if a.category.Some? then a.category.value else "")
    == cases.lower(if g.category.Some? then g.category.value else "")
  }

  predicate SameSeverity(cases: Cases, a: Finding, g: Finding) {
    cases.upper(if a.severity.Some? then a.severity.value else "None")
    == cases.upper(if g.severity.Some? then g.severity.value else "None")
  }

  /** What a report is worth against a golden finding: a half for each of category and severity, at one place. */
  lemma {:induction false} PointsOfFindings(cases: Cases, a: Finding, g: Finding)
    ensures Points(KeyOf(cases, a), KeyOf(cases, g)) as real / 2.0 ==
            if a.path != g.path || a.line != g.line then 0.0
            else (if SameCategory(cases, a, g) then 0.5 else 0.0) + (if SameSeverity(cases, a, g) then 0.5 else 0.0)
    ensures KeyOf(cases, a) == KeyOf(cases, g) <==> Agree(cases, a, g)
  {
  }

  /** `to` pairs the findings of two lists off, each report with a golden finding it agrees with. */
  ghost predicate PairsOff(cases: Cases, golden: seq<Finding>, actual: seq<Finding>, to: seq<nat>) {
    && |to| == |actual| == |golden|
    && (forall i | 0 <= i < |to| :: to[i] < |golden| && Agree(cases, actual[i], golden[to[i]]))
    && (forall i, j | 0 <= i < j < |to| :: to[i] != to[j])
  }

  lemma {:induction false} KeysAt(cases: Cases, fs: seq<Finding>)
    ensures |Keys(cases, fs)| == |fs| && forall i | 0 <= i < |fs| :: Keys(cases, fs)[i] == KeyOf(cases, fs[i])
  {
  }

  /** Equal multisets can be paired off. */
  lemma {:induction false} PairUp<A>(xs: seq<A>, ys: seq<A>) returns (to: seq<nat>)
    requires multiset(xs) == multiset(ys)
    ensures |to| == |xs| == |ys|
    ensures forall i | 0 <= i < |to| :: to[i] < |ys| && ys[to[i]] == xs[i]
    ensures forall i, j | 0 <= i < j < |to| :: to[i] != to[j]
  {
    SameSize(xs, ys);
    to := [];
    if xs != [] {
      var n := |xs| - 1;
      var k, rest := LastTakenOut(xs, ys);
      var before := PairUp(xs[..n], rest);
      to := Shifted(before, k) + [k];
      ShiftedPairs(xs[..n], ys, rest, k, before);
    }
  }

  lemma {:induction false} SameSize<A>(xs: seq<A>, ys: seq<A>)
    requires multiset(xs) == multiset(ys)
    ensures |xs| == |ys|
  {
    assert |multiset(xs)| == |xs| && |multiset(ys)| == |ys|;
  }

  lemma {:induction false} LastTakenOut<A>(xs: seq<A>, ys: seq<A>) returns (k: nat, rest: seq<A>)
    requires multiset(xs) == multiset(ys) && xs != []
    ensures k < |ys| && ys[k] == xs[|xs| - 1] && rest == ys[..k] + ys[k + 1..]
    ensures multiset(xs[..|xs| - 1]) == multiset(rest)
  {
    var n := |xs| - 1;
    var last := [xs[n]];
    assert xs == xs[..n] + last;
    assert xs[n] in multiset(xs);
    k, rest := TakeOut(ys, xs[n]);
    assert multiset(xs[..n]) == multiset(xs) - multiset{xs[n]} == multiset(rest);
  }

  /** Positions in a list from which element `k` was taken out, as positions in the list with it. */
  function Shifted(to: seq<nat>, k: nat): (r: seq<nat>)
    ensures |r| == |to|
    ensures forall i | 0 <= i < |to| :: r[i] == if to[i] < k then to[i] else to[i] + 1
  {
    seq(|to|, i requires 0 <= i < |to| => if to[i] < k then to[i] else to[i] + 1)
  }

  lemma {:induction false} ShiftedPairs<A>(xs: seq<A>, ys: seq<A>, rest: seq<A>, k: nat, to: seq<nat>)
    requires k < |ys| && rest == ys[..k] + ys[k + 1..] && |to| == |xs|
    requires forall i | 0 <= i < |to| :: to[i] < |rest| && rest[to[i]] == xs[i]
    requires forall i, j | 0 <= i < j < |to| :: to[i] != to[j]
    ensures forall i | 0 <= i < |to| :: Shifted(to, k)[i] < |ys| && ys[Shifted(to, k)[i]] == xs[i]
    ensures forall i | 0 <= i < |to| :: Shifted(to, k)[i] != k
    ensures forall i, j | 0 <= i < j < |to| :: Shifted(to, k)[i] != Shifted(to, k)[j]
  {
  }

  /** A pairing makes the multisets equal. */
  lemma {:induction false} PairedUp<A>(xs: seq<A>, ys: seq<A>, to: seq<nat>)
    requires |to| == |xs| == |ys|
    requires forall i | 0 <= i < |to| :: to[i] < |ys| && ys[to[i]] == xs[i]
    requires forall i, j | 0 <= i < j < |to| :: to[i] != to[j]
    ensures multiset(xs) == multiset(ys)
    decreases |xs|
  {
    if xs != [] {
      var n := |xs| - 1;
      var k := to[n];
      var rest := ys[..k] + ys[k + 1..];
      var before := seq(n, i requires 0 <= i < n => if to[i] < k then to[i] else (to[i] - 1) as nat);
      forall i | 0 <= i < n
        ensures before[i] < |rest| && rest[before[i]] == xs[..n][i]
      {
        assert to[i] != k;
      }
      PairedUp(xs[..n], rest, before);
      assert xs == xs[..n] + [xs[n]];
      assert ys == ys[..k] + ([ys[k]] + ys[k + 1..]);
      assert multiset(ys) == multiset(rest) + multiset{ys[k]};
    }
  }

  /** The same keys in any order: the findings can be paired off. */
  lemma {:induction false} SameKeysPairOff(cases: Cases, golden: seq<Finding>, actual: seq<Finding>)
    ensures multiset(Keys(cases, golden)) == multiset(Keys(cases, actual))
            <==> exists to :: PairsOff(cases, golden, actual, to)
  {
    KeysAt(cases, golden);
    KeysAt(cases, actual);
    hide Keys;
    forall a, g
      ensures KeyOf(cases, a) == KeyOf(cases, g) <==> Agree(cases, a, g)
    {
      PointsOfFindings(cases, a, g);
    }
    hide KeyOf, Agree;
    if multiset(Keys(cases, golden)) == multiset(Keys(cases, actual)) {
      var to := PairUp(Keys(cases, actual), Keys(cases, golden));
      assert PairsOff(cases, golden, actual, to);
    }
    if to :| PairsOff(cases, golden, actual, to) {
      PairedUp(Keys(cases, actual), Keys(cases, golden), to);
    }
  }

  lemma {:induction false} RatioFacts(matched: real, n: nat, whenEmpty: real)
    requires 0.0 <= matched <= n as real && 0.0 <= whenEmpty <= 1.0
    ensures var r := Ratio(matched, n, whenEmpty);
            && r * n as real == matched && 0.0 <= r <= 1.0
            && (n == 0 ==> r == whenEmpty)
            && (n > 0 ==> (r == 1.0 <==> matched == n as real))
  {
    if n > 0 {
      var x, r := n as real, matched / n as real;
      assert r * x == matched;
      ProductOrder(0.0, r, x);
      ProductOrder(r, 1.0, x);
      ProductOrder(1.0, r, x);
    }
  }

  /**
   * All six numbers of a score. Precision and recall are the matched points over the reports and over the
   * golden findings, 0 without reports and 1 without golden findings; each is 1 exactly when its side is
   * matched in full. F1 is 1 exactly when the findings can be paired off and there are any.
   */
  lemma {:induction false} ScoreIsExact(cases: Cases, golden: seq<Finding>, actual: seq<Finding>)
    ensures var s := ScoreOf(cases, golden, actual);
            && s.expected == |golden| && s.actual == |actual|
            && 0.0 <= s.matched <= |actual| as real && s.matched <= |golden| as real
            && s.precision * |actual| as real == s.matched && 0.0 <= s.precision <= 1.0
            && s.recall * |golden| as real == s.matched && 0.0 <= s.recall <= 1.0
            && (actual == [] ==> s.precision == 0.0) && (golden == [] ==> s.recall == 1.0)
            && (s.precision == 1.0 <==> actual != [] && s.matched == |actual| as real)
            && (s.recall == 1.0 <==> s.matched == |golden| as real)
            && s.f1 * (|actual| as real + |golden| as real) == 2.0 * s.matched && 0.0 <= s.f1 <= 1.0
            && (s.f1 == 1.0 <==> golden != [] && exists to :: PairsOff(cases, golden, actual, to))
  {
    hide ScoreOf, IsDice, PairsOff, Keys;
    F1Laws(cases, golden, actual);
    SameKeysPairOff(cases, golden, actual);
    ScoreFields(cases, golden, actual);
    DiceMeans(ScoreOf(cases, golden, actual).f1, ScoreOf(cases, golden, actual).matched, |golden|, |actual|);
  }

  lemma {:induction false} DiceMeans(f1: real, matched: real, expected: nat, actual: nat)
    requires IsDice(f1, matched, expected, actual)
    ensures f1 * (actual as real + expected as real) == 2.0 * matched && 0.0 <= f1 <= 1.0
  {
  }

  lemma {:induction false} ScoreFields(cases: Cases, golden: seq<Finding>, actual: seq<Finding>)
    ensures var s := ScoreOf(cases, golden, actual);
            && s.expected == |golden| && s.actual == |actual|
            && 0.0 <= s.matched <= |actual| as real && s.matched <= |golden| as real
            && s.precision * |actual| as real == s.matched && 0.0 <= s.precision <= 1.0
            && s.recall * |golden| as real == s.matched && 0.0 <= s.recall <= 1.0
            && (actual == [] ==> s.precision == 0.0) && (golden == [] ==> s.recall == 1.0)
            && (s.precision == 1.0 <==> actual != [] && s.matched == |actual| as real)
            && (s.recall == 1.0 <==> s.matched == |golden| as real)
  {
    KeysAt(cases, golden);
    KeysAt(cases, actual);
    hide Greedy, Keys, F1, Ratio;
    MatchedBound(Keys(cases, golden), Keys(cases, actual));
    var matched := Greedy(Keys(cases, golden), Keys(cases, actual)).points as real / 2.0;
    RatioFacts(matched, |actual|, 0.0);
    RatioFacts(matched, |golden|, 1.0);
  }

  /** No one-to-one assignment of reports to golden findings is worth more than three times the score. */
  lemma {:induction false} MatchedIsWithinAThird(cases: Cases, golden: seq<Finding>, actual: seq<Finding>,
                                                 m: seq<Option<nat>>)
    requires OneToOne(Keys(cases, golden), Keys(cases, actual), m)
    ensures Worth(Keys(cases, golden), Keys(cases, actual), m) as real / 2.0
            <= 3.0 * ScoreOf(cases, golden, actual).matched
  {
    GreedyIsWithinAThird(Keys(cases, golden), Keys(cases, actual), m);
  }

  /** The self-check of the gate: any reordering of a golden set scores 1, unless the set is empty. */
  lemma {:induction false} SelfCheckPasses(cases: Cases, golden: seq<Finding>, actual: seq<Finding>, minF1: real)
    requires multiset(golden) == multiset(actual)
    ensures ScoreOf(cases, golden, actual).f1 == if golden == [] then 0.0 else 1.0
    ensures ScoreOf(cases, golden, actual).Passes(minF1) <==> minF1 <= 0.0 || (golden != [] && minF1 <= 1.0)
  {
    F1Laws(cases, golden, actual);
    MapOfPermutation(f => KeyOf(cases, f), golden, actual);
    if golden == [] {
      assert |multiset(actual)| == 0;
    }
  }

  /** The inner loop: the best unclaimed golden finding for one report. */
  method PickBest(cases: Cases, golden: seq<Finding>, used: set<nat>, a: Finding,
                  ghost gold: seq<Key>, ghost report: Key)
    returns (best: Option<nat>, bestPoints: real)
    requires gold == Keys(cases, golden) && report == KeyOf(cases, a)
    ensures best == Best(gold, used, report, |gold|)
    ensures bestPoints == if best.Some? then Points(report, gold[best.value]) as real / 2.0 else 0.0
  {
    best, bestPoints := None, 0.0;
    for i := 0 to |golden|
      invariant best == Best(gold, used, report, i)
      invariant bestPoints == if best.Some? then Points(report, gold[best.value]) as real / 2.0 else 0.0
    {
      var g := golden[i];
      assert gold[i] == KeyOf(cases, g);
      if i in used {
        continue;
      }
      if a.path != g.path || a.line != g.line {
        continue;
      }
      var points := 0.0;
      if Category(cases, a) == Category(cases, g) {
        points := points + 0.5;
      }
      if Severity(cases, a) == Severity(cases, g) {
        points := points + 0.5;
      }
      if points > bestPoints {
        bestPoints, best := points, Some(i);
      }
    }
  }

  /** The outer loop: the points that the reports collect. */
  method CollectPoints(cases: Cases, golden: seq<Finding>, actual: seq<Finding>) returns (matchedSum: real)
    ensures matchedSum == Greedy(Keys(cases, golden), Keys(cases, actual)).points as real / 2.0
  {
    hide KeyOf, Best;
    ghost var gold, reports := Keys(cases, golden), Keys(cases, actual);
    ghost var halves: nat := 0;
    var used: set<nat> := {};
    matchedSum := 0.0;
    for k := 0 to |actual|
      invariant matchedSum == halves as real / 2.0
      invariant GreedyFrom(gold, Pass(used, halves), reports[k..]) == Greedy(gold, reports)
    {
      ghost var before := Pass(used, halves);
      var best, bestPoints := PickBest(cases, golden, used, actual[k], gold, reports[k]);
      if best.Some? && bestPoints > 0.0 {
        used := used + {best.value};
        matchedSum := matchedSum + bestPoints;
        halves := halves + Points(reports[k], gold[best.value]);
      }
      assert Pass(used, halves) == Claim(gold, before, reports[k]);
      assert reports[k..][1..] == reports[k + 1..];
    }
  }

  /** Scores a list of reported findings against the golden findings of one pull request. */
  method ScoreFindings(cases: Cases, golden: seq<Finding>, actual: seq<Finding>) returns (score: Score)
    ensures score == ScoreOf(cases, golden, actual)
  {
    var matchedSum := CollectPoints(cases, golden, actual);
    var precision := Ratio(matchedSum, |actual|, 0.0);
    var recall := Ratio(matchedSum, |golden|, 1.0);
    score := Score(precision, recall, F1(precision, recall), matchedSum, |golden|, |actual|);
  }
}
