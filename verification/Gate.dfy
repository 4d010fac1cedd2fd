/**
 * Merging the findings of the four agents and routing the review: findings are deduplicated
 * per location, keeping the most confident one, and the merged list decides the verdict.
 */
module Gate {
  import opened Common

  /** In the alphabetical order that `sorted` gives the agent names. */
  datatype AgentType = Docs | Quality | Security | Tests

  datatype Severity = Critical | High | Medium | Low | Info

  datatype Location = Location(path: Option<string>, line: Option<int>)

  /** `detail` stands for the fields that are carried along unread. */
  datatype Finding = Finding(
    at: Location,
    agent: AgentType,
    severity: Severity,
    confidence: real,
    detail: string
  )

  datatype AgentResult = AgentResult(findings: seq<Finding>, error: Option<string>) {
    /** An empty error text counts as no error. */
    predicate Failed() {
      error.Some? && error.value != ""
    }

    /** A failed agent contributes nothing. */
    function Usable(): seq<Finding> {
      if Failed() then [] else findings
    }
  }

  /** A merged finding; `agreementCount` is only set where a location was reported more than once. */
  datatype Merged = Merged(best: Finding, agreedBy: seq<AgentType>, agreementCount: Option<nat>)

  datatype Decision = AutoPost | ApprovalQueue | Escalate

  datatype Verdict = Verdict(confidence: real, decision: Decision)

  // ---------- Merging ----------

  /** The reducer concatenates the agents' findings. */
  function Collected(results: seq<AgentResult>): seq<Finding> {
    Flatten(Map((r: AgentResult) => r.Usable(), results))
  }

  /** Locations in the order in which they first occur. */
  function Locations(all: seq<Finding>): (locs: seq<Location>)
    ensures forall l :: l in locs <==> exists i :: 0 <= i < |all| && all[i].at == l
    ensures forall i, j | 0 <= i < j < |locs| :: locs[i] != locs[j]
  {
    if all == [] then []
    else
      var n := |all| - 1;
      var before := Locations(all[..n]);
      assert forall i | 0 <= i < n :: all[..n][i] == all[i];
      if all[n].at in before then before else before + [all[n].at]
  }

  /** A location listed before another one is reported before it is. */
  lemma {:induction false} LocationsInOrder(all: seq<Finding>, i: nat, j: nat) returns (p: nat)
    requires i < j < |Locations(all)|
    ensures p < |all| && all[p].at == Locations(all)[i]
    ensures forall q | 0 <= q <= p :: all[q].at != Locations(all)[j]
  {
    var n := |all| - 1;
    var before := Locations(all[..n]);
    if j < |before| {
      p := LocationsInOrder(all[..n], i, j);
      assert forall q | 0 <= q < n :: all[..n][q] == all[q];
    } else {
      assert before[i] in before && all[n].at !in before;
      p :| 0 <= p < n && all[..n][p].at == before[i];
      forall q | 0 <= q <= p
        ensures all[q].at != all[n].at
      {
        assert all[..n][q].at in before;
      }
    }
  }

  function Group(all: seq<Finding>, loc: Location): (g: seq<Finding>)
    ensures forall f :: f in g <==> f in all && f.at == loc
  {
    if all == [] then []
    else
      var n := |all| - 1;
      assert forall f :: f in all <==> f in all[..n] || f == all[n];
      if all[n].at == loc then Group(all[..n], loc) + [all[n]] else Group(all[..n], loc)
  }

  predicate IsFirstBest(group: seq<Finding>, i: int) {
    && 0 <= i < |group|
    && (forall j | 0 <= j < |group| :: group[j].confidence <= group[i].confidence)
    && (forall j | 0 <= j < i :: group[j].confidence < group[i].confidence)
  }

  /** The first of the most confident findings, as `max` picks it. */
  function BestIndex(group: seq<Finding>): (i: nat)
    requires group != []
    ensures IsFirstBest(group, i)
  {
    var n := |group| - 1;
    if n == 0 then 0
    else
      var i := BestIndex(group[..n]);
      assert forall j | 0 <= j < n :: group[..n][j] == group[j];
      if group[n].confidence > group[i].confidence then n else i
  }

  function Agents(group: seq<Finding>): set<AgentType> {
    set f | f in group :: f.agent
  }

  /** Where an agent's name stands in the alphabet. */
  function Place(a: AgentType): nat {
    match a
    case Docs => 0
    case Quality => 1
    case Security => 2
    case Tests => 3
  }

  /** The agents of a set in alphabetical order. */
  function Sorted(agents: set<AgentType>): (names: seq<AgentType>)
    ensures |names| == |agents| <= 4
    ensures forall a :: a in names <==> a in agents
  {
    Cardinality(agents);
    Slot(Docs, agents) + Slot(Quality, agents) + Slot(Security, agents) + Slot(Tests, agents)
  }

  ghost predicate Alphabetical(names: seq<AgentType>) {
    forall i, j | 0 <= i < j < |names| :: Place(names[i]) < Place(names[j])
  }

  lemma {:induction false} AlphabeticalConcat(names: seq<AgentType>, a: AgentType, agents: set<AgentType>)
    requires Alphabetical(names) && forall b | b in names :: Place(b) < Place(a)
    ensures Alphabetical(names + Slot(a, agents))
    ensures forall b | b in names + Slot(a, agents) :: Place(b) <= Place(a)
  {
  }

  lemma {:induction false} SortedIsAlphabetical(agents: set<AgentType>)
    ensures Alphabetical(Sorted(agents))
  {
    hide Slot, Alphabetical;
    assert Alphabetical([]) by { EmptyIsAlphabetical(); }
    AlphabeticalConcat([], Docs, agents);
    var d := [] + Slot(Docs, agents);
    AlphabeticalConcat(d, Quality, agents);
    var q := d + Slot(Quality, agents);
    AlphabeticalConcat(q, Security, agents);
    AlphabeticalConcat(q + Slot(Security, agents), Tests, agents);
    assert d == Slot(Docs, agents);
  }

  lemma {:induction false} EmptyIsAlphabetical()
    ensures Alphabetical([])
  {
  }

  function Slot(a: AgentType, agents: set<AgentType>): (names: seq<AgentType>)
    ensures forall b :: b in names <==> b == a && a in agents
  {
    if a in agents then [a] else []
  }

  lemma {:induction false} Cardinality(agents: set<AgentType>)
    ensures |agents| == (if Docs in agents then 1 else 0) + (if Quality in agents then 1 else 0)
                        + (if Security in agents then 1 else 0) + (if Tests in agents then 1 else 0)
  {
    var d, q := agents - {Docs}, agents - {Docs} - {Quality};
    var s, t := q - {Security}, q - {Security} - {Tests};
    assert t == {} by {
      forall a | a in t
        ensures false
      {
        match a {
          case Docs =>
          case Quality =>
          case Security =>
          case Tests =>
        }
      }
    }
    assert |d| == |agents| - (if Docs in agents then 1 else 0);
    assert |q| == |d| - (if Quality in agents then 1 else 0);
    assert |s| == |q| - (if Security in agents then 1 else 0);
    assert |t| == |s| - (if Tests in agents then 1 else 0);
  }

  function MergeGroup(group: seq<Finding>): Merged
    requires group != []
  {
    if |group| == 1 then Merged(group[0], [], None)
    else
      var agreedBy := Sorted(Agents(group));
      Merged(group[BestIndex(group)], agreedBy, Some(|agreedBy|))
  }

  lemma {:induction false} GroupNonEmpty(all: seq<Finding>, loc: Location)
    requires loc in Locations(all)
    ensures Group(all, loc) != []
  {
    var i :| 0 <= i < |all| && all[i].at == loc;
    assert all[i] in Group(all, loc);
  }

  function MergeAt(all: seq<Finding>, loc: Location): Merged
    requires loc in Locations(all)
  {
    GroupNonEmpty(all, loc);
    MergeGroup(Group(all, loc))
  }

  function Merge(all: seq<Finding>): (merged: seq<Merged>)
    ensures |merged| == |Locations(all)|
    ensures forall i | 0 <= i < |merged| :: merged[i] == MergeAt(all, Locations(all)[i])
  {
    var locs := Locations(all);
    seq(|locs|, i requires 0 <= i < |locs| => MergeAt(all, locs[i]))
  }

  // ---------- Routing ----------

  function Confidence(m: Merged): real {
    m.best.confidence
  }

  predicate IsCritical(m: Merged) {
    m.best.severity.Critical?
  }

  function Boost(m: Merged): real {
    var agreed := m.agreementCount.GetOr(1);
    if agreed > 1 then 0.02 * (agreed - 1) as real else 0.0
  }

  function Mean(findings: seq<Merged>): real
    requires findings != []
  {
    Sum(Map(Confidence, findings)) / |findings| as real
  }

  function Overall(findings: seq<Merged>): real
    requires findings != []
  {
    Min(1.0, Mean(findings) + Sum(Map(Boost, findings)))
  }

  function Decide(findings: seq<Merged>, errors: seq<string>): Verdict {
    if findings == [] then
      if errors != [] then Verdict(0.0, ApprovalQueue) else Verdict(1.0, AutoPost)
    else if exists i :: 0 <= i < |findings| && IsCritical(findings[i]) then Verdict(0.0, Escalate)
    else Verdict(Overall(findings), if Overall(findings) >= 0.8 then AutoPost else ApprovalQueue)
  }

  /** The verdict on what the agents returned. */
  function Route(results: seq<AgentResult>, errors: seq<string>): Verdict {
    Decide(Merge(Collected(results)), errors)
  }

  // ---------- Who wins a location ----------

  /** The first of the most confident findings reported at its location. */
  ghost predicate Wins(all: seq<Finding>, i: int) {
    && 0 <= i < |all|
    && (forall j | 0 <= j < |all| && all[j].at == all[i].at :: all[j].confidence <= all[i].confidence)
    && (forall j | 0 <= j < i && all[j].at == all[i].at :: all[j].confidence < all[i].confidence)
  }

  lemma {:induction false} GroupSnoc(all: seq<Finding>, loc: Location)
    ensures all == [] ==> Group(all, loc) == []
    ensures all != [] ==> var n := |all| - 1;
            Group(all, loc) == if all[n].at == loc then Group(all[..n], loc) + [all[n]] else Group(all[..n], loc)
  {
  }

  /** Where the `k`-th finding of a group stands in the whole list. */
  lemma {:induction false} GroupPosition(all: seq<Finding>, loc: Location, k: nat) returns (i: nat)
    requires k < |Group(all, loc)|
    ensures i < |all| && all[i] == Group(all, loc)[k] && Group(all[..i], loc) == Group(all, loc)[..k]
  {
    hide Group;
    GroupSnoc(all, loc);
    var n := |all| - 1;
    var before := Group(all[..n], loc);
    if all[n].at == loc && k == |before| {
      i := n;
      assert (before + [all[n]])[..k] == before;
    } else {
      i := GroupPosition(all[..n], loc, k);
      assert all[..n][..i] == all[..i];
      assert all[n].at == loc ==> (before + [all[n]])[..k] == before[..k];
    }
  }

  /** Each location has a winner, and the merged entry is the winner with its rivals' agents. */
  lemma {:induction false} MergedIsWinner(all: seq<Finding>, loc: Location) returns (i: nat)
    requires loc in Locations(all)
    ensures Wins(all, i) && all[i].at == loc
    ensures var m := MergeAt(all, loc);
            && m.best == all[i]
            && m.agreementCount.GetOr(1) == |Agents(Group(all, loc))|
            && (m.agreementCount.Some? <==> |Group(all, loc)| > 1)
            && (forall a :: a in m.agreedBy <==> m.agreementCount.Some? && a in Agents(Group(all, loc)))
            && Alphabetical(m.agreedBy)
  {
    GroupNonEmpty(all, loc);
    var group := Group(all, loc);
    MergedGroup(group);
    hide MergeGroup, BestIndex, Group;
    var k := BestIndex(group);
    i := GroupPosition(all, loc, k);
    assert all[i] in group;
    forall j | 0 <= j < |all| && all[j].at == loc
      ensures all[j].confidence <= all[i].confidence
      ensures j < i ==> all[j].confidence < all[i].confidence
    {
      assert all[j] in group;
      if j < i {
        assert all[..i][j] in Group(all[..i], loc);
      }
    }
  }

  lemma {:induction false} MergedGroup(group: seq<Finding>)
    requires group != []
    ensures var m := MergeGroup(group);
            && m.best == group[BestIndex(group)]
            && m.agreementCount.GetOr(1) == |Agents(group)|
            && (m.agreementCount.Some? <==> |group| > 1)
            && (forall a :: a in m.agreedBy <==> m.agreementCount.Some? && a in Agents(group))
            && Alphabetical(m.agreedBy)
  {
    if |group| == 1 {
      assert Agents(group) == {group[0].agent};
    } else {
      SortedIsAlphabetical(Agents(group));
    }
  }

  lemma {:induction false} OneWinner(all: seq<Finding>, i: int, j: int)
    requires Wins(all, i) && Wins(all, j) && all[i].at == all[j].at
    ensures i == j
  {
  }

  /** Escalation happens exactly when some location's winner is CRITICAL. */
  lemma {:induction false} EscalatesExactly(results: seq<AgentResult>, errors: seq<string>)
    ensures Route(results, errors).decision == Escalate
            <==> exists i :: Wins(Collected(results), i) && Collected(results)[i].severity.Critical?
  {
    hide Merge, Collected;
    var all := Collected(results);
    CriticalWinner(all);
    assert Escalates(all) <==> exists i :: Wins(all, i) && all[i].severity.Critical?;
  }

  ghost predicate Escalates(all: seq<Finding>) {
    exists i :: Wins(all, i) && all[i].severity.Critical?
  }

  lemma {:induction false} CriticalWinner(all: seq<Finding>)
    ensures (exists k :: 0 <= k < |Merge(all)| && IsCritical(Merge(all)[k])) <==> Escalates(all)
  {
    hide MergeAt, Merge, Locations;
    var locs := Locations(all);
    if k :| 0 <= k < |Merge(all)| && IsCritical(Merge(all)[k]) {
      var i := MergedIsWinner(all, locs[k]);
    }
    if i :| Wins(all, i) && all[i].severity.Critical? {
      assert all[i].at in locs;
      var k :| 0 <= k < |locs| && locs[k] == all[i].at;
      var w := MergedIsWinner(all, locs[k]);
      OneWinner(all, i, w);
      assert IsCritical(Merge(all)[k]);
    }
  }

  /** A CRITICAL finding that a more confident agent outranks at its location is never escalated. */
  lemma {:induction false} ShadowedCriticalIsPosted(loc: Location) returns (results: seq<AgentResult>)
    ensures |results| == 2 && results[0].findings != [] && results[0].findings[0].severity.Critical?
    ensures Route(results, []).decision == AutoPost
  {
    var critical := Finding(loc, Security, Critical, 0.8, "");
    var minor := Finding(loc, Quality, Low, 0.9, "");
    results := [AgentResult([critical], None), AgentResult([minor], None)];
    CollectedSnoc(results, 0);
    CollectedSnoc(results, 1);
    assert results[..2] == results && results[..0] == [];
    CollectedNone();
    assert Collected(results) == [critical] + [minor] == [critical, minor];
    OutrankedIsPosted(critical, minor);
  }

  /** Two findings at one location: only the more confident one counts. */
  lemma {:induction false} OutrankedIsPosted(f: Finding, g: Finding)
    requires f.at == g.at && f.confidence < g.confidence
    requires 0.8 <= g.confidence <= 1.0 && !g.severity.Critical?
    ensures Decide(Merge([f, g]), []).decision == AutoPost
  {
    hide Merge, MergeAt, Decide, Locations, Group;
    var all := [f, g];
    TwoAtOneLocation(f, g);
    assert Wins(all, 1);
    var w := MergedIsWinner(all, f.at);
    OneWinner(all, 1, w);
    AgreementIsAtMostFour(all);
    assert Merge(all) == [MergeAt(all, f.at)];
    LoneVerdict(MergeAt(all, f.at), []);
  }

  lemma {:induction false} TwoAtOneLocation(f: Finding, g: Finding)
    requires f.at == g.at
    ensures Locations([f, g]) == [f.at] && Group([f, g], f.at) == [f, g]
  {
    assert [f, g][..1] == [f] && [f][..0] == [];
    assert Locations([f]) == Locations([]) + [f.at];
    assert Group([f], f.at) == Group([], f.at) + [f];
  }

  /** The verdict on a single merged finding. */
  lemma {:induction false} LoneVerdict(m: Merged, errors: seq<string>)
    requires !IsCritical(m) && m.agreementCount.GetOr(1) <= 4
    ensures m.best.confidence <= Decide([m], errors).confidence <= m.best.confidence + 0.06
            || Decide([m], errors).confidence == 1.0 < m.best.confidence + Boost(m)
    ensures Decide([m], errors).decision == AutoPost <==> Decide([m], errors).confidence >= 0.8
  {
    LoneMean(m);
    assert Map(Boost, [m]) == [Boost(m)];
    SumOfOne(Boost(m));
    assert [m][0] == m;
  }

  lemma {:induction false} LoneMean(m: Merged)
    ensures Mean([m]) == m.best.confidence
  {
    assert Map(Confidence, [m]) == [Confidence(m)];
    SumOfOne(Confidence(m));
  }

  lemma {:induction false} SumOfOne(x: real)
    ensures Sum([x]) == x
  {
    assert [x][1..] == [];
  }

  // ---------- How confident the verdict is ----------

  ghost predicate ConfidencesInRange(all: seq<Finding>) {
    forall i | 0 <= i < |all| :: 0.0 <= all[i].confidence <= 1.0
  }

  lemma {:induction false} SumBounds(s: seq<real>, low: real, high: real)
    requires forall i | 0 <= i < |s| :: low <= s[i] <= high
    ensures low * |s| as real <= Sum(s) <= high * |s| as real
  {
    if s != [] {
      SumBounds(s[1..], low, high);
    }
  }

  lemma {:induction false} AgreementIsAtMostFour(group: seq<Finding>)
    ensures |Agents(group)| <= 4
  {
    Cardinality(Agents(group));
  }

  /** The merged entry of a location: its confidence is in range and its boost is at most 0.06. */
  lemma {:induction false} EntryBounds(all: seq<Finding>, loc: Location)
    requires loc in Locations(all)
    ensures 0.0 <= Boost(MergeAt(all, loc)) <= 0.06
    ensures ConfidencesInRange(all) ==> 0.0 <= Confidence(MergeAt(all, loc)) <= 1.0
  {
    hide MergeAt;
    var i := MergedIsWinner(all, loc);
    AgreementIsAtMostFour(Group(all, loc));
  }

  /** Four agents can lift a location by at most 0.06. */
  lemma {:induction false} BoostBounds(all: seq<Finding>)
    ensures 0.0 <= Sum(Map(Boost, Merge(all))) <= 0.06 * |Locations(all)| as real
  {
    hide MergeAt, Boost, Sum;
    var merged := Merge(all);
    forall k | 0 <= k < |merged|
      ensures 0.0 <= Boost(merged[k]) <= 0.06
    {
      EntryBounds(all, Locations(all)[k]);
    }
    SumBounds(Map(Boost, merged), 0.0, 0.06);
  }

  lemma {:induction false} MeanInRange(all: seq<Finding>)
    requires all != [] && ConfidencesInRange(all)
    ensures Merge(all) != []
    ensures 0.0 <= Mean(Merge(all)) <= 1.0
  {
    hide MergeAt, Confidence, Sum;
    assert all[0].at in Locations(all);
    var merged := Merge(all);
    forall k | 0 <= k < |merged|
      ensures 0.0 <= Confidence(merged[k]) <= 1.0
    {
      EntryBounds(all, Locations(all)[k]);
    }
    SumBounds(Map(Confidence, merged), 0.0, 1.0);
    Quotient(Sum(Map(Confidence, merged)), |merged| as real);
  }

  lemma {:induction false} Quotient(x: real, n: real)
    requires n > 0.0 && 0.0 <= x <= n
    ensures 0.0 <= x / n <= 1.0
  {
  }

  /**
   * Unless it escalates, a review with findings is as confident as the mean of its locations' best
   * confidences, lifted by at most 0.06 a location, and is posted exactly from 0.8 on.
   */
  lemma {:induction false} ConfidenceBounds(all: seq<Finding>, errors: seq<string>)
    requires all != [] && ConfidencesInRange(all) && !Escalates(all)
    ensures var v, mean := Decide(Merge(all), errors), Mean(Merge(all));
            && mean <= v.confidence <= Min(1.0, mean + 0.06 * |Locations(all)| as real)
            && (v.decision == AutoPost <==> v.confidence >= 0.8)
            && v.decision != Escalate
  {
    hide Merge, Escalates, Sum, Mean, IsCritical;
    CriticalWinner(all);
    MeanInRange(all);
    BoostBounds(all);
  }

  /** One location whose best confidence is below 0.74 is never posted without a human. */
  lemma {:induction false} LoneWeakLocationIsNotPosted(all: seq<Finding>, errors: seq<string>, i: int)
    requires ConfidencesInRange(all) && |Locations(all)| == 1
    requires Wins(all, i) && all[i].confidence < 0.74
    ensures Decide(Merge(all), errors).decision != AutoPost
  {
    hide MergeAt, Decide;
    var loc := Locations(all)[0];
    assert all[i].at in Locations(all);
    var w := MergedIsWinner(all, loc);
    OneWinner(all, i, w);
    AgreementIsAtMostFour(Group(all, loc));
    var m := MergeAt(all, loc);
    assert Merge(all) == [m];
    if IsCritical(m) {
      LoneCritical(m, errors);
    } else {
      LoneVerdict(m, errors);
      EntryBounds(all, loc);
    }
  }

  lemma {:induction false} LoneCritical(m: Merged, errors: seq<string>)
    requires IsCritical(m)
    ensures Decide([m], errors) == Verdict(0.0, Escalate)
  {
    assert IsCritical([m][0]);
  }

  // ---------- The exact boost ----------

  /** Which agents have reported which of the given locations. */
  ghost function Reports(all: seq<Finding>, locs: set<Location>): set<(Location, AgentType)> {
    set f | f in all && f.at in locs :: (f.at, f.agent)
  }

  ghost function ReportsAt(loc: Location, agents: set<AgentType>): set<(Location, AgentType)> {
    set a | a in agents :: (loc, a)
  }

  lemma {:induction false} AsManyReports(loc: Location, agents: set<AgentType>)
    ensures |ReportsAt(loc, agents)| == |agents|
  {
    if a :| a in agents {
      AsManyReports(loc, agents - {a});
      assert ReportsAt(loc, agents) == ReportsAt(loc, agents - {a}) + {(loc, a)};
    } else {
      assert agents == {} && ReportsAt(loc, agents) == {};
    }
  }

  function Elements(locs: seq<Location>): set<Location> {
    set l | l in locs
  }

  /** One location more. */
  lemma {:induction false} ReportsStep(all: seq<Finding>, locs: set<Location>, loc: Location)
    requires loc !in locs
    ensures |Reports(all, locs + {loc})| == |Reports(all, locs)| + Reporters(all, loc)
  {
    var here := ReportsAt(loc, Agents(Group(all, loc)));
    AsManyReports(loc, Agents(Group(all, loc)));
    forall x
      ensures x in Reports(all, locs + {loc}) <==> x in Reports(all, locs) + here
    {
      if x in here {
        assert exists f :: f in Group(all, loc) && f.agent == x.1;
        var f :| f in Group(all, loc) && f.agent == x.1;
        assert f in all && (f.at, f.agent) == x;
      }
      if x in Reports(all, locs + {loc}) {
        var f :| f in all && f.at in locs + {loc} && (f.at, f.agent) == x;
        if f.at == loc {
          assert f in Group(all, loc);
          assert f.agent in Agents(Group(all, loc));
        }
      }
    }
    assert Reports(all, locs + {loc}) == Reports(all, locs) + here;
    assert Reports(all, locs) !! here;
  }

  /** How many agents have reported a location. */
  function Reporters(all: seq<Finding>, loc: Location): nat {
    |Agents(Group(all, loc))|
  }

  ghost predicate Distinct(locs: seq<Location>) {
    forall i, j | 0 <= i < j < |locs| :: locs[i] != locs[j]
  }

  lemma {:induction false} ElementsHead(locs: seq<Location>)
    requires locs != [] && Distinct(locs)
    ensures Distinct(locs[1..])
    ensures Elements(locs) == Elements(locs[1..]) + {locs[0]} && locs[0] !in Elements(locs[1..])
  {
    assert locs == [locs[0]] + locs[1..];
  }

  lemma {:induction false} Spread(a: int, b: int, n: int)
    ensures 0.02 * (a - n) as real + 0.02 * (b - 1) as real == 0.02 * (a + b - (n + 1)) as real
  {
  }

  ghost predicate AreBoosts(all: seq<Finding>, locs: seq<Location>, boosts: seq<real>) {
    |boosts| == |locs| && forall k | 0 <= k < |locs| :: boosts[k] == 0.02 * (Reporters(all, locs[k]) - 1) as real
  }

  lemma {:induction false} SumOfBoosts(all: seq<Finding>, locs: seq<Location>, boosts: seq<real>)
    requires Distinct(locs) && AreBoosts(all, locs, boosts)
    ensures Sum(boosts) == 0.02 * (|Reports(all, Elements(locs))| - |locs|) as real
  {
    if locs == [] {
      assert Elements([]) == {} && Reports(all, {}) == {};
    } else {
      var before := Elements(locs[1..]);
      assert AreBoosts(all, locs[1..], boosts[1..]);
      SumOfBoosts(all, locs[1..], boosts[1..]);
      ElementsHead(locs);
      ReportsStep(all, before, locs[0]);
      hide AreBoosts, Distinct, Elements, Reports, Reporters, Agents, Group;
      assert boosts[0] == 0.02 * (Reporters(all, locs[0]) - 1) as real by { FirstBoost(all, locs, boosts); }
      Spread(|Reports(all, before)|, Reporters(all, locs[0]), |locs| - 1);
    }
  }

  lemma {:induction false} FirstBoost(all: seq<Finding>, locs: seq<Location>, boosts: seq<real>)
    requires locs != [] && AreBoosts(all, locs, boosts)
    ensures boosts[0] == 0.02 * (Reporters(all, locs[0]) - 1) as real
  {
    hide Reporters;
  }

  lemma {:induction false} BoostAt(all: seq<Finding>, k: nat)
    requires k < |Locations(all)|
    ensures Map(Boost, Merge(all))[k] == 0.02 * (Reporters(all, Locations(all)[k]) - 1) as real
  {
    hide MergeAt, Group, Locations;
    var loc := Locations(all)[k];
    var i := MergedIsWinner(all, loc);
    GroupNonEmpty(all, loc);
    var group := Group(all, loc);
    assert group[0].agent in Agents(group);
  }

  ghost function Places(all: seq<Finding>): set<Location> {
    set f | f in all :: f.at
  }

  ghost function AgentsAtPlaces(all: seq<Finding>): set<(Location, AgentType)> {
    set f | f in all :: (f.at, f.agent)
  }

  lemma {:induction false} AllReports(all: seq<Finding>)
    ensures Reports(all, Elements(Locations(all))) == AgentsAtPlaces(all)
    ensures Elements(Locations(all)) == Places(all)
  {
    hide Locations;
    var locs := Locations(all);
    assert forall f | f in all :: f.at in locs;
    forall l
      ensures l in Elements(locs) <==> l in Places(all)
    {
      if l in locs {
        var i :| 0 <= i < |all| && all[i].at == l;
        assert all[i] in all;
      }
    }
  }

  /** The boost is exactly 0.02 for every distinct (location, agent) pair beyond one per location. */
  lemma {:induction false} BoostIsExact(all: seq<Finding>)
    requires all != []
    ensures Merge(all) != []
    ensures Overall(Merge(all))
            == Min(1.0, Mean(Merge(all)) + 0.02 * (|AgentsAtPlaces(all)| - |Places(all)|) as real)
  {
    var locs := Locations(all);
    assert all[0].at in locs;
    assert Distinct(locs);
    assert Merge(all) != [];
    hide Merge, Locations, Sum, Mean, Reports, Elements, Boost, Places, AgentsAtPlaces, Distinct, AreBoosts;
    BoostsOfMerge(all);
    SumOfBoosts(all, locs, Map(Boost, Merge(all)));
    AllReports(all);
    DistinctElements(locs);
  }

  lemma {:induction false} BoostsOfMerge(all: seq<Finding>)
    ensures AreBoosts(all, Locations(all), Map(Boost, Merge(all)))
  {
    hide Locations, MergeAt, Boost, Reporters;
    var locs, boosts := Locations(all), Map(Boost, Merge(all));
    forall k | 0 <= k < |locs|
      ensures boosts[k] == 0.02 * (Reporters(all, locs[k]) - 1) as real
    {
      BoostAt(all, k);
    }
  }

  lemma {:induction false} DistinctElements(locs: seq<Location>)
    requires Distinct(locs)
    ensures |Elements(locs)| == |locs|
  {
    if locs != [] {
      var n := |locs| - 1;
      DistinctElements(locs[..n]);
      assert Elements(locs) == Elements(locs[..n]) + {locs[n]};
    }
  }

  // ---------- Order of the agent results ----------

  /** What the verdict depends on, location by location. */
  datatype LocationScore = LocationScore(at: Location, confidence: real, agents: nat)

  function ScoreOf(m: Merged): LocationScore {
    LocationScore(m.best.at, m.best.confidence, m.agreementCount.GetOr(1))
  }

  function Scores(all: seq<Finding>): seq<LocationScore> {
    Map(ScoreOf, Merge(all))
  }

  lemma {:induction false} DistinctLists<T>(s: seq<T>, t: seq<T>)
    requires forall i, j | 0 <= i < j < |s| :: s[i] != s[j]
    requires forall i, j | 0 <= i < j < |t| :: t[i] != t[j]
    requires forall x :: x in s <==> x in t
    ensures multiset(s) == multiset(t)
  {
    forall x
      ensures multiset(s)[x] == multiset(t)[x]
    {
      OccursOnce(s, x);
      OccursOnce(t, x);
    }
  }

  lemma {:induction false} OccursOnce<T>(s: seq<T>, x: T)
    requires forall i, j | 0 <= i < j < |s| :: s[i] != s[j]
    ensures multiset(s)[x] == if x in s then 1 else 0
  {
    if s != [] {
      OccursOnce(s[1..], x);
      HeadTail(s);
    }
  }

  lemma {:induction false} SameWinnerScore(all: seq<Finding>, other: seq<Finding>, loc: Location)
    requires multiset(all) == multiset(other) && loc in Locations(all)
    ensures loc in Locations(other)
    ensures ScoreOf(MergeAt(all, loc)) == ScoreOf(MergeAt(other, loc))
  {
    hide MergeAt;
    var i := MergedIsWinner(all, loc);
    assert all[i] in multiset(other);
    assert all[i] in other;
    var j := MergedIsWinner(other, loc);
    assert other[j] in multiset(all);
    assert other[j] in all;
    assert Agents(Group(all, loc)) == Agents(Group(other, loc)) by {
      SameMembers(all, other, loc);
    }
  }

  lemma {:induction false} SameMembers(all: seq<Finding>, other: seq<Finding>, loc: Location)
    requires multiset(all) == multiset(other)
    ensures Agents(Group(all, loc)) == Agents(Group(other, loc))
  {
    forall f
      ensures f in Group(all, loc) <==> f in Group(other, loc)
    {
      assert f in multiset(all) <==> f in multiset(other);
    }
  }

  /** Locations, best confidences and agreement counts do not depend on the order of the findings. */
  lemma {:induction false} PermutationKeepsScores(all: seq<Finding>, other: seq<Finding>)
    requires multiset(all) == multiset(other)
    ensures multiset(Scores(all)) == multiset(Scores(other))
  {
    DistinctScores(all);
    DistinctScores(other);
    forall x
      ensures x in Scores(all) <==> x in Scores(other)
    {
      if x in Scores(all) {
        ScoreMoves(all, other, x);
      }
      if x in Scores(other) {
        ScoreMoves(other, all, x);
      }
    }
    DistinctLists(Scores(all), Scores(other));
  }

  lemma {:induction false} DistinctScores(all: seq<Finding>)
    ensures forall k | 0 <= k < |Scores(all)| ::
              Scores(all)[k].at == Locations(all)[k] && Scores(all)[k] == ScoreOf(MergeAt(all, Locations(all)[k]))
    ensures forall i, j | 0 <= i < j < |Scores(all)| :: Scores(all)[i] != Scores(all)[j]
  {
    hide MergeAt;
    forall k | 0 <= k < |Scores(all)|
      ensures Scores(all)[k].at == Locations(all)[k]
    {
      var i := MergedIsWinner(all, Locations(all)[k]);
    }
  }

  lemma {:induction false} ScoreMoves(all: seq<Finding>, other: seq<Finding>, x: LocationScore)
    requires multiset(all) == multiset(other) && x in Scores(all)
    ensures x in Scores(other)
  {
    hide MergeAt, Merge;
    DistinctScores(all);
    DistinctScores(other);
    var k :| 0 <= k < |Scores(all)| && Scores(all)[k] == x;
    SameWinnerScore(all, other, Locations(all)[k]);
    var j :| 0 <= j < |Locations(other)| && Locations(other)[j] == Locations(all)[k];
    assert Scores(other)[j] == x;
  }

  /** The confidence of the merged list, from its scores alone. */
  function ScoreBoost(s: LocationScore): real {
    if s.agents > 1 then 0.02 * (s.agents - 1) as real else 0.0
  }

  lemma {:induction false} OverallFromScores(all: seq<Finding>, other: seq<Finding>)
    requires multiset(all) == multiset(other) && Merge(all) != []
    ensures |Merge(all)| == |Merge(other)|
    ensures Overall(Merge(all)) == Overall(Merge(other))
  {
    hide Merge, Sum;
    PermutationKeepsScores(all, other);
    assert |multiset(Scores(all))| == |Scores(all)| && |multiset(Scores(other))| == |Scores(other)|;
    TermsFromScores(all);
    TermsFromScores(other);
    SameSums(Scores(all), Scores(other));
  }

  lemma {:induction false} TermsFromScores(all: seq<Finding>)
    ensures Map(Confidence, Merge(all)) == Map((s: LocationScore) => s.confidence, Scores(all))
    ensures Map(Boost, Merge(all)) == Map(ScoreBoost, Scores(all))
  {
    hide Merge;
    ConfidenceFromScore(Merge(all));
    BoostFromScore(Merge(all));
  }

  lemma {:induction false} ConfidenceFromScore(merged: seq<Merged>)
    ensures Map(Confidence, merged) == Map((s: LocationScore) => s.confidence, Map(ScoreOf, merged))
  {
    MapCompose(ScoreOf, (s: LocationScore) => s.confidence, Confidence, merged);
  }

  lemma {:induction false} BoostFromScore(merged: seq<Merged>)
    ensures Map(Boost, merged) == Map(ScoreBoost, Map(ScoreOf, merged))
  {
    forall m: Merged
      ensures ScoreBoost(ScoreOf(m)) == Boost(m)
    {
    }
    MapCompose(ScoreOf, ScoreBoost, Boost, merged);
  }

  lemma {:induction false} SameSums(s: seq<LocationScore>, t: seq<LocationScore>)
    requires multiset(s) == multiset(t)
    ensures Sum(Map((x: LocationScore) => x.confidence, s)) == Sum(Map((x: LocationScore) => x.confidence, t))
    ensures Sum(Map(ScoreBoost, s)) == Sum(Map(ScoreBoost, t))
  {
    var conf := (x: LocationScore) => x.confidence;
    MapOfPermutation(conf, s, t);
    SumOfPermutation(Map(conf, s), Map(conf, t));
    MapOfPermutation(ScoreBoost, s, t);
    SumOfPermutation(Map(ScoreBoost, s), Map(ScoreBoost, t));
  }

  /** `f` is among the most confident findings of its location, in any order of the findings. */
  ghost predicate Tops(findings: multiset<Finding>, f: Finding) {
    f in findings && forall g | g in findings && g.at == f.at :: g.confidence <= f.confidence
  }

  /** Some location has a CRITICAL finding at top confidence. */
  ghost predicate MayEscalate(findings: multiset<Finding>) {
    exists f :: Tops(findings, f) && f.severity.Critical?
  }

  /** Some location has nothing but CRITICAL findings at top confidence. */
  ghost predicate MustEscalate(findings: multiset<Finding>) {
    exists f :: Tops(findings, f)
                && (forall g | Tops(findings, g) && g.at == f.at :: g.severity.Critical?)
  }

  lemma {:induction false} WinnerTops(all: seq<Finding>, i: int)
    requires Wins(all, i)
    ensures Tops(multiset(all), all[i])
  {
    forall g | g in multiset(all) && g.at == all[i].at
      ensures g.confidence <= all[i].confidence
    {
      assert g in all;
    }
  }

  lemma {:induction false} LocationOf(all: seq<Finding>, f: Finding) returns (i: nat)
    requires f in multiset(all)
    ensures Wins(all, i) && all[i].at == f.at
  {
    assert f in all;
    assert f.at in Locations(all);
    i := MergedIsWinner(all, f.at);
  }

  /** Whatever the order, the verdict lies between the two. */
  lemma {:induction false} EscalationBetween(all: seq<Finding>)
    ensures MustEscalate(multiset(all)) ==> Escalates(all)
    ensures Escalates(all) ==> MayEscalate(multiset(all))
  {
    if f :| Tops(multiset(all), f) && (forall g | Tops(multiset(all), g) && g.at == f.at :: g.severity.Critical?) {
      var i := LocationOf(all, f);
      WinnerTops(all, i);
    }
    if i :| Wins(all, i) && all[i].severity.Critical? {
      WinnerTops(all, i);
    }
  }

  /** Apart from escalating or not, the order of the findings makes no difference to the verdict. */
  lemma {:induction false} OrderOnlyEscalates(all: seq<Finding>, other: seq<Finding>, errors: seq<string>)
    requires multiset(all) == multiset(other)
    requires Escalates(all) == Escalates(other)
    ensures Decide(Merge(all), errors) == Decide(Merge(other), errors)
  {
    hide Merge, Escalates, Overall, IsCritical;
    CriticalWinner(all);
    CriticalWinner(other);
    PermutationKeepsScores(all, other);
    assert |multiset(Scores(all))| == |Scores(all)| && |multiset(Scores(other))| == |Scores(other)|;
    if Merge(all) != [] {
      OverallFromScores(all, other);
    }
  }

  /**
   * No order of the same findings changes the verdict, provided that a CRITICAL finding at top
   * confidence somewhere means that some location has no other kind at top confidence.
   */
  lemma {:induction false} PermutationKeepsVerdict(all: seq<Finding>, other: seq<Finding>, errors: seq<string>)
    requires multiset(all) == multiset(other)
    requires MayEscalate(multiset(all)) ==> MustEscalate(multiset(all))
    ensures Decide(Merge(all), errors) == Decide(Merge(other), errors)
  {
    hide Merge, MayEscalate, MustEscalate, Escalates, Decide;
    EscalationBetween(all);
    EscalationBetween(other);
    OrderOnlyEscalates(all, other, errors);
  }

  // For the findings themselves the proviso cannot be weakened: put CRITICAL first, or last.

  function Severe(all: seq<Finding>, critical: bool): (part: seq<Finding>)
    ensures forall i | 0 <= i < |part| :: part[i].severity.Critical? == critical
  {
    if all == [] then []
    else if all[0].severity.Critical? == critical then [all[0]] + Severe(all[1..], critical)
    else Severe(all[1..], critical)
  }

  function Arranged(all: seq<Finding>, criticalFirst: bool): seq<Finding> {
    Severe(all, criticalFirst) + Severe(all, !criticalFirst)
  }

  lemma {:induction false} SevereSplits(all: seq<Finding>, critical: bool)
    ensures multiset(all) == multiset(Severe(all, critical)) + multiset(Severe(all, !critical))
  {
    if all != [] {
      HeadTail(all);
      SevereSplits(all[1..], critical);
    }
  }

  lemma {:induction false} ArrangedIsPermutation(all: seq<Finding>, criticalFirst: bool)
    ensures multiset(Arranged(all, criticalFirst)) == multiset(all)
  {
    SevereSplits(all, criticalFirst);
  }

  /** The winner of a location is of the leading kind whenever that kind tops the location. */
  lemma {:induction false} LeadingKindWins(all: seq<Finding>, critical: bool, f: Finding) returns (i: nat)
    requires Tops(multiset(all), f) && f.severity.Critical? == critical
    ensures var a := Arranged(all, critical);
            Wins(a, i) && a[i].at == f.at && a[i].severity.Critical? == critical
  {
    hide Severe;
    var a, front := Arranged(all, critical), Severe(all, critical);
    ArrangedIsPermutation(all, critical);
    i := LocationOf(a, f);
    WinnerTops(a, i);
    assert f in a by { assert f in multiset(a); }
    var j :| 0 <= j < |a| && a[j] == f;
    assert j < |front|;
    assert i <= j;
    assert a[i] == front[i];
  }

  /** Where the proviso fails, one order of the findings escalates and another does not. */
  lemma {:induction false} OrderDecides(all: seq<Finding>)
    requires MayEscalate(multiset(all)) && !MustEscalate(multiset(all))
    ensures multiset(Arranged(all, true)) == multiset(Arranged(all, false)) == multiset(all)
    ensures Escalates(Arranged(all, true)) && !Escalates(Arranged(all, false))
  {
    hide Arranged;
    ArrangedIsPermutation(all, true);
    ArrangedIsPermutation(all, false);
    var f :| Tops(multiset(all), f) && f.severity.Critical?;
    var i := LeadingKindWins(all, true, f);
    MildFirst(all);
  }

  lemma {:induction false} MildFirst(all: seq<Finding>)
    requires !MustEscalate(multiset(all))
    ensures !Escalates(Arranged(all, false))
  {
    hide Arranged, Tops, MustEscalate;
    var mild := Arranged(all, false);
    ArrangedIsPermutation(all, false);
    if i :| Wins(mild, i) && mild[i].severity.Critical? {
      WinnerTops(mild, i);
      var g := MildRival(multiset(all), mild[i]);
      var j := LeadingKindWins(all, false, g);
      OneWinner(mild, i, j);
    }
  }

  lemma {:induction false} MildRival(findings: multiset<Finding>, f: Finding) returns (g: Finding)
    requires !MustEscalate(findings) && Tops(findings, f)
    ensures Tops(findings, g) && g.at == f.at && !g.severity.Critical?
  {
    g :| Tops(findings, g) && g.at == f.at && !g.severity.Critical?;
  }

  /** Exactly when a reordering of the findings can change whether a review escalates. */
  lemma {:induction false} OrderMattersExactly(all: seq<Finding>)
    ensures (forall other | multiset(other) == multiset(all) :: Escalates(other) == Escalates(all))
            <==> (MayEscalate(multiset(all)) ==> MustEscalate(multiset(all)))
  {
    if MayEscalate(multiset(all)) && !MustEscalate(multiset(all)) {
      OrderDecides(all);
    } else {
      forall other | multiset(other) == multiset(all)
        ensures Escalates(other) == Escalates(all)
      {
        EscalationBetween(all);
        EscalationBetween(other);
      }
    }
  }

  /** Agent results arrive in any order: the findings collected are the same ones. */
  lemma {:induction false} CollectedOfPermutation(results: seq<AgentResult>, other: seq<AgentResult>)
    requires multiset(results) == multiset(other)
    ensures multiset(Collected(results)) == multiset(Collected(other))
  {
    var usable := (r: AgentResult) => r.Usable();
    MapOfPermutation(usable, results, other);
    FlattenOfPermutation(Map(usable, results), Map(usable, other));
  }

  lemma {:induction false} CollectedSnoc(results: seq<AgentResult>, k: nat)
    requires k < |results|
    ensures Collected(results[..k + 1]) == Collected(results[..k]) + results[k].Usable()
  {
    var usable := (r: AgentResult) => r.Usable();
    assert Map(usable, results[..k + 1]) == Map(usable, results[..k]) + [results[k].Usable()];
    FlattenOfConcat(Map(usable, results[..k]), [results[k].Usable()]);
    FlattenOfOne(results[k].Usable());
  }

  /** Under the same proviso the verdict does not depend on the order of the agent results. */
  lemma {:induction false} AgentOrderKeepsVerdict(results: seq<AgentResult>, other: seq<AgentResult>,
                                                 errors: seq<string>)
    requires multiset(results) == multiset(other)
    requires MayEscalate(multiset(Collected(results))) ==> MustEscalate(multiset(Collected(results)))
    ensures Route(results, errors) == Route(other, errors)
    ensures multiset(Scores(Collected(results))) == multiset(Scores(Collected(other)))
  {
    CollectedOfPermutation(results, other);
    PermutationKeepsScores(Collected(results), Collected(other));
    PermutationKeepsVerdict(Collected(results), Collected(other), errors);
  }

  // ---------- The whole verdict, in plain terms ----------

  /** The findings of the agents that report no error, or an empty error text, one agent after the other. */
  ghost function Reported(results: seq<AgentResult>): seq<Finding> {
    if results == [] then []
    else
      (if results[0].error.Some? && results[0].error.value != "" then [] else results[0].findings)
      + Reported(results[1..])
  }

  lemma {:induction false} CollectedIsReported(results: seq<AgentResult>)
    ensures Collected(results) == Reported(results)
  {
    var usable := (r: AgentResult) => r.Usable();
    if results == [] {
      CollectedNone();
    } else {
      CollectedIsReported(results[1..]);
      assert Map(usable, results)[1..] == Map(usable, results[1..]);
    }
  }

  /** The highest confidence at a location. */
  ghost predicate IsTop(all: seq<Finding>, loc: Location, top: real) {
    && (exists i :: 0 <= i < |all| && all[i].at == loc && all[i].confidence == top)
    && (forall i | 0 <= i < |all| && all[i].at == loc :: all[i].confidence <= top)
  }

  /** All locations, each once, with their highest confidences. */
  ghost predicate AreTops(all: seq<Finding>, locs: seq<Location>, tops: seq<real>) {
    && |tops| == |locs|
    && (forall i, j | 0 <= i < j < |locs| :: locs[i] != locs[j])
    && (forall l :: l in locs <==> exists i :: 0 <= i < |all| && all[i].at == l)
    && (forall k | 0 <= k < |locs| :: IsTop(all, locs[k], tops[k]))
  }

  /** The first of the most confident findings of some location is CRITICAL. */
  ghost predicate CriticalAtSomeTop(all: seq<Finding>) {
    exists i :: 0 <= i < |all| && all[i].severity == Critical
      && (forall j | 0 <= j < |all| && all[j].at == all[i].at :: all[j].confidence <= all[i].confidence)
      && (forall j | 0 <= j < i && all[j].at == all[i].at :: all[j].confidence < all[i].confidence)
  }

  lemma {:induction false} TopsOfMerge(all: seq<Finding>)
    ensures AreTops(all, Locations(all), Map(Confidence, Merge(all)))
  {
    hide MergeAt, Locations;
    forall k | 0 <= k < |Locations(all)|
      ensures IsTop(all, Locations(all)[k], Map(Confidence, Merge(all))[k])
    {
      var i := MergedIsWinner(all, Locations(all)[k]);
      assert all[i].at == Locations(all)[k] && all[i].confidence == Merge(all)[k].best.confidence;
    }
  }

  /** The confidence of a review that does not escalate: mean of the tops, and 0.02 for each further agent. */
  ghost predicate IsConfidence(all: seq<Finding>, tops: seq<real>, confidence: real) {
    tops != [] &&
    var agents := |set f | f in all :: (f.at, f.agent)|;
    var lifted := Sum(tops) / |tops| as real + 0.02 * (agents - |tops|) as real;
    confidence == if lifted > 1.0 then 1.0 else lifted
  }

  lemma {:induction false} OverallIsConfidence(all: seq<Finding>)
    requires all != []
    ensures Merge(all) != [] && IsConfidence(all, Map(Confidence, Merge(all)), Overall(Merge(all)))
  {
    BoostIsExact(all);
    PlacesCount(all);
    assert (set f | f in all :: (f.at, f.agent)) == AgentsAtPlaces(all);
    hide Merge, Overall, Sum, AgentsAtPlaces;
  }

  lemma {:induction false} PlacesCount(all: seq<Finding>)
    ensures |Places(all)| == |Merge(all)| == |Locations(all)|
  {
    AllReports(all);
    assert Distinct(Locations(all));
    DistinctElements(Locations(all));
  }

  lemma {:induction false} CriticalTopMeans(all: seq<Finding>)
    ensures CriticalAtSomeTop(all) <==> Escalates(all)
  {
    if i :| Wins(all, i) && all[i].severity.Critical? {
      assert CriticalAtSomeTop(all);
    }
    if CriticalAtSomeTop(all) {
      var i :| 0 <= i < |all| && all[i].severity == Critical
        && (forall j | 0 <= j < |all| && all[j].at == all[i].at :: all[j].confidence <= all[i].confidence)
        && (forall j | 0 <= j < i && all[j].at == all[i].at :: all[j].confidence < all[i].confidence);
      assert Wins(all, i);
    }
  }

  /**
   * The verdict on any results and errors. Without findings it is posted with confidence 1 if there is no
   * error, and queued with confidence 0 if there is one. With a CRITICAL finding at the top of a location it
   * escalates with confidence 0. Otherwise it has the mean confidence, lifted for agreeing agents and at
   * most 1, and is posted from 0.8 on and queued below.
   */
  lemma {:induction false} VerdictIsExact(results: seq<AgentResult>, errors: seq<string>)
    returns (locs: seq<Location>, tops: seq<real>)
    ensures AreTops(Reported(results), locs, tops)
    ensures var all, v := Reported(results), Route(results, errors);
            && (all == [] && errors == [] ==> v == Verdict(1.0, AutoPost))
            && (all == [] && errors != [] ==> v == Verdict(0.0, ApprovalQueue))
            && (CriticalAtSomeTop(all) ==> v == Verdict(0.0, Escalate))
            && (all != [] && !CriticalAtSomeTop(all) ==>
                  && IsConfidence(all, tops, v.confidence)
                  && v.decision == (if v.confidence >= 0.8 then AutoPost else ApprovalQueue))
  {
    hide Collected, Merge, Decide, AreTops, IsConfidence, CriticalAtSomeTop, Locations, Reported;
    var all := Collected(results);
    CollectedIsReported(results);
    locs, tops := Locations(all), Map(Confidence, Merge(all));
    TopsOfMerge(all);
    VerdictOnFindings(all, errors);
  }

  lemma {:induction false} VerdictOnFindings(all: seq<Finding>, errors: seq<string>)
    ensures var tops, v := Map(Confidence, Merge(all)), Decide(Merge(all), errors);
            && (all == [] && errors == [] ==> v == Verdict(1.0, AutoPost))
            && (all == [] && errors != [] ==> v == Verdict(0.0, ApprovalQueue))
            && (CriticalAtSomeTop(all) ==> v == Verdict(0.0, Escalate))
            && (all != [] && !CriticalAtSomeTop(all) ==>
                  && IsConfidence(all, tops, v.confidence)
                  && v.decision == (if v.confidence >= 0.8 then AutoPost else ApprovalQueue))
  {
    hide Overall, IsConfidence, CriticalAtSomeTop, Escalates, MergeAt, IsCritical;
    CriticalWinner(all);
    CriticalTopMeans(all);
    if all == [] {
      NothingMerged();
      NoCriticalTop();
    } else {
      OverallIsConfidence(all);
    }
    hide Merge;
  }

  lemma {:induction false} NothingMerged()
    ensures Merge([]) == []
  {
  }

  lemma {:induction false} NoCriticalTop()
    ensures !CriticalAtSomeTop([])
  {
  }

  // ---------- The graph nodes ----------

  /** Groups the findings by location; the keys keep their insertion order, as in a Python dict. */
  method GroupByLocation(all: seq<Finding>)
    returns (keys: seq<Location>, groups: map<Location, seq<Finding>>)
    ensures keys == Locations(all)
    ensures forall loc :: loc in groups <==> loc in keys
    ensures forall loc | loc in groups :: groups[loc] == Group(all, loc)
  {
    keys, groups := [], map[];
    for n := 0 to |all|
      invariant keys == Locations(all[..n])
      invariant forall loc :: loc in groups <==> loc in keys
      invariant forall loc | loc in groups :: groups[loc] == Group(all[..n], loc)
    {
      var f := all[n];
      OneMoreFinding(all, n);
      if f.at !in groups {
        NoGroup(all[..n], f.at);
        keys := keys + [f.at];
        groups := groups[f.at := []];
      }
      groups := groups[f.at := groups[f.at] + [f]];
    }
    assert all[..|all|] == all;
  }

  lemma {:induction false} OneMoreFinding(all: seq<Finding>, n: nat)
    requires n < |all|
    ensures Locations(all[..n + 1])
            == if all[n].at in Locations(all[..n]) then Locations(all[..n]) else Locations(all[..n]) + [all[n].at]
    ensures forall loc :: Group(all[..n + 1], loc)
                          == if all[n].at == loc then Group(all[..n], loc) + [all[n]] else Group(all[..n], loc)
  {
    assert all[..n + 1][..n] == all[..n];
  }

  lemma {:induction false} NoGroup(all: seq<Finding>, loc: Location)
    requires loc !in Locations(all)
    ensures Group(all, loc) == []
  {
    if Group(all, loc) != [] {
      assert Group(all, loc)[0] in Group(all, loc);
    }
  }

  method Aggregate(results: seq<AgentResult>) returns (merged: seq<Merged>)
    ensures merged == Merge(Collected(results))
  {
    hide Collected, Locations, Group, MergeGroup;
    var all: seq<Finding> := [];
    CollectedNone();
    for k := 0 to |results|
      invariant all == Collected(results[..k])
    {
      CollectedSnoc(results, k);
      if !results[k].Failed() {
        all := all + results[k].findings;
      }
    }
    assert results[..|results|] == results;
    var keys, groups := GroupByLocation(all);
    merged := [];
    for k := 0 to |keys|
      invariant merged == Merge(all)[..k]
    {
      GroupNonEmpty(all, keys[k]);
      merged := merged + [MergeGroup(groups[keys[k]])];
    }
  }

  lemma {:induction false} CollectedNone()
    ensures Collected([]) == []
  {
    assert Map((r: AgentResult) => r.Usable(), []) == [];
  }

  method DecideNode(findings: seq<Merged>, errors: seq<string>) returns (v: Verdict)
    ensures v == Decide(findings, errors)
  {
    if findings == [] && errors != [] {
      return Verdict(0.0, ApprovalQueue);
    }
    if findings == [] {
      return Verdict(1.0, AutoPost);
    }
    var hasCritical := exists i :: 0 <= i < |findings| && IsCritical(findings[i]);
    if hasCritical {
      return Verdict(0.0, Escalate);
    }
    var overall := Mean(findings);
    var agreementBoost := 0.0;
    for k := 0 to |findings|
      invariant agreementBoost == Sum(Map(Boost, findings)[..k])
    {
      var agreed := findings[k].agreementCount.GetOr(1);
      SumSnoc(Map(Boost, findings), k);
      if agreed > 1 {
        agreementBoost := agreementBoost + 0.02 * (agreed - 1) as real;
      }
    }
    assert Map(Boost, findings)[..|findings|] == Map(Boost, findings);
    overall := Min(1.0, overall + agreementBoost);
    return Verdict(overall, if overall >= 0.8 then AutoPost else ApprovalQueue);
  }

  lemma {:induction false} SumSnoc(s: seq<real>, k: nat)
    requires k < |s|
    ensures Sum(s[..k + 1]) == Sum(s[..k]) + s[k]
  {
    assert s[..k + 1] == s[..k] + [s[k]];
    SumOfConcat(s[..k], [s[k]]);
    SumOfOne(s[k]);
  }
}
