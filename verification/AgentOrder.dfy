/**
 * The order of the agent results. The reducer concatenates whole results, so an order of the results
 * decides which finding wins a location, and with it whether the review escalates.
 */
module AgentOrder {
  import opened Common
  import opened Gate

  // ---------- Who leads a location ----------

  /** The first finding of a list that is among the most confident of its location in `all`. */
  ghost predicate Leads(all: multiset<Finding>, list: seq<Finding>, i: int) {
    && 0 <= i < |list|
    && Tops(all, list[i])
    && (forall j | 0 <= j < i && list[j].at == list[i].at :: !Tops(all, list[j]))
  }

  /** The locations for which a list has a lead. */
  ghost function Settled(all: multiset<Finding>, list: seq<Finding>): set<Location> {
    set f | f in list && Tops(all, f) :: f.at
  }

  /** Placed next, the result makes no CRITICAL finding win: its CRITICAL leads come too late. */
  ghost predicate Harmless(all: multiset<Finding>, settled: set<Location>, r: AgentResult) {
    var list := r.Usable();
    forall i | 0 <= i < |list| && Leads(all, list, i) && list[i].severity.Critical? :: list[i].at in settled
  }

  /** Some result has a CRITICAL lead. */
  ghost predicate SomeCriticalLead(results: seq<AgentResult>) {
    exists k, i :: 0 <= k < |results| && 0 <= i < |results[k].Usable()|
                   && Leads(multiset(Collected(results)), results[k].Usable(), i)
                   && results[k].Usable()[i].severity.Critical?
  }

  ghost function FirstHarmless(all: multiset<Finding>, settled: set<Location>, results: seq<AgentResult>): (k: nat)
    ensures k <= |results|
    ensures k < |results| ==> Harmless(all, settled, results[k])
    ensures k == |results| ==> forall i | 0 <= i < |results| :: !Harmless(all, settled, results[i])
  {
    if results == [] || Harmless(all, settled, results[0]) then 0
    else 1 + FirstHarmless(all, settled, results[1..])
  }

  function Without(results: seq<AgentResult>, k: nat): seq<AgentResult>
    requires k < |results|
  {
    results[..k] + results[k + 1..]
  }

  /** Placing some harmless result as long as there is one places all of them. */
  ghost predicate AllPlaceable(all: multiset<Finding>, settled: set<Location>, results: seq<AgentResult>)
    decreases |results|
  {
    results == [] ||
    var k := FirstHarmless(all, settled, results);
    k < |results| && AllPlaceable(all, settled + Settled(all, results[k].Usable()), Without(results, k))
  }

  ghost predicate MayStayMild(results: seq<AgentResult>) {
    AllPlaceable(multiset(Collected(results)), {}, results)
  }

  // ---------- One order ----------

  /** Taken in this order, every result is harmless when it is placed. */
  ghost predicate StaysMild(all: multiset<Finding>, settled: set<Location>, order: seq<AgentResult>)
    decreases order
  {
    order == [] ||
    (Harmless(all, settled, order[0])
     && StaysMild(all, settled + Settled(all, order[0].Usable()), order[1..]))
  }

  lemma {:induction false} WinnerLeads(all: seq<Finding>, i: int)
    ensures Wins(all, i) <==> Leads(multiset(all), all, i)
  {
    if Wins(all, i) {
      WinnerTops(all, i);
      forall j | 0 <= j < i && all[j].at == all[i].at
        ensures !Tops(multiset(all), all[j])
      {
        assert all[i] in multiset(all);
      }
    }
    if Leads(multiset(all), all, i) {
      forall j | 0 <= j < |all| && all[j].at == all[i].at
        ensures all[j].confidence <= all[i].confidence
        ensures j < i ==> all[j].confidence < all[i].confidence
      {
        assert all[j] in multiset(all);
        if j < i && all[j].confidence == all[i].confidence {
          assert Tops(multiset(all), all[j]);
        }
      }
    }
  }

  lemma {:induction false} CollectedHead(order: seq<AgentResult>)
    requires order != []
    ensures Collected(order) == order[0].Usable() + Collected(order[1..])
  {
    var usable := (r: AgentResult) => r.Usable();
    assert Map(usable, order)[1..] == Map(usable, order[1..]);
  }

  /** A lead within the middle list is a lead of that list at a location not settled before. */
  lemma {:induction false} LeadsInside(all: multiset<Finding>, before: seq<Finding>, list: seq<Finding>,
                                       after: seq<Finding>, k: nat)
    requires k < |list|
    ensures Leads(all, before + list + after, |before| + k)
            <==> Leads(all, list, k) && list[k].at !in Settled(all, before)
  {
    hide Tops;
    var whole, i := before + list + after, |before| + k;
    assert whole[i] == list[k];
    if Leads(all, whole, i) {
      forall j | 0 <= j < k && list[j].at == list[k].at
        ensures !Tops(all, list[j])
      {
        assert whole[|before| + j] == list[j];
      }
      forall f | f in before && f.at == list[k].at
        ensures !Tops(all, f)
      {
        var j :| 0 <= j < |before| && before[j] == f;
        assert whole[j] == f;
      }
    }
    if Leads(all, list, k) && list[k].at !in Settled(all, before) {
      forall j | 0 <= j < i && whole[j].at == whole[i].at
        ensures !Tops(all, whole[j])
      {
        if j < |before| {
          assert whole[j] == before[j];
          assert before[j] in before;
        } else {
          assert whole[j] == list[j - |before|];
        }
      }
    }
  }

  ghost predicate NoCriticalLead(all: multiset<Finding>, list: seq<Finding>, from: int, to: int) {
    forall i | from <= i < to && Leads(all, list, i) :: !list[i].severity.Critical?
  }

  lemma {:induction false} HarmlessMeans(all: multiset<Finding>, before: seq<Finding>, r: AgentResult,
                                         after: seq<Finding>)
    ensures var list := r.Usable();
            Harmless(all, Settled(all, before), r)
            <==> NoCriticalLead(all, before + list + after, |before|, |before| + |list|)
  {
    hide Tops, Settled, Leads;
    var list := r.Usable();
    var whole := before + list + after;
    forall k: nat | k < |list|
      ensures whole[|before| + k] == list[k]
      ensures Leads(all, whole, |before| + k) <==> Leads(all, list, k) && list[k].at !in Settled(all, before)
    {
      LeadsInside(all, before, list, after, k);
    }
    if Harmless(all, Settled(all, before), r) {
      forall i | |before| <= i < |before| + |list| && Leads(all, whole, i)
        ensures !whole[i].severity.Critical?
      {
        assert whole[i] == list[i - |before|];
      }
    }
    if NoCriticalLead(all, whole, |before|, |before| + |list|) {
      forall k | 0 <= k < |list| && Leads(all, list, k) && list[k].severity.Critical?
        ensures list[k].at in Settled(all, before)
      {
        assert whole[|before| + k] == list[k];
      }
    }
  }

  lemma {:induction false} LeadsInRange(all: multiset<Finding>, list: seq<Finding>, k: int)
    requires Leads(all, list, k)
    ensures 0 <= k < |list|
  {
  }

  lemma {:induction false} SettledConcat(all: multiset<Finding>, a: seq<Finding>, b: seq<Finding>)
    ensures Settled(all, a + b) == Settled(all, a) + Settled(all, b)
  {
    hide Tops;
  }

  /** After the findings `before`, an order stays mild exactly if no later lead is CRITICAL. */
  lemma {:induction false} MildFrom(all: multiset<Finding>, before: seq<Finding>, order: seq<AgentResult>)
    ensures var whole := before + Collected(order);
            StaysMild(all, Settled(all, before), order) <==> NoCriticalLead(all, whole, |before|, |whole|)
    decreases order
  {
    hide Tops, Settled, Leads, Harmless, Collected;
    if order == [] {
      CollectedNone();
    } else {
      var list, rest := order[0].Usable(), Collected(order[1..]);
      CollectedHead(order);
      assert before + Collected(order) == before + list + rest;
      HarmlessMeans(all, before, order[0], rest);
      SettledConcat(all, before, list);
      MildFrom(all, before + list, order[1..]);
    }
  }

  /** A review escalates exactly if its order of results does not stay mild. */
  lemma {:induction false} EscalatesUnlessMild(order: seq<AgentResult>)
    ensures Escalates(Collected(order)) <==> !StaysMild(multiset(Collected(order)), {}, order)
  {
    var all := Collected(order);
    MildFrom(multiset(all), [], order);
    assert [] + all == all;
    assert Settled(multiset(all), []) == {};
    hide Collected, Leads, Wins, StaysMild;
    forall i
      ensures Wins(all, i) <==> Leads(multiset(all), all, i)
    {
      WinnerLeads(all, i);
    }
    if Escalates(all) {
      var i :| Wins(all, i) && all[i].severity.Critical?;
      LeadsInRange(multiset(all), all, i);
    }
  }

  // ---------- All orders ----------

  lemma {:induction false} MoreSettled(all: multiset<Finding>, s: set<Location>, t: set<Location>,
                                       order: seq<AgentResult>)
    requires s <= t && StaysMild(all, s, order)
    ensures StaysMild(all, t, order)
    decreases order
  {
    if order != [] {
      hide Leads, Settled;
      var more := Settled(all, order[0].Usable());
      MoreSettled(all, s + more, t + more, order[1..]);
    }
  }

  /** A result may be placed earlier: the rest still stays mild. */
  lemma {:induction false} PlaceEarlier(all: multiset<Finding>, settled: set<Location>, order: seq<AgentResult>, k: nat)
    requires k < |order| && StaysMild(all, settled, order)
    ensures StaysMild(all, settled + Settled(all, order[k].Usable()), Without(order, k))
    decreases order
  {
    hide Leads, Settled;
    if k == 0 {
      assert Without(order, 0) == order[1..];
    } else {
      var here, moved := Settled(all, order[0].Usable()), Settled(all, order[k].Usable());
      PlaceEarlier(all, settled + here, order[1..], k - 1);
      assert (settled + here) + moved == (settled + moved) + here;
      assert Without(order, k)[0] == order[0];
      assert Without(order, k)[1..] == Without(order[1..], k - 1);
    }
  }

  lemma {:induction false} WithoutOne(results: seq<AgentResult>, k: nat)
    requires k < |results|
    ensures multiset(results) == multiset{results[k]} + multiset(Without(results, k))
  {
    assert results == results[..k] + ([results[k]] + results[k + 1..]);
  }

  lemma {:induction false} SameRest(order: seq<AgentResult>, results: seq<AgentResult>, j: nat, k: nat)
    requires multiset(order) == multiset(results) && j < |order| && k < |results| && order[j] == results[k]
    ensures multiset(Without(order, j)) == multiset(Without(results, k))
    ensures |Without(results, k)| < |results|
  {
    WithoutOne(order, j);
    WithoutOne(results, k);
    assert multiset(Without(order, j)) == multiset(order) - multiset{results[k]} == multiset(Without(results, k));
  }

  /** Some result can be taken out of any order of the results. */
  lemma {:induction false} PositionIn(order: seq<AgentResult>, results: seq<AgentResult>, k: nat) returns (j: nat)
    requires multiset(order) == multiset(results) && k < |results|
    ensures j < |order| && order[j] == results[k]
  {
    assert results[k] in multiset(order);
    j :| 0 <= j < |order| && order[j] == results[k];
  }

  /** If any order of the results stays mild, placing harmless results never gets stuck. */
  lemma {:induction false} GreedyFindsOrder(all: multiset<Finding>, settled: set<Location>,
                                            results: seq<AgentResult>, order: seq<AgentResult>)
    requires multiset(order) == multiset(results) && StaysMild(all, settled, order)
    ensures AllPlaceable(all, settled, results)
    decreases |results|
  {
    if results != [] {
      hide Harmless, Settled, Without, FirstHarmless;
      var k := FirstHarmless(all, settled, results);
      assert |multiset(order)| == |multiset(results)|;
      var i := PositionIn(results, order, 0);
      assert k < |results|;
      var j := PositionIn(order, results, k);
      PlaceEarlier(all, settled, order, j);
      SameRest(order, results, j, k);
      GreedyFindsOrder(all, settled + Settled(all, results[k].Usable()), Without(results, k), Without(order, j));
    }
  }

  /** The order in which harmless results are placed. */
  lemma {:induction false} GreedyOrder(all: multiset<Finding>, settled: set<Location>, results: seq<AgentResult>)
    returns (order: seq<AgentResult>)
    requires AllPlaceable(all, settled, results)
    ensures multiset(order) == multiset(results) && StaysMild(all, settled, order)
    decreases |results|
  {
    order := [];
    if results != [] {
      hide Harmless, Settled;
      var k := FirstHarmless(all, settled, results);
      WithoutOne(results, k);
      var rest := GreedyOrder(all, settled + Settled(all, results[k].Usable()), Without(results, k));
      order := [results[k]] + rest;
      assert order[1..] == rest;
    }
  }

  ghost predicate IsOrderOf(other: seq<AgentResult>, results: seq<AgentResult>) {
    multiset(other) == multiset(results)
  }

  lemma {:induction false} EscalatesRoute(order: seq<AgentResult>, errors: seq<string>)
    ensures Route(order, errors).decision == Escalate <==> Escalates(Collected(order))
  {
    EscalatesExactly(order, errors);
    hide Route, Collected, Wins;
  }

  /** Some order of the results escalates if and only if some result has a CRITICAL lead. */
  lemma {:induction false} SomeOrderEscalates(results: seq<AgentResult>, errors: seq<string>)
    ensures (exists other :: IsOrderOf(other, results) && Route(other, errors).decision == Escalate)
            <==> SomeCriticalLead(results)
  {
    hide Route, Collected, Leads, Harmless, Settled, Escalates;
    if SomeCriticalLead(results) {
      var k := CriticalLeader(results);
      var other := [results[k]] + Without(results, k);
      WithoutOne(results, k);
      CollectedOfPermutation(other, results);
      assert !StaysMild(multiset(Collected(other)), {}, other);
      EscalatesUnlessMild(other);
      EscalatesRoute(other, errors);
      assert IsOrderOf(other, results);
    }
    if other :| IsOrderOf(other, results) && Route(other, errors).decision == Escalate {
      EscalatesRoute(other, errors);
      EscalatesUnlessMild(other);
      CollectedOfPermutation(other, results);
      var r := HarmfulResult(multiset(Collected(results)), {}, other);
      assert r in multiset(results);
      var k :| 0 <= k < |results| && results[k] == r;
      CriticalLeadOf(results, k);
    }
  }

  lemma {:induction false} CriticalLeader(results: seq<AgentResult>) returns (k: nat)
    requires SomeCriticalLead(results)
    ensures k < |results| && !Harmless(multiset(Collected(results)), {}, results[k])
  {
    hide Leads;
    var q, i :| 0 <= q < |results| && 0 <= i < |results[q].Usable()|
                && Leads(multiset(Collected(results)), results[q].Usable(), i)
                && results[q].Usable()[i].severity.Critical?;
    k := q;
    assert results[k].Usable()[i].at !in {};
  }

  lemma {:induction false} CriticalLeadOf(results: seq<AgentResult>, k: nat)
    requires k < |results| && !Harmless(multiset(Collected(results)), {}, results[k])
    ensures SomeCriticalLead(results)
  {
    hide Leads;
  }

  /** An order that does not stay mild has a result with a CRITICAL lead. */
  lemma {:induction false} HarmfulResult(all: multiset<Finding>, settled: set<Location>, order: seq<AgentResult>)
    returns (r: AgentResult)
    requires !StaysMild(all, settled, order)
    ensures r in multiset(order) && !Harmless(all, {}, r)
    decreases order
  {
    hide Leads, Settled;
    if !Harmless(all, settled, order[0]) {
      r := order[0];
    } else {
      r := HarmfulResult(all, settled + Settled(all, order[0].Usable()), order[1..]);
      HeadTail(order);
    }
  }

  /** Some order of the results does not escalate if and only if harmless results can be placed to the end. */
  lemma {:induction false} SomeOrderStaysMild(results: seq<AgentResult>, errors: seq<string>)
    ensures (exists other :: IsOrderOf(other, results) && Route(other, errors).decision != Escalate)
            <==> MayStayMild(results)
  {
    hide Route, Collected, Leads, Harmless, Settled, Escalates, StaysMild, AllPlaceable;
    var all := multiset(Collected(results));
    if MayStayMild(results) {
      var order := GreedyOrder(all, {}, results);
      CollectedOfPermutation(order, results);
      EscalatesUnlessMild(order);
      EscalatesRoute(order, errors);
      assert IsOrderOf(order, results);
    }
    if other :| IsOrderOf(other, results) && Route(other, errors).decision != Escalate {
      CollectedOfPermutation(other, results);
      EscalatesUnlessMild(other);
      EscalatesRoute(other, errors);
      GreedyFindsOrder(all, {}, results, other);
    }
  }

  /**
   * Exactly when the verdict is the same for all orders of the agent results: unless some result has a
   * CRITICAL lead and, all the same, harmless results can be placed to the end.
   */
  lemma {:induction false} ResultOrderMattersExactly(results: seq<AgentResult>, errors: seq<string>)
    ensures (forall other | IsOrderOf(other, results) :: Route(other, errors) == Route(results, errors))
            <==> !(SomeCriticalLead(results) && MayStayMild(results))
  {
    hide Route, Collected, SomeCriticalLead, MayStayMild, Escalates;
    SomeOrderEscalates(results, errors);
    SomeOrderStaysMild(results, errors);
    if !(SomeCriticalLead(results) && MayStayMild(results)) {
      forall other | IsOrderOf(other, results)
        ensures Route(other, errors) == Route(results, errors)
      {
        assert IsOrderOf(results, results);
        EscalatesRoute(other, errors);
        EscalatesRoute(results, errors);
        SameVerdict(other, results, errors);
      }
    }
  }

  lemma {:induction false} SameVerdict(other: seq<AgentResult>, results: seq<AgentResult>, errors: seq<string>)
    requires IsOrderOf(other, results)
    requires Escalates(Collected(other)) == Escalates(Collected(results))
    ensures Route(other, errors) == Route(results, errors)
  {
    hide Collected, Escalates, Merge, Decide;
    CollectedOfPermutation(other, results);
    OrderOnlyEscalates(Collected(other), Collected(results), errors);
  }

  // ---------- Two agents ----------

  lemma {:induction false} CollectedPair(f: Finding, g: Finding)
    ensures Collected([AgentResult([f], None), AgentResult([g], None)]) == [f, g]
  {
    var results := [AgentResult([f], None), AgentResult([g], None)];
    CollectedHead(results);
    CollectedHead(results[1..]);
    CollectedNone();
    assert results[1..][1..] == [];
  }

  /** Two agents at one location, equally confident: whoever comes first decides whether to escalate. */
  lemma {:induction false} TwoAgentsDisagree(loc: Location, errors: seq<string>)
    ensures var critical := AgentResult([Finding(loc, Security, Critical, 0.9, "")], None);
            var mild := AgentResult([Finding(loc, Quality, Low, 0.9, "")], None);
            && Route([critical, mild], errors) == Verdict(0.0, Escalate)
            && Route([mild, critical], errors).decision != Escalate
  {
    var f, g := Finding(loc, Security, Critical, 0.9, ""), Finding(loc, Quality, Low, 0.9, "");
    var critical, mild := AgentResult([f], None), AgentResult([g], None);
    CollectedPair(f, g);
    CollectedPair(g, f);
    assert Wins([f, g], 0) && Wins([g, f], 0);
    EscalatesRoute([critical, mild], errors);
    EscalatesRoute([mild, critical], errors);
    hide Collected, Merge, Overall;
    if i :| Wins([g, f], i) && [g, f][i].severity.Critical? {
      OneWinner([g, f], 0, i);
    }
  }

  /** One agent alone with both at the top: the proviso on the findings fails, and yet no order matters. */
  lemma {:induction false} OneAgentAgreesWithItself(loc: Location, errors: seq<string>)
    ensures var f, g := Finding(loc, Security, Critical, 0.9, ""), Finding(loc, Security, Low, 0.9, "");
            var results := [AgentResult([f, g], None)];
            && MayEscalate(multiset(Collected(results))) && !MustEscalate(multiset(Collected(results)))
            && (forall other | IsOrderOf(other, results) :: Route(other, errors) == Route(results, errors))
  {
    var f, g := Finding(loc, Security, Critical, 0.9, ""), Finding(loc, Security, Low, 0.9, "");
    var results := [AgentResult([f, g], None)];
    CollectedHead(results);
    CollectedNone();
    assert results[1..] == [];
    var all := multiset(Collected(results));
    assert Collected(results) == [f, g] && all == multiset{f, g};
    assert Tops(all, f) && Tops(all, g);
    forall other | IsOrderOf(other, results)
      ensures other == results
    {
      assert |multiset(other)| == 1;
      assert other[0] in multiset(results);
    }
  }
}
