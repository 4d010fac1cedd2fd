/**
 * Hybrid retrieval's merge: the vector lane and the full-text lane are fused by reciprocal
 * ranks, sorted, and cut to the requested size. The lanes themselves are given.
 */
module Fusion {
  import opened Common

  type ChunkId = int

  /** A row of one lane; its rank is its position. */
  datatype Hit = Hit(id: ChunkId, content: string)

  datatype Result = Result(
    id: ChunkId,
    content: string,
    score: real,
    vectorRank: Option<nat>,
    ftsRank: Option<nat>
  )

  /** A lane lists rows by primary key, so no chunk comes twice. */
  ghost predicate IsLane(lane: seq<Hit>) {
    forall i, j | 0 <= i < j < |lane| :: lane[i].id != lane[j].id
  }

  function Rank(lane: seq<Hit>, id: ChunkId): (r: Option<nat>)
    ensures r.Some? ==> r.value < |lane| && lane[r.value].id == id
    ensures r.None? <==> forall i | 0 <= i < |lane| :: lane[i].id != id
  {
    if lane == [] then None
    else
      var n := |lane| - 1;
      assert forall i | 0 <= i < n :: lane[..n][i] == lane[i];
      if lane[n].id == id then Some(n) else Rank(lane[..n], id)
  }

  /** What a lane contributes to a score; a chunk that is not in the lane gets nothing. */
  function Share(k: nat, rank: Option<nat>): real
    requires k > 0
  {
    match rank
    case Some(r) => 1.0 / (k + r) as real
    case None => 0.0
  }

  function Score(vec: seq<Hit>, fts: seq<Hit>, k: nat, id: ChunkId): real
    requires k > 0
  {
    Share(k, Rank(vec, id)) + Share(k, Rank(fts, id))
  }

  function Content(vec: seq<Hit>, fts: seq<Hit>, id: ChunkId): string {
    if Rank(vec, id).Some? then vec[Rank(vec, id).value].content
    else if Rank(fts, id).Some? then fts[Rank(fts, id).value].content
    else ""
  }

  function Entry(vec: seq<Hit>, fts: seq<Hit>, k: nat, id: ChunkId): Result
    requires k > 0
  {
    Result(id, Content(vec, fts, id), Score(vec, fts, k, id), Rank(vec, id), Rank(fts, id))
  }

  /** The chunks of both lanes in the order in which the merge map is filled. */
  function Order(vec: seq<Hit>, fts: seq<Hit>): seq<ChunkId> {
    if fts == [] then Map((h: Hit) => h.id, vec)
    else
      var n := |fts| - 1;
      if Rank(vec, fts[n].id).Some? then Order(vec, fts[..n]) else Order(vec, fts[..n]) + [fts[n].id]
  }

  lemma {:induction false} OrderIsUnion(vec: seq<Hit>, fts: seq<Hit>)
    requires IsLane(vec) && IsLane(fts)
    ensures forall id :: id in Order(vec, fts) <==> Rank(vec, id).Some? || Rank(fts, id).Some?
    ensures forall i, j | 0 <= i < j < |Order(vec, fts)| :: Order(vec, fts)[i] != Order(vec, fts)[j]
  {
    if fts == [] {
      forall id
        ensures id in Order(vec, fts) <==> Rank(vec, id).Some?
      {
        if r :| 0 <= r < |vec| && vec[r].id == id {
          assert Order(vec, fts)[r] == id;
        }
      }
    } else {
      var n := |fts| - 1;
      OrderIsUnion(vec, fts[..n]);
      assert forall i | 0 <= i < n :: fts[..n][i].id != fts[n].id;
    }
  }

  // ---------- Sorting ----------

  /** Puts `x` before the first result that does not score higher. */
  function Insert(x: Result, sorted: seq<Result>): seq<Result> {
    if sorted == [] || x.score >= sorted[0].score then [x] + sorted
    else [sorted[0]] + Insert(x, sorted[1..])
  }

  /** The stable sort by falling score. */
  function Sorted(results: seq<Result>): seq<Result> {
    if results == [] then [] else Insert(results[0], Sorted(results[1..]))
  }

  ghost predicate Descending(results: seq<Result>) {
    forall i, j | 0 <= i < j < |results| :: results[i].score >= results[j].score
  }

  /** The results of one score, in the order in which they stand. */
  function Scoring(results: seq<Result>, score: real): seq<Result> {
    if results == [] then []
    else if results[0].score == score then [results[0]] + Scoring(results[1..], score)
    else Scoring(results[1..], score)
  }

  lemma {:induction false} InsertKeepsAll(x: Result, sorted: seq<Result>)
    ensures multiset(Insert(x, sorted)) == multiset{x} + multiset(sorted)
  {
    if sorted != [] && x.score < sorted[0].score {
      InsertKeepsAll(x, sorted[1..]);
      HeadTail(sorted);
    }
  }

  lemma {:induction false} InsertDescending(x: Result, sorted: seq<Result>)
    requires Descending(sorted)
    ensures Descending(Insert(x, sorted))
  {
    if sorted != [] && x.score < sorted[0].score {
      InsertDescending(x, sorted[1..]);
      var rest := Insert(x, sorted[1..]);
      InsertKeepsAll(x, sorted[1..]);
      forall j | 0 <= j < |rest|
        ensures sorted[0].score >= rest[j].score
      {
        assert rest[j] in multiset(rest);
        assert rest[j] == x || rest[j] in sorted[1..];
      }
    }
  }

  lemma {:induction false} InsertIsStable(x: Result, sorted: seq<Result>, score: real)
    ensures Scoring(Insert(x, sorted), score)
            == if x.score == score then [x] + Scoring(sorted, score) else Scoring(sorted, score)
  {
    if sorted != [] && x.score < sorted[0].score {
      InsertIsStable(x, sorted[1..], score);
      assert Insert(x, sorted)[1..] == Insert(x, sorted[1..]);
    } else {
      assert Insert(x, sorted)[1..] == sorted;
    }
  }

  /** The sort keeps every result, orders by falling score, and leaves equal scores as they stood. */
  lemma {:induction false} SortedLaws(results: seq<Result>)
    ensures Descending(Sorted(results))
    ensures multiset(Sorted(results)) == multiset(results)
    ensures forall score :: Scoring(Sorted(results), score) == Scoring(results, score)
  {
    if results != [] {
      SortedLaws(results[1..]);
      InsertDescending(results[0], Sorted(results[1..]));
      InsertKeepsAll(results[0], Sorted(results[1..]));
      HeadTail(results);
      forall score
        ensures Scoring(Sorted(results), score) == Scoring(results, score)
      {
        InsertIsStable(results[0], Sorted(results[1..]), score);
      }
    }
  }

  // ---------- The fused list ----------

  function Entries(vec: seq<Hit>, fts: seq<Hit>, k: nat): seq<Result>
    requires k > 0
  {
    Map(id => Entry(vec, fts, k, id), Order(vec, fts))
  }

  function Take(results: seq<Result>, n: nat): seq<Result> {
    if |results| <= n then results else results[..n]
  }

  function Fused(vec: seq<Hit>, fts: seq<Hit>, k: nat, topK: nat): seq<Result>
    requires k > 0
  {
    Take(Sorted(Entries(vec, fts, k)), topK)
  }

  /** The whole sorted list: every chunk of either lane once, with its ranks and its summed score. */
  lemma {:induction false} SortedEntries(vec: seq<Hit>, fts: seq<Hit>, k: nat)
    requires k > 0 && IsLane(vec) && IsLane(fts)
    ensures var all := Sorted(Entries(vec, fts, k));
            && Descending(all)
            && (forall i | 0 <= i < |all| ::
                  all[i] == Entry(vec, fts, k, all[i].id)
                  && (Rank(vec, all[i].id).Some? || Rank(fts, all[i].id).Some?))
            && (forall id | Rank(vec, id).Some? || Rank(fts, id).Some? ::
                  exists i :: 0 <= i < |all| && all[i].id == id)
            && (forall i, j | 0 <= i < j < |all| :: all[i].id != all[j].id)
  {
    hide Entry, Rank, Order, Sorted, Scoring;
    var entries := Entries(vec, fts, k);
    var all := Sorted(entries);
    SortedLaws(entries);
    OrderIsUnion(vec, fts);
    EntryKeepsId(vec, fts, k);
    forall i | 0 <= i < |all|
      ensures all[i] == Entry(vec, fts, k, all[i].id)
      ensures Rank(vec, all[i].id).Some? || Rank(fts, all[i].id).Some?
    {
      assert all[i] in multiset(entries);
      assert all[i] in entries;
    }
    forall id | Rank(vec, id).Some? || Rank(fts, id).Some?
      ensures exists i :: 0 <= i < |all| && all[i].id == id
    {
      assert id in Order(vec, fts);
      var j :| 0 <= j < |entries| && Order(vec, fts)[j] == id;
      assert entries[j] in multiset(all);
      assert entries[j] in all;
    }
    assert Map((r: Result) => r.id, entries) == Order(vec, fts);
    IdsStayDistinct(entries, all);
  }

  lemma {:induction false} EntryKeepsId(vec: seq<Hit>, fts: seq<Hit>, k: nat)
    requires k > 0
    ensures forall id :: Entry(vec, fts, k, id).id == id
  {
  }

  lemma {:induction false} IdsStayDistinct(entries: seq<Result>, all: seq<Result>)
    requires multiset(all) == multiset(entries)
    requires forall i, j | 0 <= i < j < |entries| :: entries[i].id != entries[j].id
    ensures forall i, j | 0 <= i < j < |all| :: all[i].id != all[j].id
  {
    forall i, j | 0 <= i < j < |all|
      ensures all[i].id != all[j].id
    {
      if all[i].id == all[j].id {
        assert all[i] in multiset(entries) && all[j] in multiset(entries);
        assert all[i] in entries && all[j] in entries;
        assert all[i] == all[j];
        TwiceIn(all, i, j);
        OnceIn(entries, all[i]);
      }
    }
  }

  lemma {:induction false} TwiceIn(all: seq<Result>, i: nat, j: nat)
    requires i < j < |all| && all[i] == all[j]
    ensures multiset(all)[all[i]] >= 2
  {
    assert all == all[..j] + ([all[j]] + all[j + 1..]);
    assert all[..j][i] in multiset(all[..j]);
  }

  lemma {:induction false} OnceIn(entries: seq<Result>, x: Result)
    requires forall i, j | 0 <= i < j < |entries| :: entries[i].id != entries[j].id
    ensures multiset(entries)[x] <= 1
  {
    if entries != [] {
      OnceIn(entries[1..], x);
      HeadTail(entries);
      assert x in multiset(entries[1..]) <==> x in entries[1..];
    }
  }

  /** Where a chunk of either lane stands in the whole sorted list. */
  lemma {:induction false} PositionOf(vec: seq<Hit>, fts: seq<Hit>, k: nat, id: ChunkId) returns (p: nat)
    requires k > 0 && IsLane(vec) && IsLane(fts)
    requires Rank(vec, id).Some? || Rank(fts, id).Some?
    ensures var all := Sorted(Entries(vec, fts, k));
            p < |all| && all[p].id == id && all[p].score == Score(vec, fts, k, id)
  {
    SortedEntries(vec, fts, k);
    hide Entries, Sorted, Rank, Order, Score;
    var all := Sorted(Entries(vec, fts, k));
    p :| 0 <= p < |all| && all[p].id == id;
    assert all[p] == Entry(vec, fts, k, all[p].id);
  }

  lemma {:induction false} FusedPrefix(vec: seq<Hit>, fts: seq<Hit>, k: nat, topK: nat)
    requires k > 0 && IsLane(vec) && IsLane(fts)
    ensures Fused(vec, fts, k, topK) <= Sorted(Entries(vec, fts, k))
    ensures |Sorted(Entries(vec, fts, k))| == |Order(vec, fts)|
    ensures |Fused(vec, fts, k, topK)| == (if |Order(vec, fts)| <= topK then |Order(vec, fts)| else topK)
    ensures Descending(Sorted(Entries(vec, fts, k)))
  {
    EntriesLength(vec, fts, k);
    SortedLaws(Entries(vec, fts, k));
    hide Entries, Sorted, Order, Scoring;
    var all := Sorted(Entries(vec, fts, k));
    assert |multiset(all)| == |all| && |multiset(Entries(vec, fts, k))| == |Entries(vec, fts, k)|;
  }

  /** The answer holds no chunk twice, ranks by falling score, and keeps as many as asked for. */
  lemma {:induction false} FusedIsRanking(vec: seq<Hit>, fts: seq<Hit>, k: nat, topK: nat)
    requires k > 0 && IsLane(vec) && IsLane(fts)
    ensures var kept := Fused(vec, fts, k, topK);
            && Descending(kept)
            && (forall i, j | 0 <= i < j < |kept| :: kept[i].id != kept[j].id)
            && |kept| == (if |Order(vec, fts)| <= topK then |Order(vec, fts)| else topK)
            && (forall i | 0 <= i < |kept| ::
                  kept[i] == Entry(vec, fts, k, kept[i].id)
                  && (Rank(vec, kept[i].id).Some? || Rank(fts, kept[i].id).Some?))
  {
    FusedPrefix(vec, fts, k, topK);
    SortedEntries(vec, fts, k);
    hide Fused, Entries, Sorted, Rank, Order, Entry;
    var kept, all := Fused(vec, fts, k, topK), Sorted(Entries(vec, fts, k));
    assert forall i | 0 <= i < |kept| :: kept[i] == all[i];
  }

  /** Nothing dropped scores above anything kept. */
  lemma {:induction false} DroppedScoresNoHigher(vec: seq<Hit>, fts: seq<Hit>, k: nat, topK: nat, id: ChunkId, i: nat)
    requires k > 0 && IsLane(vec) && IsLane(fts) && i < |Fused(vec, fts, k, topK)|
    requires Rank(vec, id).Some? || Rank(fts, id).Some?
    requires forall j | 0 <= j < |Fused(vec, fts, k, topK)| :: Fused(vec, fts, k, topK)[j].id != id
    ensures Score(vec, fts, k, id) <= Fused(vec, fts, k, topK)[i].score
  {
    FusedPrefix(vec, fts, k, topK);
    var p := PositionOf(vec, fts, k, id);
    hide Fused, Entries, Sorted, Rank, Order, Score;
    var kept, all := Fused(vec, fts, k, topK), Sorted(Entries(vec, fts, k));
    assert forall j | 0 <= j < |kept| :: kept[j] == all[j];
  }

  lemma {:induction false} EntriesLength(vec: seq<Hit>, fts: seq<Hit>, k: nat)
    requires k > 0
    ensures |Entries(vec, fts, k)| == |Order(vec, fts)|
  {
  }

  /** A chunk that scores higher comes first, and is kept whenever the other one is. */
  lemma {:induction false} HigherComesFirst(vec: seq<Hit>, fts: seq<Hit>, k: nat, topK: nat,
                                            a: ChunkId, i: nat) returns (p: nat)
    requires k > 0 && IsLane(vec) && IsLane(fts) && i < |Fused(vec, fts, k, topK)|
    requires Rank(vec, a).Some? || Rank(fts, a).Some?
    requires Score(vec, fts, k, a) > Fused(vec, fts, k, topK)[i].score
    ensures p < i && Fused(vec, fts, k, topK)[p].id == a
  {
    FusedPrefix(vec, fts, k, topK);
    p := PositionOf(vec, fts, k, a);
    hide Fused, Entries, Sorted, Rank, Order, Score;
    var kept, all := Fused(vec, fts, k, topK), Sorted(Entries(vec, fts, k));
    assert kept[i] == all[i];
    assert p < i;
    assert kept[p] == all[p];
  }

  // ---------- The entries in plain terms ----------

  /** The rank of a chunk in a lane is its position, and it has none if it is not there. */
  ghost predicate Ranks(lane: seq<Hit>, id: ChunkId, rank: Option<nat>) {
    match rank
    case Some(r) => r < |lane| && lane[r].id == id
    case None => forall i | 0 <= i < |lane| :: lane[i].id != id
  }

  /** The entry of a chunk: its ranks, the sum of its reciprocal ranks, and the content of its first lane. */
  lemma {:induction false} EntryMeans(vec: seq<Hit>, fts: seq<Hit>, k: nat, id: ChunkId, r: Option<nat>, q: Option<nat>)
    requires k > 0 && IsLane(vec) && IsLane(fts) && Ranks(vec, id, r) && Ranks(fts, id, q)
    ensures var entry := Entry(vec, fts, k, id);
            && entry.id == id && entry.vectorRank == r && entry.ftsRank == q
            && entry.score == (if r.Some? then 1.0 / (k + r.value) as real else 0.0)
                              + (if q.Some? then 1.0 / (k + q.value) as real else 0.0)
            && (r.Some? ==> entry.content == vec[r.value].content)
            && (r.None? && q.Some? ==> entry.content == fts[q.value].content)
  {
    RankMeans(vec, id, r);
    RankMeans(fts, id, q);
    hide Rank;
  }

  lemma {:induction false} RankMeans(lane: seq<Hit>, id: ChunkId, rank: Option<nat>)
    requires IsLane(lane) && Ranks(lane, id, rank)
    ensures Rank(lane, id) == rank
  {
    if rank.Some? {
      RankOf(lane, rank.value);
    }
    hide Rank;
  }

  /** Behind the vector lane come the chunks that only the full-text lane has, by their rank there. */
  lemma {:induction false} OrderEndsWithText(vec: seq<Hit>, fts: seq<Hit>, i: nat, j: nat) returns (p: nat, q: nat)
    requires IsLane(vec) && IsLane(fts) && |vec| <= i < j < |Order(vec, fts)|
    ensures p < q < |fts| && fts[p].id == Order(vec, fts)[i] && fts[q].id == Order(vec, fts)[j]
    decreases |fts|
  {
    var n := |fts| - 1;
    var before := Order(vec, fts[..n]);
    if j < |before| {
      p, q := OrderEndsWithText(vec, fts[..n], i, j);
    } else {
      q := n;
      p := OrderEndHas(vec, fts[..n], i);
    }
  }

  lemma {:induction false} OrderEndHas(vec: seq<Hit>, fts: seq<Hit>, i: nat) returns (p: nat)
    requires |vec| <= i < |Order(vec, fts)|
    ensures p < |fts| && fts[p].id == Order(vec, fts)[i]
    decreases |fts|
  {
    var n := |fts| - 1;
    if i < |Order(vec, fts[..n])| {
      p := OrderEndHas(vec, fts[..n], i);
    } else {
      p := n;
    }
  }

  // ---------- Equal scores ----------

  lemma {:induction false} ScoringKeepsOrder(results: seq<Result>, score: real, i: nat, j: nat) returns (p: nat, q: nat)
    requires i < j < |results| && results[i].score == results[j].score == score
    ensures p < q < |Scoring(results, score)|
    ensures Scoring(results, score)[p] == results[i] && Scoring(results, score)[q] == results[j]
  {
    if i == 0 {
      q := ScoringHas(results[1..], score, j - 1);
      p, q := 0, q + 1;
    } else {
      p, q := ScoringKeepsOrder(results[1..], score, i - 1, j - 1);
      if results[0].score == score {
        p, q := p + 1, q + 1;
      }
    }
  }

  lemma {:induction false} ScoringHas(results: seq<Result>, score: real, j: nat) returns (q: nat)
    requires j < |results| && results[j].score == score
    ensures q < |Scoring(results, score)| && Scoring(results, score)[q] == results[j]
  {
    if j == 0 {
      q := 0;
    } else {
      q := ScoringHas(results[1..], score, j - 1);
      if results[0].score == score {
        q := q + 1;
      }
    }
  }

  lemma {:induction false} ScoringComesFrom(results: seq<Result>, score: real, p: nat, q: nat) returns (i: nat, j: nat)
    requires p < q < |Scoring(results, score)|
    ensures i < j < |results|
    ensures results[i] == Scoring(results, score)[p] && results[j] == Scoring(results, score)[q]
  {
    if results[0].score != score {
      i, j := ScoringComesFrom(results[1..], score, p, q);
      i, j := i + 1, j + 1;
    } else if p > 0 {
      i, j := ScoringComesFrom(results[1..], score, p - 1, q - 1);
      i, j := i + 1, j + 1;
    } else {
      j := ScoringComesFromOne(results[1..], score, q - 1);
      i, j := 0, j + 1;
    }
  }

  lemma {:induction false} ScoringComesFromOne(results: seq<Result>, score: real, q: nat) returns (j: nat)
    requires q < |Scoring(results, score)|
    ensures j < |results| && results[j] == Scoring(results, score)[q]
  {
    if results[0].score != score {
      j := ScoringComesFromOne(results[1..], score, q);
      j := j + 1;
    } else if q > 0 {
      j := ScoringComesFromOne(results[1..], score, q - 1);
      j := j + 1;
    } else {
      j := 0;
    }
  }

  /**
   * Chunks with equal scores keep the order in which the merge map was filled: the vector lane by rank,
   * then the chunks that only the full-text lane found.
   */
  lemma {:induction false} TiesKeepMergeOrder(vec: seq<Hit>, fts: seq<Hit>, k: nat, topK: nat, i: nat, j: nat)
    returns (p: nat, q: nat)
    requires k > 0 && IsLane(vec) && IsLane(fts)
    requires i < j < |Fused(vec, fts, k, topK)|
    requires Fused(vec, fts, k, topK)[i].score == Fused(vec, fts, k, topK)[j].score
    ensures p < q < |Order(vec, fts)|
    ensures Order(vec, fts)[p] == Fused(vec, fts, k, topK)[i].id
    ensures Order(vec, fts)[q] == Fused(vec, fts, k, topK)[j].id
  {
    FusedPrefix(vec, fts, k, topK);
    EntryKeepsId(vec, fts, k);
    hide Fused, Sorted, Rank, Order, Entry, Scoring;
    var kept, entries := Fused(vec, fts, k, topK), Entries(vec, fts, k);
    var all, score := Sorted(entries), kept[i].score;
    assert all[i] == kept[i] && all[j] == kept[j];
    SortedLaws(entries);
    p, q := ScoringKeepsOrder(all, score, i, j);
    p, q := ScoringComesFrom(entries, score, p, q);
  }

  lemma {:induction false} OrderStartsWithVector(vec: seq<Hit>, fts: seq<Hit>)
    ensures |vec| <= |Order(vec, fts)| && forall i | 0 <= i < |vec| :: Order(vec, fts)[i] == vec[i].id
  {
    if fts != [] {
      OrderStartsWithVector(vec, fts[..|fts| - 1]);
    }
  }

  // ---------- What the scores mean ----------

  ghost predicate InBoth(vec: seq<Hit>, fts: seq<Hit>, id: ChunkId) {
    Rank(vec, id).Some? && Rank(fts, id).Some?
  }

  lemma {:induction false} Reciprocal(a: real, b: real)
    requires 0.0 < a <= b
    ensures 0.0 < 1.0 / b <= 1.0 / a
    ensures a < b ==> 1.0 / b < 1.0 / a
  {
    var x, y := 1.0 / a, 1.0 / b;
    assert x * a == 1.0 && y * b == 1.0;
    ProductOrder(y, 0.0, b);
    ProductOrder(x, y, b);
    ProductOrder(b, a, x);
    ProductOrder(x, 0.0, a);
    ProductOrder(y, x, a);
  }

  lemma {:induction false} ShareBounds(k: nat, rank: Option<nat>, n: nat)
    requires k > 0 && (rank.Some? ==> rank.value < n)
    ensures 0.0 <= Share(k, rank) <= 1.0 / k as real
    ensures rank.Some? && n <= k ==> 2.0 * Share(k, rank) > 1.0 / k as real
  {
    if rank.Some? {
      var r := rank.value;
      Reciprocal(k as real, (k + r) as real);
      if n <= k {
        Reciprocal((k + r) as real, (2 * k) as real);
        HalfOf(k as real);
      }
    }
  }

  lemma {:induction false} HalfOf(x: real)
    requires x > 0.0
    ensures 2.0 * (1.0 / (2.0 * x)) == 1.0 / x
  {
    var y, z := 1.0 / x, 1.0 / (2.0 * x);
    assert y * x == 1.0 && z * (2.0 * x) == 1.0;
    assert (2.0 * z) * x == y * x;
    ProductOrder(2.0 * z, y, x);
    ProductOrder(y, 2.0 * z, x);
  }

  /** With lanes no longer than the constant, any chunk of both lanes outscores any chunk of one. */
  lemma {:induction false} BothLanesOutscoreOne(vec: seq<Hit>, fts: seq<Hit>, k: nat, a: ChunkId, b: ChunkId)
    requires k > 0 && |vec| <= k && |fts| <= k
    requires InBoth(vec, fts, a) && !InBoth(vec, fts, b)
    ensures Score(vec, fts, k, a) > Score(vec, fts, k, b)
  {
    ShareBounds(k, Rank(vec, a), |vec|);
    ShareBounds(k, Rank(fts, a), |fts|);
    ShareBounds(k, Rank(vec, b), |vec|);
    ShareBounds(k, Rank(fts, b), |fts|);
    hide Rank;
    assert Share(k, None) == 0.0;
  }

  /** So every two-lane chunk precedes every one-lane chunk when `topK` does not exceed the constant. */
  lemma {:induction false} BothLanesComeFirst(vec: seq<Hit>, fts: seq<Hit>, k: nat, topK: nat,
                                              a: ChunkId, i: nat) returns (p: nat)
    requires k > 0 && IsLane(vec) && IsLane(fts)
    requires |vec| <= topK && |fts| <= topK && topK <= k
    requires InBoth(vec, fts, a)
    requires i < |Fused(vec, fts, k, topK)| && !InBoth(vec, fts, Fused(vec, fts, k, topK)[i].id)
    ensures p < i && Fused(vec, fts, k, topK)[p].id == a
  {
    hide Fused;
    FusedIsRanking(vec, fts, k, topK);
    var b := Fused(vec, fts, k, topK)[i];
    BothLanesOutscoreOne(vec, fts, k, a, b.id);
    assert b == Entry(vec, fts, k, b.id);
    p := HigherComesFirst(vec, fts, k, topK, a, i);
  }

  // One place more than the constant is too many: then a two-lane chunk may only tie.

  function VectorLane(n: nat, text: string): seq<Hit> {
    seq(n, i => Hit(i, text))
  }

  /** A lane of `k + 1` chunks that shares its last chunk, number `k`, with the vector lane. */
  function TextLane(k: nat, text: string): seq<Hit> {
    seq(k + 1, i => Hit(if i == k then k else k + 1 + i, text))
  }

  lemma {:induction false} RankOf(lane: seq<Hit>, i: nat)
    requires IsLane(lane) && i < |lane|
    ensures Rank(lane, lane[i].id) == Some(i)
  {
    hide Rank;
    var r := Rank(lane, lane[i].id);
    assert r.Some? && lane[r.value].id == lane[i].id;
  }

  lemma {:induction false} LongLanes(k: nat, text: string)
    requires k > 0
    ensures var vec, fts := VectorLane(k + 1, text), TextLane(k, text);
            && IsLane(vec) && IsLane(fts) && |vec| == |fts| == k + 1
            && Rank(vec, 0) == Some(0) && Rank(fts, 0) == None
            && Rank(vec, k) == Rank(fts, k) == Some(k)
            && (forall id | id != k :: Rank(vec, id).None? || Rank(fts, id).None?)
  {
    hide Rank;
    var vec, fts := VectorLane(k + 1, text), TextLane(k, text);
    RankOf(vec, 0);
    RankOf(vec, k);
    RankOf(fts, k);
  }

  lemma {:induction false} LongLaneScores(k: nat, text: string, id: ChunkId)
    requires k > 0
    ensures var vec, fts := VectorLane(k + 1, text), TextLane(k, text);
            && Score(vec, fts, k, id) <= 1.0 / k as real
            && (id == 0 || id == k ==> Score(vec, fts, k, id) == 1.0 / k as real)
  {
    LongLanes(k, text);
    hide Rank, VectorLane, TextLane;
    var vec, fts := VectorLane(k + 1, text), TextLane(k, text);
    ShareBounds(k, Rank(vec, id), k + 1);
    ShareBounds(k, Rank(fts, id), k + 1);
    HalfOf(k as real);
    assert (k + k) as real == 2.0 * k as real;
  }

  /**
   * For every constant: with lanes one longer than it, a two-lane chunk may only tie with the best
   * one-lane chunk, which then heads the answer.
   */
  lemma {:induction false} LongerLanesTie(k: nat, text: string)
    requires k > 0
    ensures var vec, fts := VectorLane(k + 1, text), TextLane(k, text);
            && IsLane(vec) && IsLane(fts) && |vec| == |fts| == k + 1
            && InBoth(vec, fts, k) && !InBoth(vec, fts, 0)
            && Score(vec, fts, k, 0) == Score(vec, fts, k, k) == 1.0 / k as real
            && Fused(vec, fts, k, k + 1) != [] && Fused(vec, fts, k, k + 1)[0].id == 0
  {
    LongLanes(k, text);
    LongLaneScores(k, text, 0);
    LongLaneScores(k, text, k);
    var vec, fts := VectorLane(k + 1, text), TextLane(k, text);
    assert vec[0].id == 0;
    hide Rank, VectorLane, TextLane, Fused, Order, Sorted, Score, Entries, Entry;
    OrderStartsWithVector(vec, fts);
    OrderIsUnion(vec, fts);
    FusedPrefix(vec, fts, k, k + 1);
    var order, all := Order(vec, fts), Sorted(Entries(vec, fts, k));
    FusedPrefix(vec, fts, k, |order|);
    assert Fused(vec, fts, k, |order|) == all;
    var p := PositionOf(vec, fts, k, 0);
    SortedEntries(vec, fts, k);
    EntryScore(vec, fts, k, all[0].id);
    LongLaneScores(k, text, all[0].id);
    if p > 0 {
      var q, z := TiesKeepMergeOrder(vec, fts, k, |order|, 0, p);
      assert false;
    }
  }

  lemma {:induction false} EntryScore(vec: seq<Hit>, fts: seq<Hit>, k: nat, id: ChunkId)
    requires k > 0
    ensures Entry(vec, fts, k, id).score == Score(vec, fts, k, id)
  {
  }

  /** At least as good: a lower rank, or the same, or the other one is not in the lane at all. */
  ghost predicate AtLeast(r: Option<nat>, s: Option<nat>) {
    s.None? || (r.Some? && r.value <= s.value)
  }

  lemma {:induction false} ShareOrder(k: nat, r: Option<nat>, s: Option<nat>)
    requires k > 0 && AtLeast(r, s)
    ensures Share(k, r) >= Share(k, s)
    ensures r != s ==> Share(k, r) > Share(k, s)
  {
    if r.Some? {
      if s.Some? {
        Reciprocal((k + r.value) as real, (k + s.value) as real);
      } else {
        Reciprocal((k + r.value) as real, (k + r.value) as real);
      }
    }
  }

  /** A chunk at least as good in both lanes and better in one comes first. */
  lemma {:induction false} DominatingChunkComesFirst(vec: seq<Hit>, fts: seq<Hit>, k: nat, topK: nat,
                                                     a: ChunkId, i: nat) returns (p: nat)
    requires k > 0 && IsLane(vec) && IsLane(fts) && i < |Fused(vec, fts, k, topK)|
    requires var b := Fused(vec, fts, k, topK)[i].id;
             && AtLeast(Rank(vec, a), Rank(vec, b)) && AtLeast(Rank(fts, a), Rank(fts, b))
             && (Rank(vec, a) != Rank(vec, b) || Rank(fts, a) != Rank(fts, b))
    ensures p < i && Fused(vec, fts, k, topK)[p].id == a
  {
    hide Fused, Rank;
    FusedIsRanking(vec, fts, k, topK);
    var b := Fused(vec, fts, k, topK)[i];
    ShareOrder(k, Rank(vec, a), Rank(vec, b.id));
    ShareOrder(k, Rank(fts, a), Rank(fts, b.id));
    assert b == Entry(vec, fts, k, b.id);
    p := HigherComesFirst(vec, fts, k, topK, a, i);
  }

  // ---------- The merge ----------

  /** The vector lane fills the merge map. */
  method FillFromVector(vec: seq<Hit>, k: nat) returns (order: seq<ChunkId>, byId: map<ChunkId, Result>)
    requires k > 0 && IsLane(vec)
    ensures order == Order(vec, [])
    ensures forall id :: id in byId <==> Rank(vec, id).Some?
    ensures forall id | id in byId :: byId[id] == Entry(vec, [], k, id)
  {
    order, byId := [], map[];
    for i := 0 to |vec|
      invariant order == Map((h: Hit) => h.id, vec)[..i]
      invariant forall id :: id in byId <==> Rank(vec[..i], id).Some?
      invariant forall id | id in byId :: byId[id] == Entry(vec[..i], [], k, id)
    {
      var hit := vec[i];
      VectorStep(vec, k, i);
      order := order + [hit.id];
      byId := byId[hit.id := Result(hit.id, hit.content, 1.0 / (k + i) as real, Some(i), None)];
    }
    assert vec[..|vec|] == vec;
  }

  lemma {:induction false} VectorStep(vec: seq<Hit>, k: nat, i: nat)
    requires k > 0 && IsLane(vec) && i < |vec|
    ensures Rank(vec[..i], vec[i].id).None?
    ensures forall id | id != vec[i].id ::
              Rank(vec[..i + 1], id) == Rank(vec[..i], id)
              && Entry(vec[..i + 1], [], k, id) == Entry(vec[..i], [], k, id)
    ensures Entry(vec[..i + 1], [], k, vec[i].id)
            == Result(vec[i].id, vec[i].content, 1.0 / (k + i) as real, Some(i), None)
  {
    assert vec[..i + 1][..i] == vec[..i];
    assert forall j | 0 <= j < i :: vec[..i][j].id != vec[i].id;
  }

  /** The full-text lane adds to what is there, or appends. */
  method Merge(vec: seq<Hit>, fts: seq<Hit>, k: nat) returns (order: seq<ChunkId>, byId: map<ChunkId, Result>)
    requires k > 0 && IsLane(vec) && IsLane(fts)
    ensures order == Order(vec, fts)
    ensures forall id | id in order :: id in byId && byId[id] == Entry(vec, fts, k, id)
  {
    hide Entry, Rank;
    order, byId := FillFromVector(vec, k);
    NoTextHits();
    for j := 0 to |fts|
      invariant order == Order(vec, fts[..j])
      invariant forall id :: id in byId <==> Rank(vec, id).Some? || Rank(fts[..j], id).Some?
      invariant forall id | id in byId :: byId[id] == Entry(vec, fts[..j], k, id)
    {
      var hit := fts[j];
      TextStep(vec, fts, k, j);
      var share := 1.0 / (k + j) as real;
      if hit.id in byId {
        var seen := byId[hit.id];
        byId := byId[hit.id := seen.(score := seen.score + share, ftsRank := Some(j))];
      } else {
        order := order + [hit.id];
        byId := byId[hit.id := Result(hit.id, hit.content, share, None, Some(j))];
      }
    }
    assert fts[..|fts|] == fts;
    OrderIsUnion(vec, fts);
  }

  lemma {:induction false} NoTextHits()
    ensures forall id :: Rank([], id) == None
  {
  }

  lemma {:induction false} TextStep(vec: seq<Hit>, fts: seq<Hit>, k: nat, j: nat)
    requires k > 0 && IsLane(vec) && IsLane(fts) && j < |fts|
    ensures Rank(fts[..j], fts[j].id).None?
    ensures forall id | id != fts[j].id ::
              Rank(fts[..j + 1], id) == Rank(fts[..j], id)
              && Entry(vec, fts[..j + 1], k, id) == Entry(vec, fts[..j], k, id)
    ensures Rank(fts[..j + 1], fts[j].id) == Some(j)
    ensures var before := Entry(vec, fts[..j], k, fts[j].id);
            Entry(vec, fts[..j + 1], k, fts[j].id) ==
            if Rank(vec, fts[j].id).Some?
            then before.(score := before.score + 1.0 / (k + j) as real, ftsRank := Some(j))
            else Result(fts[j].id, fts[j].content, 1.0 / (k + j) as real, None, Some(j))
    ensures Order(vec, fts[..j + 1])
            == if Rank(vec, fts[j].id).Some? then Order(vec, fts[..j]) else Order(vec, fts[..j]) + [fts[j].id]
  {
    hide Rank;
    var id := fts[j].id;
    NextRank(fts, j);
    assert Rank(fts[..j], id) == None;
    forall other | other != id
      ensures Entry(vec, fts[..j + 1], k, other) == Entry(vec, fts[..j], k, other)
    {
      SameEntry(vec, fts[..j + 1], fts[..j], k, other);
    }
    assert fts[..j + 1][..j] == fts[..j];
    assert fts[..j + 1][j] == fts[j];
  }

  /** The next row of a lane has the next rank, and no other rank changes. */
  lemma {:induction false} NextRank(lane: seq<Hit>, j: nat)
    requires IsLane(lane) && j < |lane|
    ensures Rank(lane[..j], lane[j].id) == None && Rank(lane[..j + 1], lane[j].id) == Some(j)
    ensures forall id | id != lane[j].id :: Rank(lane[..j + 1], id) == Rank(lane[..j], id)
  {
    assert lane[..j + 1][..j] == lane[..j];
    assert forall i | 0 <= i < j :: lane[..j][i].id != lane[j].id;
  }

  lemma {:induction false} SameEntry(vec: seq<Hit>, fts: seq<Hit>, before: seq<Hit>, k: nat, id: ChunkId)
    requires k > 0 && before <= fts && Rank(fts, id) == Rank(before, id)
    ensures Entry(vec, fts, k, id) == Entry(vec, before, k, id)
  {
    hide Rank;
  }

  method RetrieveHybrid(vec: seq<Hit>, fts: seq<Hit>, k: nat, topK: nat) returns (results: seq<Result>)
    requires k > 0 && IsLane(vec) && IsLane(fts)
    ensures results == Fused(vec, fts, k, topK)
  {
    hide Entry, Rank, Order;
    var order, byId := Merge(vec, fts, k);
    var merged: seq<Result> := [];
    for i := 0 to |order|
      invariant merged == Entries(vec, fts, k)[..i]
    {
      assert order[i] in order;
      merged := merged + [byId[order[i]]];
    }
    EntriesLength(vec, fts, k);
    assert merged == Entries(vec, fts, k);
    results := Take(Sorted(merged), topK);
  }
}
