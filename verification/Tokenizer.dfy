/**
 * The deterministic embedder: text is put in lower case and split into word tokens, and tokens, pairs
 * and triples are hashed as +1 or -1 into a vector of 256 entries.
 *
 * `word` says which characters belong to a token; `lower` is the case mapping.
 */
module Tokenizer {
  import opened Common

  const DIMS := 256

  // ---------- Tokens ----------

  /** The tokens still to come, with `current` under way and `rest` unread. */
  function TokensFrom(word: char -> bool, current: string, rest: string): seq<string>
    decreases rest
  {
    if rest == "" then (if current == "" then [] else [current])
    else if word(rest[0]) then TokensFrom(word, current + [rest[0]], rest[1..])
    else if current == "" then TokensFrom(word, "", rest[1..])
    else [current] + TokensFrom(word, "", rest[1..])
  }

  function Tokens(word: char -> bool, text: string): seq<string> {
    TokensFrom(word, "", text)
  }

  method Tokenize(lower: string -> string, word: char -> bool, input: string) returns (tokens: seq<string>)
    ensures tokens == Tokens(word, lower(input))
  {
    var text := lower(input);
    tokens := [];
    var current := "";
    for i := 0 to |text|
      invariant tokens + TokensFrom(word, current, text[i..]) == Tokens(word, text)
    {
      var ch := text[i];
      ghost var rest := TokensFrom(word, "", text[i + 1..]);
      assert text[i..][1..] == text[i + 1..];
      if word(ch) {
        current := current + [ch];
      } else {
        if current != "" {
          assert tokens + ([current] + rest) == (tokens + [current]) + rest;
          tokens := tokens + [current];
          current := "";
        }
      }
    }
    if current != "" {
      tokens := tokens + [current];
    }
  }

  datatype Span = Span(from: nat, to: nat)

  ghost predicate WordsBetween(word: char -> bool, text: string, from: nat, to: nat)
    requires to <= |text|
  {
    forall p | from <= p < to :: word(text[p])
  }

  /** A run of word characters that cannot be extended on either side. */
  ghost predicate IsMaximalRun(word: char -> bool, text: string, s: Span) {
    && s.from < s.to <= |text|
    && WordsBetween(word, text, s.from, s.to)
    && (s.from == 0 || !word(text[s.from - 1]))
    && (s.to == |text| || !word(text[s.to]))
  }

  /** Every span is a maximal run from `start` on, and its token is its text. */
  ghost predicate AreRuns(word: char -> bool, text: string, start: nat, spans: seq<Span>, tokens: seq<string>) {
    && |spans| == |tokens|
    && (forall n | 0 <= n < |spans| ::
          && IsMaximalRun(word, text, spans[n]) && start <= spans[n].from
          && tokens[n] == text[spans[n].from..spans[n].to])
  }

  ghost predicate InOrder(spans: seq<Span>) {
    forall m, n | 0 <= m < n < |spans| :: spans[m].to < spans[n].from
  }

  ghost predicate Covered(spans: seq<Span>, p: nat) {
    exists n :: 0 <= n < |spans| && spans[n].from <= p < spans[n].to
  }

  /** `spans` lists, from left to right, the maximal runs from position `start` on; `tokens` are their texts. */
  ghost predicate Reads(word: char -> bool, text: string, start: nat, spans: seq<Span>, tokens: seq<string>) {
    && AreRuns(word, text, start, spans, tokens)
    && InOrder(spans)
    && (forall p: nat | start <= p < |text| && word(text[p]) :: Covered(spans, p))
  }

  lemma {:induction false} RunsFrom(word: char -> bool, text: string, start: nat, at: nat) returns (spans: seq<Span>)
    requires start <= at <= |text|
    requires WordsBetween(word, text, start, at)
    requires start == 0 || !word(text[start - 1])
    ensures Reads(word, text, start, spans, TokensFrom(word, text[start..at], text[at..]))
    decreases |text| - at
  {
    if at == |text| {
      spans := if start == at then [] else [Span(start, at)];
      assert text[at..] == "";
      forall p: nat | start <= p < |text|
        ensures Covered(spans, p)
      {
        assert spans[0].from <= p < spans[0].to;
      }
    } else {
      assert text[at..][1..] == text[at + 1..] && text[at..][0] == text[at];
      if word(text[at]) {
        assert text[start..at + 1] == text[start..at] + [text[at]];
        spans := RunsFrom(word, text, start, at + 1);
      } else {
        hide Reads;
        assert text[at + 1..at + 1] == "";
        var rest := RunsFrom(word, text, at + 1, at + 1);
        spans := NextRun(word, text, start, at, rest, TokensFrom(word, "", text[at + 1..]));
      }
    }
  }

  /** The run that ends at a separator, put before the later ones. */
  lemma {:induction false} NextRun(word: char -> bool, text: string, start: nat, at: nat,
                                   rest: seq<Span>, tokens: seq<string>) returns (spans: seq<Span>)
    requires start <= at < |text| && !word(text[at])
    requires WordsBetween(word, text, start, at)
    requires start == 0 || !word(text[start - 1])
    requires Reads(word, text, at + 1, rest, tokens)
    ensures Reads(word, text, start, spans, if start == at then tokens else [text[start..at]] + tokens)
  {
    if start == at {
      hide InOrder, IsMaximalRun, Covered;
      spans := rest;
    } else {
      var run := Span(start, at);
      spans := [run] + rest;
      assert AreRuns(word, text, start, spans, [text[start..at]] + tokens) by {
        hide Covered, InOrder;
        assert IsMaximalRun(word, text, run);
        hide IsMaximalRun;
      }
      assert InOrder(spans) by {
        assert forall n | 0 <= n < |rest| :: at < rest[n].from;
        hide AreRuns, Covered;
      }
      forall p: nat | start <= p < |text| && word(text[p])
        ensures Covered(spans, p)
      {
        CoveredLater(run, rest, p);
        if p >= at {
          assert Covered(rest, p);
        }
      }
    }
  }

  lemma {:induction false} CoveredLater(run: Span, rest: seq<Span>, p: nat)
    ensures run.from <= p < run.to || Covered(rest, p) ==> Covered([run] + rest, p)
  {
    var spans := [run] + rest;
    if run.from <= p < run.to {
      assert spans[0] == run;
    } else if Covered(rest, p) {
      var n :| 0 <= n < |rest| && rest[n].from <= p < rest[n].to;
      assert spans[n + 1] == rest[n];
    }
  }

  /** The tokens are exactly the maximal runs of word characters, in order. */
  lemma {:induction false} TokensAreMaximalRuns(word: char -> bool, text: string) returns (spans: seq<Span>)
    ensures Reads(word, text, 0, spans, Tokens(word, text))
    ensures forall s | IsMaximalRun(word, text, s) :: s in spans
  {
    assert text[0..0] == "" && text[0..] == text;
    spans := RunsFrom(word, text, 0, 0);
    forall s | IsMaximalRun(word, text, s)
      ensures s in spans
    {
      assert word(text[s.from]) && Covered(spans, s.from);
      var n :| 0 <= n < |spans| && spans[n].from <= s.from < spans[n].to;
      SameRun(word, text, s, spans[n]);
    }
  }

  /** Two maximal runs that share a position are the same run. */
  lemma {:induction false} SameRun(word: char -> bool, text: string, s: Span, t: Span)
    requires IsMaximalRun(word, text, s) && IsMaximalRun(word, text, t)
    requires t.from <= s.from < t.to
    ensures s == t
  {
  }

  // ---------- Tokens joined by spaces ----------

  function JoinSpaces(tokens: seq<string>): string {
    if tokens == [] then ""
    else if |tokens| == 1 then tokens[0]
    else tokens[0] + " " + JoinSpaces(tokens[1..])
  }

  ghost predicate AllWord(word: char -> bool, s: string) {
    forall i | 0 <= i < |s| :: word(s[i])
  }

  ghost predicate IsToken(word: char -> bool, s: string) {
    s != "" && AllWord(word, s)
  }

  lemma {:induction false} ReadWord(word: char -> bool, current: string, w: string, rest: string)
    requires AllWord(word, w)
    ensures TokensFrom(word, current, w + rest) == TokensFrom(word, current + w, rest)
    decreases w
  {
    if w == "" {
      assert w + rest == rest && current + w == current;
    } else {
      assert (w + rest)[1..] == w[1..] + rest;
      ReadWord(word, current + [w[0]], w[1..], rest);
      assert current + [w[0]] + w[1..] == current + w;
    }
  }

  /** Tokenising the joined tokens gives the tokens back. */
  lemma {:induction false} TokensAfterJoin(word: char -> bool, tokens: seq<string>)
    requires !word(' ')
    requires forall n | 0 <= n < |tokens| :: IsToken(word, tokens[n])
    ensures Tokens(word, JoinSpaces(tokens)) == tokens
  {
    if tokens != [] {
      var rest := if |tokens| == 1 then "" else " " + JoinSpaces(tokens[1..]);
      assert JoinSpaces(tokens) == tokens[0] + rest;
      assert "" + tokens[0] == tokens[0];
      ReadWord(word, "", tokens[0], rest);
      if |tokens| > 1 {
        TokensAfterJoin(word, tokens[1..]);
        assert rest[1..] == JoinSpaces(tokens[1..]);
      }
    }
  }

  /** The case mapping leaves a text alone that is made of characters of a lowered text and spaces. */
  ghost predicate SettlesCase(lower: string -> string) {
    forall s, t | (forall i | 0 <= i < |t| :: t[i] == ' ' || t[i] in lower(s)) :: lower(t) == t
  }

  ghost predicate MadeOf(t: string, s: string) {
    forall i | 0 <= i < |t| :: t[i] == ' ' || t[i] in s
  }

  lemma {:induction false} JoinIsMadeOf(tokens: seq<string>, s: string)
    requires forall n | 0 <= n < |tokens| :: MadeOf(tokens[n], s)
    ensures MadeOf(JoinSpaces(tokens), s)
  {
    if |tokens| > 1 {
      JoinIsMadeOf(tokens[1..], s);
    }
  }

  lemma {:induction false} TokensAreMadeOf(word: char -> bool, text: string)
    ensures forall n | 0 <= n < |Tokens(word, text)| :: MadeOf(Tokens(word, text)[n], text)
    ensures forall n | 0 <= n < |Tokens(word, text)| :: IsToken(word, Tokens(word, text)[n])
  {
    var spans := TokensAreMaximalRuns(word, text);
    hide Tokens, InOrder, Covered;
    var tokens := Tokens(word, text);
    forall n | 0 <= n < |tokens|
      ensures MadeOf(tokens[n], text) && IsToken(word, tokens[n])
    {
      assert IsMaximalRun(word, text, spans[n]);
      assert tokens[n] == text[spans[n].from..spans[n].to];
    }
  }

  /** So text and its space-joined tokens have the same tokens. */
  lemma {:induction false} JoinedTextHasSameTokens(lower: string -> string, word: char -> bool, text: string)
    requires !word(' ') && SettlesCase(lower)
    ensures Tokens(word, lower(JoinSpaces(Tokens(word, lower(text))))) == Tokens(word, lower(text))
  {
    var tokens := Tokens(word, lower(text));
    TokensAreMadeOf(word, lower(text));
    hide Tokens, MadeOf, IsToken;
    JoinIsMadeOf(tokens, lower(text));
    CaseIsSettled(lower, text, JoinSpaces(tokens));
    TokensAfterJoin(word, tokens);
  }

  lemma {:induction false} CaseIsSettled(lower: string -> string, text: string, t: string)
    requires SettlesCase(lower) && MadeOf(t, lower(text))
    ensures lower(t) == t
  {
  }

  // ---------- Hashing into the vector ----------

  type Position = n: nat | n < DIMS

  /** Where the hash of a shingle lands, and with which sign. */
  datatype Slot = Slot(pos: Position, positive: bool)

  function Pairs(tokens: seq<string>): (s: seq<string>)
    ensures |s| == if |tokens| < 2 then 0 else |tokens| - 1
  {
    if |tokens| < 2 then []
    else seq(|tokens| - 1, i requires 0 <= i < |tokens| - 1 => tokens[i] + " " + tokens[i + 1])
  }

  function Triples(tokens: seq<string>): (s: seq<string>)
    ensures |s| == if |tokens| < 3 then 0 else |tokens| - 2
  {
    if |tokens| < 3 then []
    else seq(|tokens| - 2, i requires 0 <= i < |tokens| - 2 =>
               tokens[i] + " " + tokens[i + 1] + " " + tokens[i + 2])
  }

  function Shingles(tokens: seq<string>): seq<string> {
    tokens + Pairs(tokens) + Triples(tokens)
  }

  type Vector = v: seq<int> | |v| == DIMS witness seq(DIMS, i => 0)

  function Zeros(): Vector {
    seq(DIMS, i => 0)
  }

  function Bump(v: Vector, s: Slot): Vector {
    v[s.pos := v[s.pos] + (if s.positive then 1 else -1)]
  }

  function Hashed(hash: string -> Slot, shingles: seq<string>): Vector {
    if shingles == [] then Zeros()
    else Bump(Hashed(hash, shingles[..|shingles| - 1]), hash(shingles[|shingles| - 1]))
  }

  function Abs(x: int): nat {
    if x < 0 then -x else x
  }

  function L1(v: seq<int>): nat {
    if v == [] then 0 else L1(v[..|v| - 1]) + Abs(v[|v| - 1])
  }

  lemma {:induction false} L1Update(v: seq<int>, i: nat, x: int)
    requires i < |v|
    ensures L1(v[i := x]) == L1(v) - Abs(v[i]) + Abs(x)
  {
    var n := |v| - 1;
    if i == n {
      assert v[i := x][..n] == v[..n];
    } else {
      assert v[i := x][..n] == v[..n][i := x];
      L1Update(v[..n], i, x);
    }
  }

  lemma {:induction false} L1Zeros(n: nat)
    ensures L1(seq(n, i => 0)) == 0
  {
    if n > 0 {
      assert seq(n, i => 0)[..n - 1] == seq(n - 1, i => 0);
      L1Zeros(n - 1);
    }
  }

  /** One shingle changes the size by one, up or down. */
  lemma {:induction false} BumpSize(v: Vector, slot: Slot)
    ensures L1(Bump(v, slot)) <= L1(v) + 1
    ensures L1(Bump(v, slot)) % 2 != L1(v) % 2
  {
    hide L1;
    L1Update(v, slot.pos, v[slot.pos] + (if slot.positive then 1 else -1));
  }

  lemma {:induction false} EmptySize(hash: string -> Slot)
    ensures L1(Hashed(hash, [])) == 0
  {
    hide L1;
    L1Zeros(DIMS);
    assert Zeros() == seq(DIMS, i => 0);
  }

  /** The vector's size is at most the number of shingles, and of the same parity. */
  lemma {:induction false} HashedSize(hash: string -> Slot, shingles: seq<string>)
    ensures L1(Hashed(hash, shingles)) <= |shingles|
    ensures L1(Hashed(hash, shingles)) % 2 == |shingles| % 2
  {
    hide L1, Bump, Zeros;
    if shingles == [] {
      EmptySize(hash);
    } else {
      var n := |shingles| - 1;
      HashedSize(hash, shingles[..n]);
      BumpSize(Hashed(hash, shingles[..n]), hash(shingles[n]));
    }
  }

  /** How often the shingles hash to a slot. */
  ghost function Hits(hash: string -> Slot, shingles: seq<string>, slot: Slot): nat {
    |set k | 0 <= k < |shingles| && hash(shingles[k]) == slot|
  }

  lemma {:induction false} HitsSnoc(hash: string -> Slot, shingles: seq<string>, slot: Slot)
    requires shingles != []
    ensures var n := |shingles| - 1;
            Hits(hash, shingles, slot)
            == Hits(hash, shingles[..n], slot) + (if hash(shingles[n]) == slot then 1 else 0)
  {
    var n := |shingles| - 1;
    var before := set k | 0 <= k < n && hash(shingles[..n][k]) == slot;
    assert (set k | 0 <= k < |shingles| && hash(shingles[k]) == slot)
           == if hash(shingles[n]) == slot then before + {n} else before;
  }

  /** Every entry of the vector is how often it was hit with plus, less how often it was hit with minus. */
  lemma {:induction false} EntriesCountHits(hash: string -> Slot, shingles: seq<string>, pos: Position)
    ensures Hashed(hash, shingles)[pos]
            == Hits(hash, shingles, Slot(pos, true)) - Hits(hash, shingles, Slot(pos, false))
  {
    if shingles == [] {
      assert Hits(hash, shingles, Slot(pos, true)) == 0 && Hits(hash, shingles, Slot(pos, false)) == 0;
    } else {
      hide Hits;
      EntriesCountHits(hash, shingles[..|shingles| - 1], pos);
      HitsSnoc(hash, shingles, Slot(pos, true));
      HitsSnoc(hash, shingles, Slot(pos, false));
    }
  }

  /** All windows of `k` tokens, joined by spaces, from left to right. */
  function Windows(tokens: seq<string>, k: nat): (w: seq<string>)
    ensures |w| == if |tokens| < k then 0 else |tokens| - k + 1
    ensures forall i | 0 <= i < |w| :: w[i] == JoinSpaces(tokens[i..i + k])
  {
    if |tokens| < k then []
    else seq(|tokens| - k + 1, i requires 0 <= i <= |tokens| - k => JoinSpaces(tokens[i..i + k]))
  }

  lemma {:induction false} Singles(tokens: seq<string>)
    ensures Windows(tokens, 1) == tokens
  {
    hide JoinSpaces;
    forall i | 0 <= i < |tokens|
      ensures Windows(tokens, 1)[i] == tokens[i]
    {
      JoinWindow(tokens, i);
    }
  }

  lemma {:induction false} PairsAreWindows(tokens: seq<string>)
    ensures Windows(tokens, 2) == Pairs(tokens)
  {
    hide JoinSpaces;
    forall i | 0 <= i < |Pairs(tokens)|
      ensures Windows(tokens, 2)[i] == Pairs(tokens)[i]
    {
      JoinWindow(tokens, i);
    }
  }

  lemma {:induction false} TriplesAreWindows(tokens: seq<string>)
    ensures Windows(tokens, 3) == Triples(tokens)
  {
    hide JoinSpaces;
    forall i | 0 <= i < |Triples(tokens)|
      ensures Windows(tokens, 3)[i] == Triples(tokens)[i]
    {
      JoinWindow(tokens, i);
    }
  }

  /** The shingles are the windows of one, two and three tokens, in this order. */
  lemma {:induction false} ShinglesAreWindows(tokens: seq<string>)
    ensures Shingles(tokens) == Windows(tokens, 1) + Windows(tokens, 2) + Windows(tokens, 3)
  {
    Singles(tokens);
    PairsAreWindows(tokens);
    TriplesAreWindows(tokens);
    hide Windows, Pairs, Triples;
  }

  lemma {:induction false} JoinWindow(tokens: seq<string>, i: nat)
    requires i < |tokens|
    ensures JoinSpaces(tokens[i..i + 1]) == tokens[i]
    ensures i + 2 <= |tokens| ==> JoinSpaces(tokens[i..i + 2]) == tokens[i] + " " + tokens[i + 1]
    ensures i + 3 <= |tokens| ==>
              JoinSpaces(tokens[i..i + 3]) == tokens[i] + " " + tokens[i + 1] + " " + tokens[i + 2]
  {
    assert tokens[i..i + 1] == [tokens[i]];
    if i + 2 <= |tokens| {
      assert tokens[i..i + 2] == [tokens[i], tokens[i + 1]];
      JoinTwo(tokens[i], tokens[i + 1]);
    }
    if i + 3 <= |tokens| {
      assert tokens[i..i + 3] == [tokens[i], tokens[i + 1], tokens[i + 2]];
      JoinThree(tokens[i], tokens[i + 1], tokens[i + 2]);
    }
  }

  lemma {:induction false} JoinTwo(x: string, y: string)
    ensures JoinSpaces([x, y]) == x + " " + y
  {
    assert [x, y][1..] == [y];
  }

  lemma {:induction false} JoinThree(x: string, y: string, z: string)
    ensures JoinSpaces([x, y, z]) == x + " " + y + " " + z
  {
    assert [x, y, z][1..] == [y, z];
    JoinTwo(y, z);
    assert x + " " + (y + " " + z) == x + " " + y + " " + z;
  }

  /** Adds one shingle to the vector in place. */
  method HashInto(hash: string -> Slot, shingle: string, vec: array<int>)
    requires vec.Length == DIMS
    modifies vec
    ensures vec[..] == Bump(old(vec[..]), hash(shingle))
  {
    var slot := hash(shingle);
    vec[slot.pos] := vec[slot.pos] + (if slot.positive then 1 else -1);
  }

  lemma {:induction false} HashedSnoc(hash: string -> Slot, shingles: seq<string>, s: string)
    ensures Hashed(hash, shingles + [s]) == Bump(Hashed(hash, shingles), hash(s))
  {
    assert (shingles + [s])[..|shingles|] == shingles;
  }

  lemma {:induction false} HashedConcat(hash: string -> Slot, done: seq<string>, more: seq<string>, i: nat)
    requires i < |more|
    ensures Hashed(hash, done + more[..i + 1]) == Bump(Hashed(hash, done + more[..i]), hash(more[i]))
  {
    assert (done + more[..i + 1]) == (done + more[..i]) + [more[i]];
    HashedSnoc(hash, done + more[..i], more[i]);
  }

  /** Adds a list of shingles to a vector that already holds those of `done`. */
  method HashAll(hash: string -> Slot, shingles: seq<string>, vec: array<int>, ghost done: seq<string>)
    requires vec.Length == DIMS && vec[..] == Hashed(hash, done)
    modifies vec
    ensures vec[..] == Hashed(hash, done + shingles)
  {
    hide Hashed, Bump;
    assert done + shingles[..0] == done;
    for i := 0 to |shingles|
      invariant vec[..] == Hashed(hash, done + shingles[..i])
    {
      HashedConcat(hash, done, shingles, i);
      HashInto(hash, shingles[i], vec);
    }
    assert shingles[..|shingles|] == shingles;
  }

  /** The vector of a text before normalisation. */
  function VectorOf(lower: string -> string, word: char -> bool, hash: string -> Slot, text: string): Vector {
    Hashed(hash, Shingles(Tokens(word, lower(text))))
  }

  /** Text and its space-joined tokens are embedded alike. */
  lemma {:induction false} JoinedTextHasSameVector(lower: string -> string, word: char -> bool,
                                                   hash: string -> Slot, text: string)
    requires !word(' ') && SettlesCase(lower)
    ensures VectorOf(lower, word, hash, JoinSpaces(Tokens(word, lower(text)))) == VectorOf(lower, word, hash, text)
  {
    JoinedTextHasSameTokens(lower, word, text);
  }

  /** The size of a text's vector is bounded by its tokens alone. */
  lemma {:induction false} VectorSize(lower: string -> string, word: char -> bool, hash: string -> Slot, text: string)
    ensures var n := |Tokens(word, lower(text))|;
            var shingles := if n == 0 then 0 else if n == 1 then 1 else 3 * n - 3;
            && L1(VectorOf(lower, word, hash, text)) <= shingles
            && L1(VectorOf(lower, word, hash, text)) % 2 == shingles % 2
  {
    hide L1, Hashed, Tokens;
    HashedSize(hash, Shingles(Tokens(word, lower(text))));
  }

  /** The embedding before normalisation. */
  method Embed(lower: string -> string, word: char -> bool, hash: string -> Slot, text: string)
    returns (vec: array<int>)
    ensures fresh(vec) && vec.Length == 256
    ensures vec[..] == VectorOf(lower, word, hash, text)
  {
    vec := new int[DIMS](i => 0);
    assert vec[..] == Hashed(hash, []);
    hide Hashed, Pairs, Triples;
    var tokens := Tokenize(lower, word, text);
    if tokens == [] {
      assert Pairs([]) == [] && Triples([]) == [];
      return;
    }
    HashAll(hash, tokens, vec, []);
    assert [] + tokens == tokens;
    HashAll(hash, Pairs(tokens), vec, tokens);
    HashAll(hash, Triples(tokens), vec, tokens + Pairs(tokens));
  }
}
