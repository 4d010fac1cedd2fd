/**
 * Splitting a file into chunks for embedding: lines are packed greedily, up to
 * 50 lines or 2000 characters (newlines included) a chunk; a longer line stands alone.
 */
module Chunker {
  import opened Common

  const MAX_CHUNK_LINES := 50
  const MAX_CHUNK_CHARS := 2000

  type Block = seq<string>

  datatype Chunk = Chunk(index: nat, text: string)

  // ---------- Lines ----------

  ghost predicate IsLine(s: string) {
    '\n' !in s
  }

  function Split(content: string): (lines: seq<string>)
    ensures lines != []
    ensures forall i | 0 <= i < |lines| :: IsLine(lines[i])
  {
    if content == "" then [""]
    else
      var rest := Split(content[1..]);
      if content[0] == '\n' then [""] + rest else [[content[0]] + rest[0]] + rest[1..]
  }

  function Join(lines: seq<string>): string {
    if lines == [] then ""
    else if |lines| == 1 then lines[0]
    else lines[0] + "\n" + Join(lines[1..])
  }

  lemma {:induction false} JoinAfterSplit(content: string)
    ensures Join(Split(content)) == content
  {
    if content != "" {
      JoinAfterSplit(content[1..]);
      var rest := Split(content[1..]);
      if content[0] != '\n' {
        var lines := Split(content);
        assert lines[1..] == rest[1..];
      } else {
        assert ([""] + rest)[1..] == rest;
      }
    }
  }

  lemma {:induction false} SplitCons(c: char, text: string)
    ensures var rest := Split(text);
            Split([c] + text) == if c == '\n' then [""] + rest else [[c] + rest[0]] + rest[1..]
  {
    assert ([c] + text)[1..] == text;
  }

  /** Joining lines whose first one is not empty: its first character comes first. */
  lemma {:induction false} JoinCons(lines: seq<string>)
    requires lines != [] && lines[0] != ""
    ensures Join(lines) == [lines[0][0]] + Join([lines[0][1..]] + lines[1..])
  {
    var shorter := [lines[0][1..]] + lines[1..];
    assert shorter[1..] == lines[1..];
  }

  /** The lines without the first character of the first one. */
  function Shorter(lines: seq<string>): seq<string>
    requires lines != [] && lines[0] != ""
  {
    [lines[0][1..]] + lines[1..]
  }

  lemma {:induction false} OneMoreChar(lines: seq<string>)
    requires lines != [] && lines[0] != "" && IsLine(lines[0])
    requires Split(Join(Shorter(lines))) == Shorter(lines)
    ensures Split(Join(lines)) == lines
  {
    hide Split, Join;
    var first := lines[0];
    JoinCons(lines);
    SplitCons(first[0], Join(Shorter(lines)));
    assert [first[0]] + first[1..] == first;
    assert Shorter(lines)[1..] == lines[1..];
    assert [first] + lines[1..] == lines;
  }

  lemma {:induction false} OneMoreLine(later: seq<string>)
    requires later != [] && Split(Join(later)) == later
    ensures Split(Join([""] + later)) == [""] + later
  {
    hide Split;
    SplitCons('\n', Join(later));
    assert ([""] + later)[1..] == later;
    assert Join([""] + later) == ['\n'] + Join(later);
  }

  lemma {:induction false} SplitAfterJoin(lines: seq<string>)
    requires lines != [] && forall i | 0 <= i < |lines| :: IsLine(lines[i])
    ensures Split(Join(lines)) == lines
    decreases |lines|, |lines[0]|
  {
    hide Split, Join;
    if lines[0] != "" {
      assert IsLine(lines[0]);
      SplitAfterJoin(Shorter(lines));
      OneMoreChar(lines);
    } else if |lines| == 1 {
      EmptyText();
      assert lines == [""];
    } else {
      SplitAfterJoin(lines[1..]);
      OneMoreLine(lines[1..]);
      assert lines == [""] + lines[1..];
    }
  }

  lemma {:induction false} EmptyText()
    ensures Split("") == [""] && Join([""]) == ""
  {
  }

  // ---------- Blocks ----------

  /** Characters of a block, counting a newline after every line. */
  function Weight(block: Block): nat {
    if block == [] then 0 else Weight(block[..|block| - 1]) + |block[|block| - 1]| + 1
  }

  predicate Legal(block: Block) {
    || |block| == 1
    || (1 <= |block| <= MAX_CHUNK_LINES && Weight(block) <= MAX_CHUNK_CHARS)
  }

  ghost predicate LegalPartition(blocks: seq<Block>, lines: seq<string>) {
    Flatten(blocks) == lines && forall b | b in blocks :: Legal(b)
  }

  /** The blocks that the loop still emits, with `current` open and `rest` to come. */
  function Blocks(current: Block, rest: seq<string>): seq<Block>
    decreases rest
  {
    if rest == [] then (if current == [] then [] else [current])
    else if current != [] && !Legal(current + [rest[0]]) then [current] + Blocks([rest[0]], rest[1..])
    else Blocks(current + [rest[0]], rest[1..])
  }

  lemma {:induction false} BlocksPartition(current: Block, rest: seq<string>)
    requires current == [] || Legal(current)
    ensures LegalPartition(Blocks(current, rest), current + rest)
    decreases rest
  {
    if rest == [] {
      assert current + rest == current;
      if current != [] {
        assert Flatten([current]) == current + Flatten([]);
      }
    } else if current != [] && !Legal(current + [rest[0]]) {
      BlocksPartition([rest[0]], rest[1..]);
      assert [rest[0]] + rest[1..] == rest;
      var tail := Blocks([rest[0]], rest[1..]);
      assert ([current] + tail)[1..] == tail;
    } else {
      BlocksPartition(current + [rest[0]], rest[1..]);
      assert current + [rest[0]] + rest[1..] == current + rest;
    }
  }

  // ---------- Fewest chunks ----------

  lemma {:induction false} WeightSplit(a: Block, b: Block)
    ensures Weight(a + b) == Weight(a) + Weight(b)
  {
    if b == [] {
      assert a + b == a;
    } else {
      var n := |a + b|;
      assert (a + b)[..n - 1] == a + b[..|b| - 1];
      WeightSplit(a, b[..|b| - 1]);
    }
  }

  /** Every contiguous piece of a legal block is legal. */
  lemma {:induction false} PieceOfLegal(a: Block, b: Block, c: Block)
    requires Legal(a + b + c) && b != []
    ensures Legal(b)
  {
    WeightSplit(a + b, c);
    WeightSplit(a, b);
  }

  /** Dropping leading lines never needs more blocks. */
  lemma {:induction false} DropLines(blocks: seq<Block>, n: nat) returns (kept: seq<Block>)
    requires forall b | b in blocks :: Legal(b)
    requires n <= |Flatten(blocks)|
    ensures LegalPartition(kept, Flatten(blocks)[n..])
    ensures |kept| <= |blocks|
  {
    if n == 0 {
      kept := blocks;
    } else if n >= |blocks[0]| {
      kept := DropLines(blocks[1..], n - |blocks[0]|);
    } else {
      var cut := blocks[0][n..];
      assert blocks[0] == blocks[0][..n] + cut + [];
      PieceOfLegal(blocks[0][..n], cut, []);
      kept := [cut] + blocks[1..];
      assert kept[1..] == blocks[1..];
    }
  }

  /** No legal partition of the lines has fewer blocks than the greedy one. */
  lemma {:induction false} GreedyIsFewest(current: Block, rest: seq<string>, blocks: seq<Block>)
    requires current == [] || Legal(current)
    requires LegalPartition(blocks, current + rest)
    ensures |Blocks(current, rest)| <= |blocks|
    decreases rest
  {
    if rest == [] {
    } else if current != [] && !Legal(current + [rest[0]]) {
      var tail := FirstBlockIsNoLonger(current, rest, blocks);
      assert rest == [rest[0]] + rest[1..];
      GreedyIsFewest([rest[0]], rest[1..], tail);
    } else {
      assert current + [rest[0]] + rest[1..] == current + rest;
      GreedyIsFewest(current + [rest[0]], rest[1..], blocks);
    }
  }

  /** Where the greedy pass closes a block, any legal partition has closed one too. */
  lemma {:induction false} FirstBlockIsNoLonger(current: Block, rest: seq<string>, blocks: seq<Block>)
    returns (tail: seq<Block>)
    requires current != [] && rest != [] && !Legal(current + [rest[0]])
    requires LegalPartition(blocks, current + rest)
    ensures LegalPartition(tail, rest)
    ensures |tail| < |blocks|
  {
    var first, all := blocks[0], current + rest;
    assert all == first + Flatten(blocks[1..]);
    var n := |current| + 1;
    if |first| >= n {
      assert all[..n] == current + [rest[0]] == first[..n];
      assert first == [] + first[..n] + first[n..];
      PieceOfLegal([], first[..n], first[n..]);
    }
    tail := DropLines(blocks[1..], |current| - |first|);
    assert Flatten(blocks[1..])[|current| - |first|..] == all[|current|..] == rest;
  }

  // ---------- Chunks of a file ----------

  function Number(blocks: seq<Block>, start: nat): (chunks: seq<Chunk>)
    ensures |chunks| == |blocks|
    ensures forall i | 0 <= i < |chunks| :: chunks[i] == Chunk(start + i, Join(blocks[i]))
  {
    if blocks == [] then [] else [Chunk(start, Join(blocks[0]))] + Number(blocks[1..], start + 1)
  }

  function ChunksOf(content: string): seq<Chunk> {
    Number(Blocks([], Split(content)), 0)
  }

  lemma {:induction false} NumberSnoc(blocks: seq<Block>, block: Block)
    ensures Number(blocks + [block], 0) == Number(blocks, 0) + [Chunk(|blocks|, Join(block))]
  {
  }

  lemma {:induction false} NextLine(closed: seq<Block>, current: Block, rest: seq<string>)
    requires rest != []
    ensures Weight(current + [rest[0]]) == Weight(current) + |rest[0]| + 1
    ensures closed + Blocks(current, rest) ==
            if current != [] && !Legal(current + [rest[0]])
            then (closed + [current]) + Blocks([rest[0]], rest[1..])
            else closed + Blocks(current + [rest[0]], rest[1..])
  {
    assert (current + [rest[0]])[..|current|] == current;
  }

  lemma {:induction false} NoLinesLeft(closed: seq<Block>, current: Block)
    ensures closed + Blocks(current, []) == if current == [] then closed else closed + [current]
    ensures Weight([]) == 0 && Number([], 0) == []
  {
  }

  method ChunkFile(content: string) returns (chunks: seq<Chunk>)
    ensures chunks == ChunksOf(content)
  {
    hide Blocks, Weight, Number, Split, Join;
    NoLinesLeft([], []);
    var lines := Split(content);
    var currentLines: Block, currentChars, idx := [], 0, 0;
    chunks := [];
    ghost var closed: seq<Block> := [];
    for i := 0 to |lines|
      invariant closed + Blocks(currentLines, lines[i..]) == Blocks([], lines)
      invariant currentChars == Weight(currentLines)
      invariant idx == |closed| && chunks == Number(closed, 0)
      invariant i > 0 ==> currentLines != []
    {
      var line := lines[i];
      NextLine(closed, currentLines, lines[i..]);
      assert lines[i..][1..] == lines[i + 1..];
      if currentLines != [] &&
         (|currentLines| >= MAX_CHUNK_LINES || currentChars + |line| + 1 > MAX_CHUNK_CHARS) {
        NumberSnoc(closed, currentLines);
        chunks := chunks + [Chunk(idx, Join(currentLines))];
        closed := closed + [currentLines];
        idx := idx + 1;
        currentLines, currentChars := [], 0;
        assert [] + [line] == [line];
        NextLine(closed, [], [line]);
      }
      currentLines := currentLines + [line];
      currentChars := currentChars + |line| + 1;
    }
    NoLinesLeft(closed, currentLines);
    if currentLines != [] {
      NumberSnoc(closed, currentLines);
      chunks := chunks + [Chunk(idx, Join(currentLines))];
    }
  }

  // ---------- What the chunks promise ----------

  function Texts(chunks: seq<Chunk>): (texts: seq<string>)
    ensures |texts| == |chunks|
    ensures forall i | 0 <= i < |chunks| :: texts[i] == chunks[i].text
  {
    seq(|chunks|, i requires 0 <= i < |chunks| => chunks[i].text)
  }

  lemma {:induction false} JoinOfFlatten(blocks: seq<Block>, texts: seq<string>)
    requires |texts| == |blocks|
    requires forall i | 0 <= i < |blocks| :: blocks[i] != [] && texts[i] == Join(blocks[i])
    ensures Join(texts) == Join(Flatten(blocks))
  {
    if |blocks| == 1 {
      assert Flatten(blocks) == blocks[0];
    } else if |blocks| > 1 {
      JoinOfFlatten(blocks[1..], texts[1..]);
      assert Flatten(blocks[1..]) != [] by { assert blocks[1..][0] == blocks[1]; }
      JoinOfConcat(blocks[0], Flatten(blocks[1..]));
    }
  }

  lemma {:induction false} JoinOfConcat(a: Block, b: Block)
    requires a != [] && b != []
    ensures Join(a + b) == Join(a) + "\n" + Join(b)
  {
    assert (a + b)[1..] == a[1..] + b;
    if |a| > 1 {
      JoinOfConcat(a[1..], b);
    } else {
      assert a[1..] + b == b;
    }
  }

  lemma {:induction false} JoinedLength(block: Block)
    requires block != []
    ensures |Join(block)| == Weight(block) - 1
  {
    if |block| > 1 {
      JoinedLength(block[1..]);
      WeightSplit([block[0]], block[1..]);
      assert block == [block[0]] + block[1..];
    }
    assert Weight([block[0]]) == |block[0]| + 1 by {
      assert [block[0]][..0] == [];
    }
    if |block| == 1 {
      assert block == [block[0]];
    }
  }

  lemma {:induction false} LinesOfBlock(blocks: seq<Block>, i: nat)
    requires i < |blocks|
    requires forall l | 0 <= l < |Flatten(blocks)| :: IsLine(Flatten(blocks)[l])
    ensures forall l | 0 <= l < |blocks[i]| :: IsLine(blocks[i][l])
  {
    var head, tail := blocks[0], Flatten(blocks[1..]);
    assert Flatten(blocks) == head + tail;
    if i == 0 {
      forall l | 0 <= l < |head|
        ensures IsLine(head[l])
      {
        assert Flatten(blocks)[l] == head[l];
      }
    } else {
      forall l | 0 <= l < |tail|
        ensures IsLine(tail[l])
      {
        assert Flatten(blocks)[|head| + l] == tail[l];
      }
      LinesOfBlock(blocks[1..], i - 1);
    }
  }

  /** A chunk is one line, or at most 50 lines and 1999 characters. */
  ghost predicate FitsOrIsOneLine(text: string) {
    || IsLine(text)
    || (|Split(text)| <= 50 && |text| <= 1999)
  }

  /** Chunking loses nothing, numbers the chunks from zero, and respects both limits. */
  lemma {:induction false} ChunkingIsLossless(content: string)
    ensures var chunks := ChunksOf(content);
            && chunks != []
            && Join(Texts(chunks)) == content
            && (forall i | 0 <= i < |chunks| :: chunks[i].index == i && FitsOrIsOneLine(chunks[i].text))
  {
    var lines := Split(content);
    var blocks := Blocks([], lines);
    var chunks := ChunksOf(content);
    BlocksPartition([], lines);
    assert [] + lines == lines;
    assert forall i | 0 <= i < |blocks| :: Legal(blocks[i]);
    JoinOfFlatten(blocks, Texts(chunks));
    JoinAfterSplit(content);
    forall i | 0 <= i < |chunks|
      ensures FitsOrIsOneLine(chunks[i].text)
    {
      var block := blocks[i];
      assert Legal(block);
      LinesOfBlock(blocks, i);
      SplitAfterJoin(block);
      JoinedLength(block);
      if |block| == 1 {
        assert Join(block) == block[0];
      }
    }
  }

  /** Any way of cutting the file's lines into legal chunks takes at least as many. */
  lemma {:induction false} ChunkingIsMinimal(content: string, blocks: seq<Block>)
    requires Flatten(blocks) == Split(content)
    requires forall b | b in blocks :: |b| == 1 || (1 <= |b| <= 50 && |Join(b)| <= 1999)
    ensures |ChunksOf(content)| <= |blocks|
  {
    forall b | b in blocks
      ensures Legal(b)
    {
      JoinedLength(b);
    }
    assert [] + Split(content) == Split(content);
    GreedyIsFewest([], Split(content), blocks);
  }
}
