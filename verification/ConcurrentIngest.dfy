/**
 * Several ingest runs at once. Nothing keeps a second run from working on the same repository, and every
 * statement commits by itself, so the statements of the runs interleave in any order.
 */
module ConcurrentIngest {
  import opened Common
  import opened Chunker
  import opened Ingest

  /** A run at file number `pos`; if it is busy, it has executed `next` statements of re-indexing that file. */
  datatype Proc = Proc(files: seq<SourceFile>, pos: nat, busy: bool, next: nat)

  datatype State = State(tables: Tables, procs: seq<Proc>)

  function Move(s: State, i: nat, p: Proc): State
    requires i < |s.procs|
  {
    s.(procs := s.procs[i := p])
  }

  /** Run `i` checks its next file, or executes its next statement; a run that is through does nothing. */
  function Step(repo: string, s: State, i: nat): State {
    if i >= |s.procs| || s.procs[i].pos >= |s.procs[i].files| then s
    else
      var p := s.procs[i];
      var file, content := FileKey(repo, p.files[p.pos].path), p.files[p.pos].content;
      if !p.busy then
        if Stale(s.tables, file, Sha256(content)) then Move(s, i, p.(busy := true, next := 0))
        else Move(s, i, p.(pos := p.pos + 1))
      else
        var plan := Reindex(file, content);
        if p.next >= |plan| then s
        else
          var t := s.(tables := Apply(s.tables, plan[p.next]));
          if p.next + 1 == |plan| then Move(t, i, p.(pos := p.pos + 1, busy := false, next := 0))
          else Move(t, i, p.(next := p.next + 1))
  }

  function RunAll(repo: string, s: State, schedule: seq<nat>): State
    decreases schedule
  {
    if schedule == [] then s else RunAll(repo, Step(repo, s, schedule[0]), schedule[1..])
  }

  /** `n` runs over the same tree, none of which has begun. */
  function Start(t: Tables, files: seq<SourceFile>, n: nat): State {
    State(t, seq(n, i => Proc(files, 0, false, 0)))
  }

  ghost predicate AllThrough(s: State) {
    forall i | 0 <= i < |s.procs| :: s.procs[i].pos >= |s.procs[i].files|
  }

  // ---------- What is still to come for one file ----------

  predicate Working(p: Proc, j: nat, n: nat) {
    p.busy && p.pos == j && p.next <= n
  }

  /** Some run is re-indexing file `j` and has executed no more than `n` statements of it. */
  ghost predicate Pending(procs: seq<Proc>, j: nat, n: nat) {
    exists i :: 0 <= i < |procs| && Working(procs[i], j, n)
  }

  lemma {:induction false} PendingStays(procs: seq<Proc>, i: nat, p: Proc, j: nat, n: nat)
    requires i < |procs| && Pending(procs, j, n)
    requires Working(procs[i], j, n) ==> Working(p, j, n)
    ensures Pending(procs[i := p], j, n)
  {
    hide Working;
    var k :| 0 <= k < |procs| && Working(procs[k], j, n);
    assert Working(procs[i := p][k], j, n);
  }

  lemma {:induction false} PendingNew(procs: seq<Proc>, i: nat, p: Proc, j: nat, n: nat)
    requires i < |procs| && Working(p, j, n)
    ensures Pending(procs[i := p], j, n)
  {
    hide Working;
    assert procs[i := p][i] == p;
  }

  ghost predicate RowRight(t: Tables, file: FileKey, chunks: seq<Chunk>, k: nat)
    requires k < |chunks|
  {
    ChunkKey(file, k) in t.chunks && t.chunks[ChunkKey(file, k)] == chunks[k].text
  }

  ghost predicate NoWrongRow(t: Tables, file: FileKey, chunks: seq<Chunk>) {
    forall k | k in t.chunks && k.file == file :: k.index < |chunks| && t.chunks[k] == chunks[k.index].text
  }

  ghost predicate Indexed(t: Tables, file: FileKey, digest: Digest) {
    file in t.index && t.index[file] == digest
  }

  /**
   * Somebody has begun to re-index the file: whatever is not right yet, some run is still going to put
   * right.
   */
  ghost predicate Begun(t: Tables, procs: seq<Proc>, file: FileKey, content: string, j: nat) {
    var chunks := ChunksOf(content);
    && (NoWrongRow(t, file, chunks) || Pending(procs, j, 0))
    && (forall k: nat | k < |chunks| :: RowRight(t, file, chunks, k) || Pending(procs, j, k + 1))
    && (Indexed(t, file, Sha256(content)) || Pending(procs, j, |chunks| + 1))
  }

  /** Nobody has touched the file, and whoever has passed it found it up to date. */
  ghost predicate Untouched(t0: Tables, t: Tables, procs: seq<Proc>, file: FileKey, content: string, j: nat) {
    && SameAt(t0, t, file)
    && (forall i | 0 <= i < |procs| ::
          && !(procs[i].busy && procs[i].pos == j)
          && (procs[i].pos > j ==> !Stale(t0, file, Sha256(content))))
  }

  ghost predicate FileInv(t0: Tables, t: Tables, procs: seq<Proc>, file: FileKey, content: string, j: nat) {
    || Untouched(t0, t, procs, file, content, j)
    || (Stale(t0, file, Sha256(content)) && Begun(t, procs, file, content, j))
  }

  /** All runs work on the same tree and stand where a run can stand. */
  ghost predicate ProcsFit(repo: string, files: seq<SourceFile>, procs: seq<Proc>) {
    forall i | 0 <= i < |procs| ::
      && procs[i].files == files
      && (procs[i].busy ==> procs[i].pos < |files|
                            && procs[i].next < |Reindex(FileKey(repo, files[procs[i].pos].path),
                                                        files[procs[i].pos].content)|)
  }

  ghost predicate AllFiles(repo: string, files: seq<SourceFile>, t0: Tables, s: State) {
    forall j | 0 <= j < |files| ::
      FileInv(t0, s.tables, s.procs, FileKey(repo, files[j].path), files[j].content, j)
  }

  ghost predicate OutsideSame(repo: string, files: seq<SourceFile>, t0: Tables, t: Tables) {
    forall file | !InTree(repo, files, file) :: SameAt(t0, t, file)
  }

  ghost predicate Inv(repo: string, files: seq<SourceFile>, t0: Tables, s: State) {
    ProcsFit(repo, files, s.procs) && AllFiles(repo, files, t0, s) && OutsideSame(repo, files, t0, s.tables)
  }

  // ---------- Steps on another file ----------

  lemma {:induction false} BegunElsewhere(t: Tables, u: Tables, procs: seq<Proc>, i: nat, p: Proc,
                                          file: FileKey, content: string, j: nat)
    requires i < |procs| && Begun(t, procs, file, content, j) && SameAt(t, u, file)
    requires !(procs[i].busy && procs[i].pos == j)
    ensures Begun(u, procs[i := p], file, content, j)
  {
    hide ChunksOf, Pending;
    var chunks, after := ChunksOf(content), procs[i := p];
    forall n | Pending(procs, j, n)
      ensures Pending(after, j, n)
    {
      PendingStays(procs, i, p, j, n);
    }
    SameRows(t, u, file, chunks);
  }

  lemma {:induction false} SameRows(t: Tables, u: Tables, file: FileKey, chunks: seq<Chunk>)
    requires SameAt(t, u, file)
    ensures NoWrongRow(t, file, chunks) ==> NoWrongRow(u, file, chunks)
    ensures forall k: nat | k < |chunks| :: RowRight(t, file, chunks, k) ==> RowRight(u, file, chunks, k)
  {
    forall k: ChunkKey | k.file == file
      ensures k in t.chunks <==> k in u.chunks
      ensures k in t.chunks ==> t.chunks[k] == u.chunks[k]
    {
      assert k in RowsOf(t, file) <==> k in RowsOf(u, file);
    }
  }

  lemma {:induction false} UntouchedElsewhere(t0: Tables, t: Tables, u: Tables, procs: seq<Proc>, i: nat, p: Proc,
                                              file: FileKey, content: string, j: nat)
    requires i < |procs| && Untouched(t0, t, procs, file, content, j) && SameAt(t, u, file)
    requires !(p.busy && p.pos == j)
    requires p.pos > j ==> procs[i].pos > j || !Stale(t0, file, Sha256(content))
    ensures Untouched(t0, u, procs[i := p], file, content, j)
  {
  }

  // ---------- Steps on the file itself ----------

  lemma {:induction false} CheckKeeps(t0: Tables, t: Tables, procs: seq<Proc>, i: nat, file: FileKey,
                                      content: string, j: nat)
    requires i < |procs| && !procs[i].busy && procs[i].pos == j
    requires FileInv(t0, t, procs, file, content, j)
    ensures var p := if Stale(t, file, Sha256(content)) then procs[i].(busy := true, next := 0)
                     else procs[i].(pos := j + 1);
            FileInv(t0, t, procs[i := p], file, content, j)
  {
    hide ChunksOf;
    if Stale(t, file, Sha256(content)) {
      var p := procs[i].(busy := true, next := 0);
      var after := procs[i := p];
      forall n: nat
        ensures Pending(after, j, n)
      {
        PendingNew(procs, i, p, j, n);
      }
      assert Begun(t, after, file, content, j);
    } else {
      var p := procs[i].(pos := j + 1);
      if Untouched(t0, t, procs, file, content, j) {
        UntouchedElsewhere(t0, t, t, procs, i, p, file, content, j);
      } else {
        BegunElsewhere(t, t, procs, i, p, file, content, j);
      }
    }
  }

  lemma {:induction false} DeleteKeeps(t: Tables, procs: seq<Proc>, i: nat, file: FileKey, content: string, j: nat)
    requires i < |procs| && procs[i].busy && procs[i].pos == j && procs[i].next == 0
    requires Begun(t, procs, file, content, j)
    ensures Begun(Apply(t, DeleteStaleChunks(file)), procs[i := procs[i].(next := 1)], file, content, j)
  {
    hide ChunksOf;
    hide Pending;
    var p := procs[i].(next := 1);
    var after := procs[i := p];
    forall n: nat | n >= 1
      ensures Pending(after, j, n)
    {
      PendingNew(procs, i, p, j, n);
    }
  }

  lemma {:induction false} UpsertRows(t: Tables, file: FileKey, chunks: seq<Chunk>, k: nat)
    requires k < |chunks| && chunks[k].index == k
    ensures var u := Apply(t, UpsertChunk(file, chunks[k]));
            && u.index == t.index
            && (NoWrongRow(t, file, chunks) ==> NoWrongRow(u, file, chunks))
            && RowRight(u, file, chunks, k)
            && (forall q: nat | q < |chunks| :: RowRight(t, file, chunks, q) ==> RowRight(u, file, chunks, q))
  {
  }

  lemma {:induction false} UpsertKeeps(t: Tables, procs: seq<Proc>, i: nat, file: FileKey, content: string,
                                       j: nat, k: nat)
    requires i < |procs| && procs[i].busy && procs[i].pos == j && procs[i].next == k + 1
    requires k < |ChunksOf(content)| && ChunksOf(content)[k].index == k
    requires Begun(t, procs, file, content, j)
    ensures Begun(Apply(t, UpsertChunk(file, ChunksOf(content)[k])), procs[i := procs[i].(next := k + 2)],
                  file, content, j)
  {
    hide ChunksOf, Pending, RowRight, NoWrongRow, Apply;
    var chunks, p := ChunksOf(content), procs[i].(next := k + 2);
    var after := procs[i := p];
    UpsertRows(t, file, chunks, k);
    forall n: nat | Pending(procs, j, n) && n != k + 1
      ensures Pending(after, j, n)
    {
      PendingStays(procs, i, p, j, n);
    }
  }

  lemma {:induction false} IndexRows(t: Tables, file: FileKey, chunks: seq<Chunk>, digest: Digest)
    ensures var u := Apply(t, UpdateFileIndex(file, digest));
            && Indexed(u, file, digest)
            && (NoWrongRow(t, file, chunks) ==> NoWrongRow(u, file, chunks))
            && (forall q: nat | q < |chunks| :: RowRight(t, file, chunks, q) ==> RowRight(u, file, chunks, q))
  {
  }

  lemma {:induction false} IndexKeeps(t: Tables, procs: seq<Proc>, i: nat, file: FileKey, content: string, j: nat)
    requires i < |procs| && procs[i].busy && procs[i].pos == j && procs[i].next == |ChunksOf(content)| + 1
    requires Begun(t, procs, file, content, j)
    ensures Begun(Apply(t, UpdateFileIndex(file, Sha256(content))),
                  procs[i := procs[i].(pos := j + 1, busy := false, next := 0)], file, content, j)
  {
    hide ChunksOf, Pending, RowRight, NoWrongRow, Apply;
    var chunks, p := ChunksOf(content), procs[i].(pos := j + 1, busy := false, next := 0);
    var after := procs[i := p];
    IndexRows(t, file, chunks, Sha256(content));
    forall n: nat | Pending(procs, j, n) && n <= |chunks|
      ensures Pending(after, j, n)
    {
      PendingStays(procs, i, p, j, n);
    }
  }

  /** Which statement of the re-indexing comes at place `n`. */
  lemma {:induction false} StatementAt(file: FileKey, content: string, n: nat)
    requires n < |Reindex(file, content)|
    ensures var chunks := ChunksOf(content);
            && |Reindex(file, content)| == |chunks| + 2
            && Reindex(file, content)[n] == (if n == 0 then DeleteStaleChunks(file)
                                             else if n <= |chunks| then UpsertChunk(file, chunks[n - 1])
                                             else UpdateFileIndex(file, Sha256(content)))
            && (forall k: nat | k < |chunks| :: chunks[k].index == k)
  {
    ChunkingIsLossless(content);
    hide ChunksOf;
  }

  lemma {:induction false} BusyIsBegun(t0: Tables, t: Tables, procs: seq<Proc>, i: nat, file: FileKey,
                                       content: string, j: nat)
    requires i < |procs| && procs[i].busy && procs[i].pos == j
    requires FileInv(t0, t, procs, file, content, j)
    ensures Stale(t0, file, Sha256(content)) && Begun(t, procs, file, content, j)
  {
    hide Begun, Stale;
  }

  /** A run's next statement on file `j` itself. */
  lemma {:induction false} StatementKeeps(t0: Tables, t: Tables, procs: seq<Proc>, i: nat, file: FileKey,
                                          content: string, j: nat)
    requires i < |procs| && procs[i].busy && procs[i].pos == j
    requires procs[i].next < |Reindex(file, content)|
    requires FileInv(t0, t, procs, file, content, j)
    ensures var plan, n := Reindex(file, content), procs[i].next;
            var p := if n + 1 == |plan| then procs[i].(pos := j + 1, busy := false, next := 0)
                     else procs[i].(next := n + 1);
            FileInv(t0, Apply(t, plan[n]), procs[i := p], file, content, j)
  {
    hide Begun, Stale, ChunksOf, Apply, Reindex, Untouched;
    var n := procs[i].next;
    BusyIsBegun(t0, t, procs, i, file, content, j);
    StatementAt(file, content, n);
    if n == 0 {
      DeleteKeeps(t, procs, i, file, content, j);
    } else if n <= |ChunksOf(content)| {
      UpsertKeeps(t, procs, i, file, content, j, n - 1);
    } else {
      IndexKeeps(t, procs, i, file, content, j);
    }
  }

  // ---------- Every step ----------

  lemma {:induction false} ApplyFrame(t: Tables, s: Statement, file: FileKey)
    requires s.file != file
    ensures SameAt(t, Apply(t, s), file)
  {
  }

  lemma {:induction false} OfFile(file: FileKey, content: string, n: nat)
    requires n < |Reindex(file, content)|
    ensures Reindex(file, content)[n].file == file
  {
    StatementAt(file, content, n);
    hide Reindex, ChunksOf;
  }

  /** Another file than the one the run is at. */
  lemma {:induction false} OthersKeep(t0: Tables, t: Tables, u: Tables, procs: seq<Proc>, i: nat, p: Proc,
                                      file: FileKey, content: string, j: nat)
    requires i < |procs| && procs[i].pos != j
    requires p.pos == procs[i].pos || (p.pos == procs[i].pos + 1 && !p.busy)
    requires FileInv(t0, t, procs, file, content, j) && SameAt(t, u, file)
    ensures FileInv(t0, u, procs[i := p], file, content, j)
  {
    hide Stale, Begun, Untouched, SameAt;
    if Untouched(t0, t, procs, file, content, j) {
      UntouchedElsewhere(t0, t, u, procs, i, p, file, content, j);
    } else {
      BegunElsewhere(t, u, procs, i, p, file, content, j);
    }
  }

  lemma {:induction false} SameAtItself(t: Tables, file: FileKey)
    ensures SameAt(t, t, file)
  {
  }

  lemma {:induction false} StepFacts(repo: string, s: State, i: nat)
    requires i < |s.procs| && s.procs[i].pos < |s.procs[i].files|
    requires s.procs[i].busy ==>
               s.procs[i].next < |Reindex(FileKey(repo, s.procs[i].files[s.procs[i].pos].path),
                                          s.procs[i].files[s.procs[i].pos].content)|
    ensures var p, u := s.procs[i], Step(repo, s, i);
            var file, content := FileKey(repo, p.files[p.pos].path), p.files[p.pos].content;
            var q := u.procs[i];
            && |u.procs| == |s.procs| && u.procs == s.procs[i := q]
            && q.files == p.files
            && (q.pos == p.pos || (q.pos == p.pos + 1 && !q.busy))
            && (q.busy ==> q.pos < |q.files| && q.next < |Reindex(file, content)|)
            && (forall other | other != file :: SameAt(s.tables, u.tables, other))
  {
    hide Stale, ChunksOf, Reindex, Apply, SameAt;
    var p := s.procs[i];
    var file, content := FileKey(repo, p.files[p.pos].path), p.files[p.pos].content;
    forall other | other != file
      ensures SameAt(s.tables, Step(repo, s, i).tables, other)
    {
      SameAtItself(s.tables, other);
      if p.busy {
        OfFile(file, content, p.next);
        ApplyFrame(s.tables, Reindex(file, content)[p.next], other);
      }
    }
    ReindexIsNotEmpty(file, content);
  }

  lemma {:induction false} ReindexIsNotEmpty(file: FileKey, content: string)
    ensures |Reindex(file, content)| >= 2
  {
    hide ChunksOf;
  }

  lemma {:induction false} StepKeepsFile(repo: string, files: seq<SourceFile>, t0: Tables, s: State, i: nat, j: nat)
    requires DistinctPaths(files) && Inv(repo, files, t0, s)
    requires i < |s.procs| && s.procs[i].pos < |files| && j < |files|
    ensures FileInv(t0, Step(repo, s, i).tables, Step(repo, s, i).procs, FileKey(repo, files[j].path),
                    files[j].content, j)
  {
    hide Stale, ChunksOf, Reindex, Apply, SameAt, FileInv, OutsideSame;
    var p, u := s.procs[i], Step(repo, s, i);
    var file, content := FileKey(repo, files[j].path), files[j].content;
    assert p.files == files;
    assert FileInv(t0, s.tables, s.procs, file, content, j);
    if p.pos != j {
      StepFacts(repo, s, i);
      assert file != FileKey(repo, files[p.pos].path);
      OthersKeep(t0, s.tables, u.tables, s.procs, i, u.procs[i], file, content, j);
    } else if p.busy {
      StatementKeeps(t0, s.tables, s.procs, i, file, content, j);
    } else {
      CheckKeeps(t0, s.tables, s.procs, i, file, content, j);
    }
  }

  lemma {:induction false} SameAtTransitive(t: Tables, u: Tables, v: Tables, file: FileKey)
    requires SameAt(t, u, file) && SameAt(u, v, file)
    ensures SameAt(t, v, file)
  {
  }

  lemma {:induction false} StepKeepsInv(repo: string, files: seq<SourceFile>, t0: Tables, s: State, i: nat)
    requires DistinctPaths(files) && Inv(repo, files, t0, s)
    ensures Inv(repo, files, t0, Step(repo, s, i))
  {
    if i < |s.procs| && s.procs[i].pos < |s.procs[i].files| {
      var u := Step(repo, s, i);
      assert s.procs[i].files == files;
      StepFacts(repo, s, i);
      hide Stale, ChunksOf, Reindex, Apply, SameAt, FileInv, Step;
      forall j | 0 <= j < |files|
        ensures FileInv(t0, u.tables, u.procs, FileKey(repo, files[j].path), files[j].content, j)
      {
        StepKeepsFile(repo, files, t0, s, i, j);
      }
      forall other | !InTree(repo, files, other)
        ensures SameAt(t0, u.tables, other)
      {
        assert other != FileKey(repo, files[s.procs[i].pos].path);
        SameAtTransitive(t0, s.tables, u.tables, other);
      }
    }
  }

  lemma {:induction false} RunKeepsInv(repo: string, files: seq<SourceFile>, t0: Tables, s: State, schedule: seq<nat>)
    requires DistinctPaths(files) && Inv(repo, files, t0, s)
    ensures Inv(repo, files, t0, RunAll(repo, s, schedule))
    decreases schedule
  {
    hide Inv, Step, DistinctPaths;
    if schedule != [] {
      StepKeepsInv(repo, files, t0, s, schedule[0]);
      RunKeepsInv(repo, files, t0, Step(repo, s, schedule[0]), schedule[1..]);
    }
  }

  lemma {:induction false} StartInv(repo: string, files: seq<SourceFile>, t: Tables, n: nat)
    ensures Inv(repo, files, t, Start(t, files, n))
  {
    hide Reindex, ChunksOf, Begun, Stale;
  }

  // ---------- When all are through ----------

  lemma {:induction false} RowsContents(file: FileKey, chunks: seq<Chunk>)
    requires forall k | 0 <= k < |chunks| :: chunks[k].index == k
    ensures forall key :: key in Rows(file, chunks) <==> key.file == file && key.index < |chunks|
    ensures forall key | key in Rows(file, chunks) :: Rows(file, chunks)[key] == chunks[key.index].text
  {
    if chunks != [] {
      RowsContents(file, chunks[..|chunks| - 1]);
    }
  }

  lemma {:induction false} RightRows(t: Tables, file: FileKey, chunks: seq<Chunk>)
    requires forall k | 0 <= k < |chunks| :: chunks[k].index == k
    requires NoWrongRow(t, file, chunks) && forall k: nat | k < |chunks| :: RowRight(t, file, chunks, k)
    ensures RowsOf(t, file) == Rows(file, chunks)
  {
    RowsContents(file, chunks);
    hide Rows;
    forall key
      ensures key in RowsOf(t, file) <==> key in Rows(file, chunks)
      ensures key in RowsOf(t, file) ==> RowsOf(t, file)[key] == Rows(file, chunks)[key]
    {
      if key.file == file && key.index < |chunks| {
        assert RowRight(t, file, chunks, key.index);
      }
    }
  }

  /** A file is what a completed run over it makes of it: re-indexed if it was stale, and else unchanged. */
  ghost predicate Settled(t0: Tables, t: Tables, file: FileKey, content: string) {
    if Stale(t0, file, Sha256(content))
    then Indexed(t, file, Sha256(content)) && RowsOf(t, file) == Rows(file, ChunksOf(content))
    else SameAt(t0, t, file)
  }

  lemma {:induction false} ThroughIsSettled(t0: Tables, t: Tables, procs: seq<Proc>, file: FileKey,
                                            content: string, j: nat)
    requires procs != [] && forall i | 0 <= i < |procs| :: procs[i].pos > j
    requires FileInv(t0, t, procs, file, content, j)
    ensures Settled(t0, t, file, content)
  {
    ChunkingIsLossless(content);
    hide ChunksOf, Stale, RowsOf, Rows;
    if Untouched(t0, t, procs, file, content, j) {
      assert procs[0].pos > j;
    } else {
      assert forall n :: !Pending(procs, j, n);
      RightRows(t, file, ChunksOf(content));
    }
  }

  lemma {:induction false} SettledFile(repo: string, files: seq<SourceFile>, t0: Tables, s: State, j: nat)
    requires Inv(repo, files, t0, s) && AllThrough(s) && s.procs != [] && j < |files|
    ensures Settled(t0, s.tables, FileKey(repo, files[j].path), files[j].content)
  {
    hide FileInv, Reindex, OutsideSame, Settled;
    ThroughIsSettled(t0, s.tables, s.procs, FileKey(repo, files[j].path), files[j].content, j);
  }

  lemma {:induction false} OneFileIsSettled(t: Tables, file: FileKey, content: string)
    ensures Settled(t, Exec(t, FilePlan(t, file, content)), file, content)
  {
    AfterFile(t, file, content);
    hide ChunksOf, FilePlan, Exec;
    RowsAreOfFile(file, ChunksOf(content));
    if Stale(t, file, Sha256(content)) {
      assert RowsOf(Exec(t, FilePlan(t, file, content)), file) == Rows(file, ChunksOf(content));
    }
  }

  lemma {:induction false} SettledStays(t0: Tables, t: Tables, u: Tables, file: FileKey, content: string)
    requires Settled(t0, t, file, content) && SameAt(t, u, file)
    ensures Settled(t0, u, file, content)
  {
    hide ChunksOf, Rows;
  }

  lemma {:induction false} SettledLater(t0: Tables, t: Tables, u: Tables, file: FileKey, content: string)
    requires SameAt(t0, t, file) && Settled(t, u, file, content)
    ensures Settled(t0, u, file, content)
  {
    hide ChunksOf, Rows;
  }

  /** What one run makes of each file of its tree. */
  lemma {:induction false} OneRunSettles(t: Tables, repo: string, files: seq<SourceFile>, j: nat)
    requires DistinctPaths(files) && j < |files|
    ensures Settled(t, Run(t, repo, files), FileKey(repo, files[j].path), files[j].content)
    decreases files
  {
    hide FilePlan, Exec, Settled, SameAt, Run;
    var first, rest := FileKey(repo, files[0].path), files[1..];
    var mid := Exec(t, FilePlan(t, first, files[0].content));
    RunStep(t, repo, files);
    assert forall i | 0 <= i < |rest| :: rest[i] == files[i + 1];
    if j == 0 {
      OneFileIsSettled(t, first, files[0].content);
      assert !InTree(repo, rest, first);
      WholePlan(mid, repo, rest);
      RunTouchesOnlyItsTree(mid, repo, rest, |Plan(mid, repo, rest)|, first);
      SettledStays(t, mid, Run(mid, repo, rest), first, files[0].content);
    } else {
      var file := FileKey(repo, files[j].path);
      FilePlanFrame(t, first, files[0].content, file);
      OneRunSettles(mid, repo, rest, j - 1);
      SettledLater(t, mid, Run(mid, repo, rest), file, files[j].content);
    }
  }

  lemma {:induction false} SettledAlike(t0: Tables, t: Tables, u: Tables, file: FileKey, content: string)
    requires Settled(t0, t, file, content) && Settled(t0, u, file, content)
    ensures SameAt(t, u, file)
  {
    hide ChunksOf, Rows;
  }

  lemma {:induction false} SameEverywhere(t: Tables, u: Tables)
    requires forall file: FileKey :: SameAt(t, u, file)
    ensures t == u
  {
    assert t.index == u.index by {
      forall file: FileKey
        ensures file in t.index <==> file in u.index
        ensures file in t.index ==> t.index[file] == u.index[file]
      {
        assert SameAt(t, u, file);
      }
    }
    assert t.chunks == u.chunks by {
      forall key: ChunkKey
        ensures key in t.chunks <==> key in u.chunks
        ensures key in t.chunks ==> t.chunks[key] == u.chunks[key]
      {
        assert SameAt(t, u, key.file);
        assert key in RowsOf(t, key.file) <==> key in RowsOf(u, key.file);
      }
    }
  }

  lemma {:induction false} SameAtBack(t: Tables, u: Tables, v: Tables, file: FileKey)
    requires SameAt(t, u, file) && SameAt(t, v, file)
    ensures SameAt(u, v, file)
  {
  }

  /**
   * Any number of runs over the same tree, interleaved statement by statement in any way, leave exactly the
   * tables of a single run once all of them are through.
   */
  lemma {:induction false} InterleavedRunsConverge(repo: string, files: seq<SourceFile>, t: Tables, n: nat,
                                                   schedule: seq<nat>)
    requires DistinctPaths(files) && n > 0
    requires AllThrough(RunAll(repo, Start(t, files, n), schedule))
    ensures RunAll(repo, Start(t, files, n), schedule).tables == Run(t, repo, files)
  {
    var s, alone := RunAll(repo, Start(t, files, n), schedule), Run(t, repo, files);
    StartInv(repo, files, t, n);
    RunKeepsInv(repo, files, t, Start(t, files, n), schedule);
    ProcsStay(repo, Start(t, files, n), schedule);
    assert OutsideSame(repo, files, t, s.tables);
    hide Inv, Settled, SameAt, RunAll, Run, AllThrough, DistinctPaths;
    forall file: FileKey
      ensures SameAt(s.tables, alone, file)
    {
      if InTree(repo, files, file) {
        var j :| 0 <= j < |files| && file == FileKey(repo, files[j].path);
        SettledFile(repo, files, t, s, j);
        OneRunSettles(t, repo, files, j);
        SettledAlike(t, s.tables, alone, file, files[j].content);
      } else {
        WholePlan(t, repo, files);
        RunTouchesOnlyItsTree(t, repo, files, |Plan(t, repo, files)|, file);
        SameAtBack(t, s.tables, alone, file);
      }
    }
    SameEverywhere(s.tables, alone);
  }

  lemma {:induction false} ProcsStay(repo: string, s: State, schedule: seq<nat>)
    ensures |RunAll(repo, s, schedule).procs| == |s.procs|
    decreases schedule
  {
    if schedule != [] {
      OneStepProcs(repo, s, schedule[0]);
      hide Step;
      ProcsStay(repo, Step(repo, s, schedule[0]), schedule[1..]);
    }
  }

  lemma {:induction false} OneStepProcs(repo: string, s: State, i: nat)
    ensures |Step(repo, s, i).procs| == |s.procs|
  {
    hide Stale, Reindex, Apply;
  }

  // ---------- Every run gets through ----------

  /** What a run has still to do: a check and all statements for each file, less what it has done of the first. */
  function Left(repo: string, files: seq<SourceFile>, busy: bool, next: nat): int
    decreases files
  {
    if files == [] then 0
    else |Reindex(FileKey(repo, files[0].path), files[0].content)| + 1 - (if busy then next + 1 else 0)
         + Left(repo, files[1..], false, 0)
  }

  function LeftOf(repo: string, p: Proc): int {
    if p.pos < |p.files| then Left(repo, p.files[p.pos..], p.busy, p.next) else 0
  }

  /** The run stands where a run can stand. */
  predicate Fits(repo: string, p: Proc) {
    && p.pos <= |p.files|
    && (p.busy ==> p.pos < |p.files|
                   && p.next < |Reindex(FileKey(repo, p.files[p.pos].path), p.files[p.pos].content)|)
  }

  lemma {:induction false} LeftIsNat(repo: string, files: seq<SourceFile>)
    ensures Left(repo, files, false, 0) >= 0
    decreases files
  {
    hide Reindex;
    if files != [] {
      LeftIsNat(repo, files[1..]);
    }
  }

  lemma {:induction false} LeftUnfolds(repo: string, p: Proc)
    requires p.pos < |p.files|
    ensures var rest := Left(repo, p.files[p.pos + 1..], false, 0);
            && LeftOf(repo, p) == |Reindex(FileKey(repo, p.files[p.pos].path), p.files[p.pos].content)| + 1
                                  - (if p.busy then p.next + 1 else 0) + rest
            && rest >= 0
            && LeftOf(repo, p.(pos := p.pos + 1, busy := false, next := 0)) == rest
  {
    hide Reindex;
    LeftIsNat(repo, p.files[p.pos + 1..]);
    assert p.files[p.pos..][0] == p.files[p.pos] && p.files[p.pos..][1..] == p.files[p.pos + 1..];
    if p.pos + 1 == |p.files| {
      assert p.files[p.pos + 1..] == [];
    }
  }

  /** Each step of a run that is not through leaves it less to do. */
  lemma {:induction false} StepLeavesLess(repo: string, s: State, i: nat)
    requires i < |s.procs| && Fits(repo, s.procs[i]) && s.procs[i].pos < |s.procs[i].files|
    requires !s.procs[i].busy ==> s.procs[i].next == 0
    ensures var u := Step(repo, s, i);
            && |u.procs| == |s.procs| && u.procs[i].files == s.procs[i].files
            && Fits(repo, u.procs[i]) && (!u.procs[i].busy ==> u.procs[i].next == 0)
            && LeftOf(repo, u.procs[i]) < LeftOf(repo, s.procs[i])
  {
    hide Reindex, Stale, Apply, LeftOf, Left;
    var p := s.procs[i];
    ReindexIsNotEmpty(FileKey(repo, p.files[p.pos].path), p.files[p.pos].content);
    LeftUnfolds(repo, p);
    if p.busy {
      LeftUnfolds(repo, p.(next := p.next + 1));
    } else {
      LeftUnfolds(repo, p.(busy := true, next := 0));
      assert p.(pos := p.pos + 1, busy := false, next := 0) == p.(pos := p.pos + 1);
    }
  }

  lemma {:induction false} SomethingLeft(repo: string, p: Proc)
    requires Fits(repo, p) && p.pos < |p.files|
    ensures LeftOf(repo, p) > 0
  {
    hide Reindex;
    LeftUnfolds(repo, p);
  }

  /** A run that gets its turns is through after finitely many of them, whatever state it is in. */
  lemma {:induction false} RunGetsThrough(repo: string, s: State, i: nat) returns (schedule: seq<nat>)
    requires i < |s.procs| && Fits(repo, s.procs[i]) && (!s.procs[i].busy ==> s.procs[i].next == 0)
    ensures forall k | 0 <= k < |schedule| :: schedule[k] == i
    ensures var t := RunAll(repo, s, schedule);
            |t.procs| == |s.procs| && t.procs[i].pos == |t.procs[i].files| && t.procs[i].files == s.procs[i].files
    decreases LeftOf(repo, s.procs[i])
  {
    hide Step, Reindex, LeftOf;
    if s.procs[i].pos == |s.procs[i].files| {
      schedule := [];
    } else {
      SomethingLeft(repo, s.procs[i]);
      StepLeavesLess(repo, s, i);
      var rest := RunGetsThrough(repo, Step(repo, s, i), i);
      schedule := [i] + rest;
      assert schedule[1..] == rest;
    }
  }

  // ---------- Where a second run does harm ----------

  function Repeat(i: nat, n: nat): seq<nat> {
    if n == 0 then [] else Repeat(i, n - 1) + [i]
  }

  lemma {:induction false} RunAllSnoc(repo: string, s: State, schedule: seq<nat>, i: nat)
    ensures RunAll(repo, s, schedule + [i]) == Step(repo, RunAll(repo, s, schedule), i)
    decreases schedule
  {
    hide Step;
    if schedule == [] {
      assert RunAll(repo, s, [i]) == RunAll(repo, Step(repo, s, i), [i][1..]);
    } else {
      assert (schedule + [i])[1..] == schedule[1..] + [i];
      RunAllSnoc(repo, Step(repo, s, schedule[0]), schedule[1..], i);
    }
  }

  lemma {:induction false} RunAllConcat(repo: string, s: State, a: seq<nat>, b: seq<nat>)
    ensures RunAll(repo, s, a + b) == RunAll(repo, RunAll(repo, s, a), b)
    decreases a
  {
    hide Step;
    if a == [] {
      assert a + b == b;
    } else {
      assert (a + b)[1..] == a[1..] + b;
      RunAllConcat(repo, Step(repo, s, a[0]), a[1..], b);
    }
  }

  /** A run over one file that has found it stale, after `n` statements; after the last it is through. */
  function At(file: SourceFile, plan: seq<Statement>, n: nat): Proc {
    if n < |plan| then Proc([file], 0, true, n) else Proc([file], 1, false, 0)
  }

  /** A run that is left alone executes the statements from `k` on. */
  lemma {:induction false} WorksOn(repo: string, s: State, i: nat, file: SourceFile, k: nat, n: nat)
    requires i < |s.procs|
    requires var plan := Reindex(FileKey(repo, file.path), file.content);
             k + n <= |plan| && s.procs[i] == At(file, plan, k)
    ensures var plan := Reindex(FileKey(repo, file.path), file.content);
            RunAll(repo, s, Repeat(i, n))
            == State(Exec(s.tables, plan[k..k + n]), s.procs[i := At(file, plan, k + n)])
  {
    hide Reindex, Apply, Exec, Stale;
    var plan := Reindex(FileKey(repo, file.path), file.content);
    if n == 0 {
      NoStatements(s.tables, plan, k);
    } else {
      WorksOn(repo, s, i, file, k, n - 1);
      RunAllSnoc(repo, s, Repeat(i, n - 1), i);
      ExecSnoc(s.tables, plan[k..k + n - 1], plan[k + n - 1]);
      assert plan[k..k + n] == plan[k..k + n - 1] + [plan[k + n - 1]];
      var before := State(Exec(s.tables, plan[k..k + n - 1]), s.procs[i := At(file, plan, k + n - 1)]);
      assert before.procs[i := At(file, plan, k + n)] == s.procs[i := At(file, plan, k + n)];
    }
  }

  lemma {:induction false} NoStatements(t: Tables, plan: seq<Statement>, k: nat)
    requires k <= |plan|
    ensures Exec(t, plan[k..k]) == t
  {
  }

  /** Two runs over one file each, the same path, after both have found it stale. */
  lemma {:induction false} BothBegin(repo: string, t: Tables, f: SourceFile, g: SourceFile)
    requires f.path == g.path
    requires Stale(t, FileKey(repo, f.path), Sha256(f.content)) && Stale(t, FileKey(repo, g.path), Sha256(g.content))
    ensures var file := FileKey(repo, f.path);
            RunAll(repo, State(t, [Proc([f], 0, false, 0), Proc([g], 0, false, 0)]), [0, 1])
            == State(t, [At(f, Reindex(file, f.content), 0), At(g, Reindex(file, g.content), 0)])
  {
    hide Reindex, Stale, Apply;
    var file := FileKey(repo, f.path);
    ReindexIsNotEmpty(file, f.content);
    ReindexIsNotEmpty(file, g.content);
    var s0 := State(t, [Proc([f], 0, false, 0), Proc([g], 0, false, 0)]);
    var s1 := Step(repo, s0, 0);
    var s2 := Step(repo, s1, 1);
    assert s1.procs == [Proc([f], 0, true, 0), Proc([g], 0, false, 0)];
    assert s2.procs == [Proc([f], 0, true, 0), Proc([g], 0, true, 0)];
    assert RunAll(repo, s2, []) == s2;
    assert RunAll(repo, s1, [1]) == RunAll(repo, s2, [1][1..]);
    assert RunAll(repo, s0, [0, 1]) == RunAll(repo, s1, [0, 1][1..]);
    assert [0, 1][1..] == [1];
  }

  lemma {:induction false} RowsOfOthers(table: ChunkTable, index: map<FileKey, Digest>, file: FileKey, rows: ChunkTable)
    requires forall k | k in rows :: k.file == file
    ensures RowsOf(Tables(index, Without(table, file) + rows), file) == rows
    ensures Without(Without(table, file) + rows, file) == Without(table, file)
  {
  }

  lemma {:induction false} FromTheStart<T>(plan: seq<T>, n: nat)
    requires n <= |plan|
    ensures plan[0..n] == plan[..n]
  {
  }

  lemma {:induction false} NoRowsYet(table: ChunkTable, file: FileKey, chunks: seq<Chunk>)
    ensures table + Rows(file, chunks[..0]) == table
    ensures chunks[..|chunks|] == chunks
  {
  }

  lemma {:induction false} LastPart(t: Tables, file: FileKey, content: string)
    ensures var plan := Reindex(file, content);
            && |plan| == |ChunksOf(content)| + 2
            && Exec(t, plan[|plan| - 1..|plan|]) == Tables(t.index[file := Sha256(content)], t.chunks)
  {
    ReindexIsNotEmpty(file, content);
    StatementAt(file, content, |Reindex(file, content)| - 1);
    hide ChunksOf, Reindex, Exec;
    var plan := Reindex(file, content);
    assert plan[|plan| - 1..|plan|] == [plan[|plan| - 1]];
    ExecOne(t, plan[|plan| - 1]);
  }

  /** All statements of a plan, all but the last, or the first and the last alone. */
  lemma {:induction false} PartsOfReindex(t: Tables, file: FileKey, content: string)
    ensures var plan, chunks := Reindex(file, content), ChunksOf(content);
            && |plan| == |chunks| + 2
            && Exec(t, plan[0..|plan|])
               == Tables(t.index[file := Sha256(content)], Without(t.chunks, file) + Rows(file, chunks))
            && Exec(t, plan[0..|plan| - 1]) == Tables(t.index, Without(t.chunks, file) + Rows(file, chunks))
            && Exec(t, plan[0..1]) == Tables(t.index, Without(t.chunks, file))
            && Exec(t, plan[|plan| - 1..|plan|]) == Tables(t.index[file := Sha256(content)], t.chunks)
  {
    hide ChunksOf, Reindex, Exec, Without, Rows;
    var n := |Reindex(file, content)|;
    LastPart(t, file, content);
    AfterReindex(t, file, content, n);
    AfterReindex(t, file, content, n - 1);
    AfterReindex(t, file, content, 1);
    FromTheStart(Reindex(file, content), n);
    FromTheStart(Reindex(file, content), n - 1);
    FromTheStart(Reindex(file, content), 1);
    NoRowsYet(Without(t.chunks, file), file, ChunksOf(content));
  }

  lemma {:induction false} ExecOne(t: Tables, s: Statement)
    ensures Exec(t, [s]) == Apply(t, s)
  {
    hide Apply;
    assert Exec(t, [s]) == Exec(Apply(t, s), [s][1..]);
  }

  /**
   * Two runs over the same tree, one of them killed: it had found the file stale, and deletes the chunks that
   * the other run has just written. The index is current, so no later run over the same tree repairs it.
   */
  lemma {:induction false} KilledRivalLosesChunks(repo: string, t: Tables, path: string, content: string)
    returns (schedule: seq<nat>)
    requires Stale(t, FileKey(repo, path), Sha256(content))
    ensures var files, file := [SourceFile(path, content)], FileKey(repo, path);
            var s := RunAll(repo, Start(t, files, 2), schedule);
            && |s.procs| == 2 && s.procs[1].pos == 1
            && Indexed(s.tables, file, Sha256(content)) && RowsOf(s.tables, file) == map[]
            && !ConsistentAt(s.tables, file) && Plan(s.tables, repo, files) == []
  {
    var f, file := SourceFile(path, content), FileKey(repo, path);
    var plan := Reindex(file, content);
    ReindexIsNotEmpty(file, content);
    hide Reindex, ChunksOf, RunAll, Exec;
    var s0 := Start(t, [f], 2);
    assert s0.procs == [Proc([f], 0, false, 0), Proc([f], 0, false, 0)];
    BothBegin(repo, t, f, f);
    var s2 := State(t, [At(f, plan, 0), At(f, plan, 0)]);
    WorksOn(repo, s2, 1, f, 0, |plan|);
    var u := Exec(t, plan[0..|plan|]);
    var s3 := State(u, s2.procs[1 := At(f, plan, |plan|)]);
    WorksOn(repo, s3, 0, f, 0, 1);
    var v := Exec(u, plan[0..1]);
    schedule := [0, 1] + Repeat(1, |plan|) + Repeat(0, 1);
    RunAllConcat(repo, s0, [0, 1] + Repeat(1, |plan|), Repeat(0, 1));
    RunAllConcat(repo, s0, [0, 1], Repeat(1, |plan|));
    PartsOfReindex(t, file, content);
    PartsOfReindex(u, file, content);
    NoRowsLeft(u, file);
    LostChunks(v, repo, path, content);
  }

  lemma {:induction false} NoRowsLeft(t: Tables, file: FileKey)
    ensures RowsOf(Tables(t.index, Without(t.chunks, file)), file) == map[]
  {
  }

  /** Current in the index and without rows: never repaired. */
  lemma {:induction false} LostChunks(t: Tables, repo: string, path: string, content: string)
    requires Indexed(t, FileKey(repo, path), Sha256(content)) && RowsOf(t, FileKey(repo, path)) == map[]
    ensures !ConsistentAt(t, FileKey(repo, path)) && Plan(t, repo, [SourceFile(path, content)]) == []
  {
    ChunkingIsLossless(content);
    RowsNonEmpty(FileKey(repo, path), ChunksOf(content));
    NothingToDo(t, repo, [SourceFile(path, content)]);
  }

  /** Different contents have different rows. */
  lemma {:induction false} RowsTellContent(file: FileKey, a: string, b: string)
    requires Rows(file, ChunksOf(a)) == Rows(file, ChunksOf(b))
    ensures a == b
  {
    ChunkingIsLossless(a);
    ChunkingIsLossless(b);
    var c, d := ChunksOf(a), ChunksOf(b);
    hide ChunksOf;
    RowsContents(file, c);
    RowsContents(file, d);
    hide Rows;
    var rows := Rows(file, c);
    var n := if |c| < |d| then |c| else |d|;
    assert ChunkKey(file, n) in rows <==> n < |c|;
    assert ChunkKey(file, n) in rows <==> n < |d|;
    assert |c| == |d|;
    forall k | 0 <= k < |c|
      ensures Texts(c)[k] == Texts(d)[k]
    {
      assert rows[ChunkKey(file, k)] == c[k].text;
      assert rows[ChunkKey(file, k)] == d[k].text;
    }
    assert Texts(c) == Texts(d);
  }

  /** One run has all but its last statement done, the other all of its own, and then the last one follows. */
  lemma {:induction false} RivalsOverlap(repo: string, t: Tables, f: SourceFile, g: SourceFile)
    returns (schedule: seq<nat>)
    requires f.path == g.path
    requires Stale(t, FileKey(repo, f.path), Sha256(f.content)) && Stale(t, FileKey(repo, g.path), Sha256(g.content))
    ensures var file := FileKey(repo, f.path);
            var p, q := Reindex(file, f.content), Reindex(file, g.content);
            && |q| > 0
            && RunAll(repo, State(t, [Proc([f], 0, false, 0), Proc([g], 0, false, 0)]), schedule)
               == State(Exec(Exec(Exec(t, q[0..|q| - 1]), p[0..|p|]), q[|q| - 1..|q|]), [At(f, p, |p|), At(g, q, |q|)])
  {
    var file := FileKey(repo, f.path);
    var p, q := Reindex(file, f.content), Reindex(file, g.content);
    ReindexIsNotEmpty(file, f.content);
    ReindexIsNotEmpty(file, g.content);
    hide Reindex, RunAll, Exec, At, Stale;
    var s0 := State(t, [Proc([f], 0, false, 0), Proc([g], 0, false, 0)]);
    BothBegin(repo, t, f, g);
    var s1 := State(t, [At(f, p, 0), At(g, q, 0)]);
    WorksOn(repo, s1, 1, g, 0, |q| - 1);
    var s2 := State(Exec(t, q[0..|q| - 1]), [At(f, p, 0), At(g, q, |q| - 1)]);
    assert s1.procs[1 := At(g, q, |q| - 1)] == s2.procs;
    WorksOn(repo, s2, 0, f, 0, |p|);
    var s3 := State(Exec(s2.tables, p[0..|p|]), [At(f, p, |p|), At(g, q, |q| - 1)]);
    assert s2.procs[0 := At(f, p, |p|)] == s3.procs;
    WorksOn(repo, s3, 1, g, |q| - 1, 1);
    assert s3.procs[1 := At(g, q, |q|)] == [At(f, p, |p|), At(g, q, |q|)];
    var a, b := [0, 1] + Repeat(1, |q| - 1), Repeat(0, |p|);
    schedule := a + b + Repeat(1, 1);
    RunAllConcat(repo, s0, a + b, Repeat(1, 1));
    RunAllConcat(repo, s0, a, b);
    RunAllConcat(repo, s0, [0, 1], Repeat(1, |q| - 1));
  }

  /** The tables that such an overlap leaves. */
  lemma {:induction false} RivalsLeave(t: Tables, file: FileKey, was: string, edited: string)
    ensures var p, q := Reindex(file, was), Reindex(file, edited);
            && |q| > 0
            && var u := Exec(Exec(Exec(t, q[0..|q| - 1]), p[0..|p|]), q[|q| - 1..|q|]);
            && Indexed(u, file, Sha256(edited)) && RowsOf(u, file) == Rows(file, ChunksOf(was))
  {
    hide Reindex, ChunksOf, Exec, Rows, Without, RowsOf;
    PartsOfReindex(t, file, edited);
    var p, q := Reindex(file, was), Reindex(file, edited);
    var u := Exec(t, q[0..|q| - 1]);
    PartsOfReindex(u, file, was);
    var v := Exec(u, p[0..|p|]);
    PartsOfReindex(v, file, edited);
    RowsAreOfFile(file, ChunksOf(was));
    RowsOfOthers(u.chunks, v.index[file := Sha256(edited)], file, Rows(file, ChunksOf(was)));
  }

  /**
   * Two runs that have read different contents of one path, neither killed: the later hash can end up indexed
   * over the earlier chunks, and runs over the later content then skip the file.
   */
  lemma {:induction false} RivalContentsMixUp(repo: string, t: Tables, path: string, was: string, edited: string)
    returns (schedule: seq<nat>)
    requires was != edited
    requires Stale(t, FileKey(repo, path), Sha256(was)) && Stale(t, FileKey(repo, path), Sha256(edited))
    ensures var f, g, file := SourceFile(path, was), SourceFile(path, edited), FileKey(repo, path);
            var s := RunAll(repo, State(t, [Proc([f], 0, false, 0), Proc([g], 0, false, 0)]), schedule);
            && AllThrough(s)
            && Indexed(s.tables, file, Sha256(edited)) && RowsOf(s.tables, file) == Rows(file, ChunksOf(was))
            && !ConsistentAt(s.tables, file) && Plan(s.tables, repo, [g]) == []
  {
    var f, g, file := SourceFile(path, was), SourceFile(path, edited), FileKey(repo, path);
    hide Reindex, ChunksOf, RunAll, Exec, Rows, RowsOf, Stale, Indexed, ConsistentAt, Plan;
    schedule := RivalsOverlap(repo, t, f, g);
    RivalsLeave(t, file, was, edited);
    var p, q := Reindex(file, was), Reindex(file, edited);
    var u := Exec(Exec(Exec(t, q[0..|q| - 1]), p[0..|p|]), q[|q| - 1..|q|]);
    MixedUp(u, repo, path, was, edited);
  }

  lemma {:induction false} MixedUp(t: Tables, repo: string, path: string, was: string, edited: string)
    requires was != edited && Indexed(t, FileKey(repo, path), Sha256(edited))
    requires RowsOf(t, FileKey(repo, path)) == Rows(FileKey(repo, path), ChunksOf(was))
    ensures !ConsistentAt(t, FileKey(repo, path)) && Plan(t, repo, [SourceFile(path, edited)]) == []
  {
    NothingToDo(t, repo, [SourceFile(path, edited)]);
    hide ChunksOf, Rows;
    if ConsistentAt(t, FileKey(repo, path)) {
      RowsTellContent(FileKey(repo, path), was, edited);
    }
  }
}
