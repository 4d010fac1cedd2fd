/**
 * Freshness-tracked ingestion: a hash index that must agree with the chunk table, although
 * the delete, the upserts and the index update of one file commit separately.
 */
module Ingest {
  import opened Common
  import opened Chunker

  /** The content hash, as a function without collisions. */
  datatype Digest = Sha256(content: string)

  datatype FileKey = FileKey(repo: string, path: string)

  datatype ChunkKey = ChunkKey(file: FileKey, index: nat)

  type ChunkTable = map<ChunkKey, string>

  /** Tables `repo_file_index` and `code_chunks`, by their unique keys. */
  datatype Tables = Tables(index: map<FileKey, Digest>, chunks: ChunkTable)

  datatype SourceFile = SourceFile(path: string, content: string)

  /** The SQL statements of an ingest run; each one commits by itself. */
  datatype Statement =
    | DeleteStaleChunks(file: FileKey)
    | UpsertChunk(file: FileKey, chunk: Chunk)
    | UpdateFileIndex(file: FileKey, digest: Digest)

  // ---------- Running statements ----------

  function Without(chunks: ChunkTable, file: FileKey): ChunkTable {
    map k | k in chunks && k.file != file :: chunks[k]
  }

  function Apply(t: Tables, s: Statement): Tables {
    match s
    case DeleteStaleChunks(file) => t.(chunks := Without(t.chunks, file))
    case UpsertChunk(file, chunk) => t.(chunks := t.chunks[ChunkKey(file, chunk.index) := chunk.text])
    case UpdateFileIndex(file, digest) => t.(index := t.index[file := digest])
  }

  function Exec(t: Tables, statements: seq<Statement>): Tables
    decreases statements
  {
    if statements == [] then t else Exec(Apply(t, statements[0]), statements[1..])
  }

  predicate Stale(t: Tables, file: FileKey, current: Digest) {
    !(file in t.index && t.index[file] == current)
  }

  function Upserts(file: FileKey, chunks: seq<Chunk>): seq<Statement> {
    Map((c: Chunk) => UpsertChunk(file, c), chunks)
  }

  /** The statements that re-index one file from scratch. */
  function Reindex(file: FileKey, content: string): seq<Statement> {
    [DeleteStaleChunks(file)] + Upserts(file, ChunksOf(content)) + [UpdateFileIndex(file, Sha256(content))]
  }

  function FilePlan(t: Tables, file: FileKey, content: string): seq<Statement> {
    if Stale(t, file, Sha256(content)) then Reindex(file, content) else []
  }

  /** All statements that an uninterrupted run over `files` executes when started on `t`. */
  function Plan(t: Tables, repo: string, files: seq<SourceFile>): seq<Statement>
    decreases files
  {
    if files == [] then []
    else
      var first := FilePlan(t, FileKey(repo, files[0].path), files[0].content);
      first + Plan(Exec(t, first), repo, files[1..])
  }

  function Run(t: Tables, repo: string, files: seq<SourceFile>): Tables {
    Exec(t, Plan(t, repo, files))
  }

  /** The tables when the run stops after its first `n` statements. */
  function Interrupted(t: Tables, repo: string, files: seq<SourceFile>, n: nat): Tables
    requires n <= |Plan(t, repo, files)|
  {
    Exec(t, Plan(t, repo, files)[..n])
  }

  /** `collect_files` yields each path once. */
  ghost predicate DistinctPaths(files: seq<SourceFile>) {
    forall i, j | 0 <= i < j < |files| :: files[i].path != files[j].path
  }

  ghost predicate InTree(repo: string, files: seq<SourceFile>, file: FileKey) {
    exists i :: 0 <= i < |files| && file == FileKey(repo, files[i].path)
  }

  // ---------- What the tables say about one file ----------

  ghost function RowsOf(t: Tables, file: FileKey): ChunkTable {
    map k | k in t.chunks && k.file == file :: t.chunks[k]
  }

  ghost function Rows(file: FileKey, chunks: seq<Chunk>): ChunkTable {
    if chunks == [] then map[]
    else
      var n := |chunks| - 1;
      Rows(file, chunks[..n])[ChunkKey(file, chunks[n].index) := chunks[n].text]
  }

  /** The chunk rows of `file` are those of the content whose hash is indexed, or none. */
  ghost predicate ConsistentAt(t: Tables, file: FileKey) {
    RowsOf(t, file) == if file in t.index then Rows(file, ChunksOf(t.index[file].content)) else map[]
  }

  ghost predicate Consistent(t: Tables) {
    forall file: FileKey :: ConsistentAt(t, file)
  }

  ghost predicate SameAt(t: Tables, u: Tables, file: FileKey) {
    && RowsOf(t, file) == RowsOf(u, file)
    && (file in t.index <==> file in u.index)
    && (file in t.index ==> t.index[file] == u.index[file])
  }

  // ---------- Executing a plan ----------

  lemma {:induction false} ExecConcat(t: Tables, a: seq<Statement>, b: seq<Statement>)
    ensures Exec(t, a + b) == Exec(Exec(t, a), b)
    decreases a
  {
    if a == [] {
      assert a + b == b;
    } else {
      assert (a + b)[1..] == a[1..] + b;
      ExecConcat(Apply(t, a[0]), a[1..], b);
    }
  }

  lemma {:induction false} RunStep(t: Tables, repo: string, files: seq<SourceFile>)
    requires files != []
    ensures Run(t, repo, files)
            == Run(Exec(t, FilePlan(t, FileKey(repo, files[0].path), files[0].content)), repo, files[1..])
  {
    var first := FilePlan(t, FileKey(repo, files[0].path), files[0].content);
    ExecConcat(t, first, Plan(Exec(t, first), repo, files[1..]));
  }

  lemma {:induction false} RowsAreOfFile(file: FileKey, chunks: seq<Chunk>)
    ensures forall k | k in Rows(file, chunks) :: k.file == file
  {
    if chunks != [] {
      RowsAreOfFile(file, chunks[..|chunks| - 1]);
    }
  }

  /** After the delete and the first `n` upserts. */
  lemma {:induction false} AfterUpserts(t: Tables, file: FileKey, chunks: seq<Chunk>, n: nat)
    requires n <= |chunks|
    ensures Exec(t, [DeleteStaleChunks(file)] + Upserts(file, chunks)[..n])
            == Tables(t.index, Without(t.chunks, file) + Rows(file, chunks[..n]))
  {
    var delete, upserts := [DeleteStaleChunks(file)], Upserts(file, chunks);
    if n == 0 {
      assert delete + upserts[..0] == delete;
      assert Exec(t, delete) == Apply(t, delete[0]);
    } else {
      AfterUpserts(t, file, chunks, n - 1);
      OneMoreUpsert(t, file, chunks, n, Exec(t, delete + upserts[..n - 1]));
      assert delete + upserts[..n] == (delete + upserts[..n - 1]) + [upserts[n - 1]];
      ExecConcat(t, delete + upserts[..n - 1], [upserts[n - 1]]);
    }
  }

  lemma {:induction false} OneMoreUpsert(t: Tables, file: FileKey, chunks: seq<Chunk>, n: nat, u: Tables)
    requires 0 < n <= |chunks|
    requires u == Tables(t.index, Without(t.chunks, file) + Rows(file, chunks[..n - 1]))
    ensures Exec(u, [UpsertChunk(file, chunks[n - 1])])
            == Tables(t.index, Without(t.chunks, file) + Rows(file, chunks[..n]))
  {
    var upsert := UpsertChunk(file, chunks[n - 1]);
    assert Exec(u, [upsert]) == Exec(Apply(u, upsert), []);
    assert chunks[..n][..n - 1] == chunks[..n - 1];
  }

  /** The tables after the first `n` statements of re-indexing a file. */
  lemma {:induction false} AfterReindex(t: Tables, file: FileKey, content: string, n: nat)
    requires n <= |Reindex(file, content)|
    ensures var chunks := ChunksOf(content);
            Exec(t, Reindex(file, content)[..n]) ==
            if n == 0 then t
            else if n <= |chunks| + 1 then Tables(t.index, Without(t.chunks, file) + Rows(file, chunks[..n - 1]))
            else Tables(t.index[file := Sha256(content)], Without(t.chunks, file) + Rows(file, chunks))
  {
    hide ChunksOf;
    var chunks, plan := ChunksOf(content), Reindex(file, content);
    var delete, upserts := [DeleteStaleChunks(file)], Upserts(file, chunks);
    if n == 0 {
    } else if n <= |chunks| + 1 {
      AfterUpserts(t, file, chunks, n - 1);
      assert plan[..n] == delete + upserts[..n - 1];
    } else {
      AfterUpserts(t, file, chunks, |chunks|);
      assert upserts[..|chunks|] == upserts && chunks[..|chunks|] == chunks;
      var update := UpdateFileIndex(file, Sha256(content));
      assert plan[..n] == (delete + upserts) + [update];
      ExecConcat(t, delete + upserts, [update]);
    }
  }

  /** The tables after a file has been dealt with. */
  lemma {:induction false} AfterFile(t: Tables, file: FileKey, content: string)
    ensures var digest := Sha256(content);
            Exec(t, FilePlan(t, file, content)) ==
            if Stale(t, file, digest)
            then Tables(t.index[file := digest], Without(t.chunks, file) + Rows(file, ChunksOf(content)))
            else t
  {
    if Stale(t, file, Sha256(content)) {
      var plan := Reindex(file, content);
      AfterReindex(t, file, content, |plan|);
      assert plan[..|plan|] == plan;
    }
  }

  // ---------- Frame ----------

  lemma {:induction false} ExecFrame(t: Tables, statements: seq<Statement>, file: FileKey)
    requires forall i | 0 <= i < |statements| :: statements[i].file != file
    ensures SameAt(t, Exec(t, statements), file)
    decreases statements
  {
    if statements != [] {
      var u := Apply(t, statements[0]);
      assert statements[0].file != file;
      assert RowsOf(t, file) == RowsOf(u, file);
      ExecFrame(u, statements[1..], file);
    }
  }

  lemma {:induction false} PlanStaysInTree(t: Tables, repo: string, files: seq<SourceFile>, file: FileKey)
    requires !InTree(repo, files, file)
    ensures forall i | 0 <= i < |Plan(t, repo, files)| :: Plan(t, repo, files)[i].file != file
    decreases files
  {
    if files != [] {
      var key := FileKey(repo, files[0].path);
      assert key != file;
      var first := FilePlan(t, key, files[0].content);
      assert forall i | 0 <= i < |files[1..]| :: files[1..][i] == files[i + 1];
      PlanStaysInTree(Exec(t, first), repo, files[1..], file);
    }
  }

  /** However far a run gets, paths outside its tree and other repositories keep their rows. */
  lemma {:induction false} RunTouchesOnlyItsTree(t: Tables, repo: string, files: seq<SourceFile>, n: nat, file: FileKey)
    requires n <= |Plan(t, repo, files)| && !InTree(repo, files, file)
    ensures SameAt(t, Interrupted(t, repo, files, n), file)
  {
    PlanStaysInTree(t, repo, files, file);
    ExecFrame(t, Plan(t, repo, files)[..n], file);
  }

  lemma {:induction false} WholePlan(t: Tables, repo: string, files: seq<SourceFile>)
    ensures Interrupted(t, repo, files, |Plan(t, repo, files)|) == Run(t, repo, files)
  {
    var plan := Plan(t, repo, files);
    assert plan[..|plan|] == plan;
  }

  // ---------- Recovery ----------

  /** Re-indexing a file undoes whatever an interrupted attempt at the same file left behind. */
  lemma {:induction false} ReindexRecovers(t: Tables, file: FileKey, content: string, n: nat)
    requires n < |FilePlan(t, file, content)|
    ensures var s := Exec(t, FilePlan(t, file, content)[..n]);
            Exec(s, FilePlan(s, file, content)) == Exec(t, FilePlan(t, file, content))
  {
    hide ChunksOf;
    AfterReindex(t, file, content, n);
    var s := Exec(t, FilePlan(t, file, content)[..n]);
    assert s.index == t.index;
    AfterFile(t, file, content);
    AfterFile(s, file, content);
    if n > 0 {
      ClearedAgain(t.chunks, file, ChunksOf(content)[..n - 1]);
    }
  }

  lemma {:induction false} ClearedAgain(table: ChunkTable, file: FileKey, chunks: seq<Chunk>)
    ensures Without(Without(table, file) + Rows(file, chunks), file) == Without(table, file)
  {
    RowsAreOfFile(file, chunks);
  }

  lemma {:induction false} PlanPrefix(t: Tables, repo: string, files: seq<SourceFile>, n: nat)
    requires files != [] && n <= |Plan(t, repo, files)|
    ensures var first := FilePlan(t, FileKey(repo, files[0].path), files[0].content);
            var mid := Exec(t, first);
            Interrupted(t, repo, files, n) ==
            if n < |first| then Exec(t, first[..n]) else Interrupted(mid, repo, files[1..], n - |first|)
  {
    var first := FilePlan(t, FileKey(repo, files[0].path), files[0].content);
    var rest := Plan(Exec(t, first), repo, files[1..]);
    if n < |first| {
      assert (first + rest)[..n] == first[..n];
    } else {
      assert (first + rest)[..n] == first + rest[..n - |first|];
      ExecConcat(t, first, rest[..n - |first|]);
    }
  }

  /** A file that a run has finished with is skipped by the next run on the same tree. */
  lemma {:induction false} FinishedFileIsSkipped(t: Tables, repo: string, files: seq<SourceFile>, n: nat)
    requires files != [] && DistinctPaths(files)
    requires var first := FilePlan(t, FileKey(repo, files[0].path), files[0].content);
             n <= |Plan(Exec(t, first), repo, files[1..])|
    ensures var key := FileKey(repo, files[0].path);
            var mid := Exec(t, FilePlan(t, key, files[0].content));
            FilePlan(Interrupted(mid, repo, files[1..], n), key, files[0].content) == []
  {
    var key := FileKey(repo, files[0].path);
    AfterFile(t, key, files[0].content);
    assert forall i | 0 <= i < |files[1..]| :: files[1..][i] == files[i + 1];
    assert !InTree(repo, files[1..], key);
    RunTouchesOnlyItsTree(Exec(t, FilePlan(t, key, files[0].content)), repo, files[1..], n, key);
  }

  /** Stopping a run after any statement and running again on the same tree loses nothing. */
  lemma {:induction false} InterruptionIsHarmless(t: Tables, repo: string, files: seq<SourceFile>, n: nat)
    requires DistinctPaths(files) && n <= |Plan(t, repo, files)|
    ensures Run(Interrupted(t, repo, files, n), repo, files) == Run(t, repo, files)
    decreases files
  {
    hide FilePlan;
    if files != [] {
      var key, content := FileKey(repo, files[0].path), files[0].content;
      var first := FilePlan(t, key, content);
      PlanPrefix(t, repo, files, n);
      RunStep(t, repo, files);
      RunStep(Interrupted(t, repo, files, n), repo, files);
      if n < |first| {
        ReindexRecovers(t, key, content, n);
      } else {
        FinishedFileIsSkipped(t, repo, files, n - |first|);
        InterruptionIsHarmless(Exec(t, first), repo, files[1..], n - |first|);
      }
    }
  }

  // ---------- Completed runs ----------

  /** The tree has `file` with a content other than the indexed one. */
  ghost predicate WillReindex(t: Tables, repo: string, files: seq<SourceFile>, file: FileKey) {
    exists i :: 0 <= i < |files| && file == FileKey(repo, files[i].path)
                && Stale(t, file, Sha256(files[i].content))
  }

  lemma {:induction false} ReindexMakesConsistent(t: Tables, file: FileKey, content: string)
    requires Stale(t, file, Sha256(content))
    ensures ConsistentAt(Exec(t, FilePlan(t, file, content)), file)
  {
    hide ChunksOf, FilePlan;
    AfterFile(t, file, content);
    RowsAreOfFile(file, ChunksOf(content));
    var u := Exec(t, FilePlan(t, file, content));
    assert RowsOf(u, file) == Rows(file, ChunksOf(content));
  }

  lemma {:induction false} FilePlanFrame(t: Tables, key: FileKey, content: string, file: FileKey)
    requires file != key
    ensures SameAt(t, Exec(t, FilePlan(t, key, content)), file)
  {
    var plan := FilePlan(t, key, content);
    assert forall i | 0 <= i < |plan| :: plan[i].file == key;
    ExecFrame(t, plan, file);
  }

  /** A completed run indexes the current hash of every file in its tree. */
  lemma {:induction false} RunIndexesTree(t: Tables, repo: string, files: seq<SourceFile>, i: nat)
    requires DistinctPaths(files) && i < |files|
    ensures !Stale(Run(t, repo, files), FileKey(repo, files[i].path), Sha256(files[i].content))
    decreases files
  {
    hide ChunksOf, Reindex, Run;
    var key := FileKey(repo, files[0].path);
    var mid := Exec(t, FilePlan(t, key, files[0].content));
    RunStep(t, repo, files);
    if i == 0 {
      AfterFile(t, key, files[0].content);
      assert forall j | 0 <= j < |files[1..]| :: files[1..][j] == files[j + 1];
      assert !InTree(repo, files[1..], key);
      WholePlan(mid, repo, files[1..]);
      RunTouchesOnlyItsTree(mid, repo, files[1..], |Plan(mid, repo, files[1..])|, key);
    } else {
      RunIndexesTree(mid, repo, files[1..], i - 1);
    }
  }

  /** Exactly which files have the right chunks after a completed run, from any tables whatever. */
  lemma {:induction false} ConsistentAfterRun(t: Tables, repo: string, files: seq<SourceFile>, file: FileKey)
    requires DistinctPaths(files)
    ensures ConsistentAt(Run(t, repo, files), file)
            <==> ConsistentAt(t, file) || WillReindex(t, repo, files, file)
    decreases files
  {
    if files != [] {
      var key, content, rest := FileKey(repo, files[0].path), files[0].content, files[1..];
      var mid := Exec(t, FilePlan(t, key, content));
      RunStep(t, repo, files);
      ConsistentAfterRun(mid, repo, rest, file);
      assert forall j | 0 <= j < |rest| :: rest[j] == files[j + 1];
      if file == key {
        assert !WillReindex(mid, repo, rest, file);
        AfterFile(t, key, content);
        if Stale(t, key, Sha256(content)) {
          ReindexMakesConsistent(t, key, content);
        }
      } else {
        FilePlanFrame(t, key, content, file);
        SameWillReindex(t, mid, repo, files, file);
      }
    }
  }

  lemma {:induction false} SameWillReindex(t: Tables, u: Tables, repo: string, files: seq<SourceFile>, file: FileKey)
    requires files != [] && SameAt(t, u, file) && file != FileKey(repo, files[0].path)
    ensures WillReindex(t, repo, files, file) <==> WillReindex(u, repo, files[1..], file)
    ensures ConsistentAt(t, file) <==> ConsistentAt(u, file)
  {
    if WillReindex(t, repo, files, file) {
      var i :| 0 <= i < |files| && file == FileKey(repo, files[i].path)
               && Stale(t, file, Sha256(files[i].content));
      assert files[1..][i - 1] == files[i];
    }
    if WillReindex(u, repo, files[1..], file) {
      var i :| 0 <= i < |files[1..]| && file == FileKey(repo, files[1..][i].path)
               && Stale(u, file, Sha256(files[1..][i].content));
      assert files[1..][i] == files[i + 1];
    }
  }

  /** From consistent tables, a completed run leaves consistent tables with the tree's current contents. */
  lemma {:induction false} RunKeepsConsistent(t: Tables, repo: string, files: seq<SourceFile>)
    requires DistinctPaths(files) && Consistent(t)
    ensures var u := Run(t, repo, files);
            && Consistent(u)
            && (forall i | 0 <= i < |files| ::
                  var key := FileKey(repo, files[i].path);
                  RowsOf(u, key) == Rows(key, ChunksOf(files[i].content)))
  {
    var u := Run(t, repo, files);
    forall file: FileKey
      ensures ConsistentAt(u, file)
    {
      ConsistentAfterRun(t, repo, files, file);
    }
    forall i | 0 <= i < |files|
      ensures var key := FileKey(repo, files[i].path);
              RowsOf(u, key) == Rows(key, ChunksOf(files[i].content))
    {
      RunIndexesTree(t, repo, files, i);
      assert ConsistentAt(u, FileKey(repo, files[i].path));
    }
  }

  lemma {:induction false} NothingToDo(t: Tables, repo: string, files: seq<SourceFile>)
    requires forall i | 0 <= i < |files| ::
               !Stale(t, FileKey(repo, files[i].path), Sha256(files[i].content))
    ensures Plan(t, repo, files) == []
    decreases files
  {
    if files != [] {
      assert forall i | 0 <= i < |files[1..]| :: files[1..][i] == files[i + 1];
      NothingToDo(t, repo, files[1..]);
    }
  }

  /** Running again at once executes no statement at all, so nothing is embedded. */
  lemma {:induction false} RerunDoesNothing(t: Tables, repo: string, files: seq<SourceFile>)
    requires DistinctPaths(files)
    ensures Plan(Run(t, repo, files), repo, files) == []
  {
    forall i | 0 <= i < |files|
      ensures !Stale(Run(t, repo, files), FileKey(repo, files[i].path), Sha256(files[i].content))
    {
      RunIndexesTree(t, repo, files, i);
    }
    NothingToDo(Run(t, repo, files), repo, files);
  }

  // ---------- A different tree after an interruption ----------

  /** An interrupted run leaves at most one file, the one it was working on, inconsistent. */
  lemma {:induction false} AtMostOneVictim(t: Tables, repo: string, files: seq<SourceFile>, n: nat)
    returns (victim: FileKey)
    requires DistinctPaths(files) && n <= |Plan(t, repo, files)| && Consistent(t)
    ensures forall file | file != victim :: ConsistentAt(Interrupted(t, repo, files, n), file)
    decreases files
  {
    hide ChunksOf, Reindex, ConsistentAt;
    victim := FileKey(repo, "");
    if files != [] {
      var key, content := FileKey(repo, files[0].path), files[0].content;
      var first := FilePlan(t, key, content);
      PlanPrefix(t, repo, files, n);
      if n < |first| {
        victim := key;
        OthersStayConsistent(t, key, content, n);
      } else {
        OneFileKeepsConsistent(t, key, content);
        victim := AtMostOneVictim(Exec(t, first), repo, files[1..], n - |first|);
      }
    }
  }

  lemma {:induction false} OthersStayConsistent(t: Tables, key: FileKey, content: string, n: nat)
    requires Consistent(t) && n <= |FilePlan(t, key, content)|
    ensures forall file | file != key :: ConsistentAt(Exec(t, FilePlan(t, key, content)[..n]), file)
  {
    var part := FilePlan(t, key, content)[..n];
    forall file | file != key
      ensures ConsistentAt(Exec(t, part), file)
    {
      assert forall i | 0 <= i < n :: part[i].file == key;
      ExecFrame(t, part, file);
      assert ConsistentAt(t, file);
    }
  }

  lemma {:induction false} OneFileKeepsConsistent(t: Tables, key: FileKey, content: string)
    requires Consistent(t)
    ensures Consistent(Exec(t, FilePlan(t, key, content)))
  {
    var u := Exec(t, FilePlan(t, key, content));
    forall file: FileKey
      ensures ConsistentAt(u, file)
    {
      assert ConsistentAt(t, file);
      if file != key {
        FilePlanFrame(t, key, content, file);
      } else if Stale(t, key, Sha256(content)) {
        ReindexMakesConsistent(t, key, content);
      }
    }
  }

  /**
   * Whether a run over another tree repairs the tables: if and only if each damaged file is in that
   * tree with a content that differs from the indexed one.
   */
  lemma {:induction false} RepairedExactlyWhenReindexed(s: Tables, repo: string, files: seq<SourceFile>)
    requires DistinctPaths(files)
    ensures Consistent(Run(s, repo, files))
            <==> forall file: FileKey :: ConsistentAt(s, file) || WillReindex(s, repo, files, file)
  {
    forall file: FileKey
      ensures ConsistentAt(Run(s, repo, files), file)
              <==> ConsistentAt(s, file) || WillReindex(s, repo, files, file)
    {
      ConsistentAfterRun(s, repo, files, file);
    }
  }

  /** A file that reverts after an interrupted run is skipped with its chunks missing. */
  lemma {:induction false} RevertedFileIsLost(repo: string, path: string, was: string, edited: string)
    requires was != edited
    ensures var key := FileKey(repo, path);
            var t := Run(Tables(map[], map[]), repo, [SourceFile(path, was)]);
            && Consistent(t)
            && |Plan(t, repo, [SourceFile(path, edited)])| > 1
            && var u := Run(Interrupted(t, repo, [SourceFile(path, edited)], 1), repo, [SourceFile(path, was)]);
               u.index == map[key := Sha256(was)] && RowsOf(u, key) == map[] && !ConsistentAt(u, key)
  {
    var key := FileKey(repo, path);
    var before, after := [SourceFile(path, was)], [SourceFile(path, edited)];
    var empty := Tables(map[], map[]);
    forall file: FileKey
      ensures ConsistentAt(empty, file)
    {
      assert RowsOf(empty, file) == map[];
    }
    RunKeepsConsistent(empty, repo, before);
    RunStep(empty, repo, before);
    AfterFile(empty, key, was);
    var t := Run(empty, repo, before);
    assert t.index == map[key := Sha256(was)];
    PlanPrefix(t, repo, after, 1);
    AfterReindex(t, key, edited, 1);
    var s := Interrupted(t, repo, after, 1);
    assert s == Tables(t.index, Without(t.chunks, key) + map[]);
    NothingToDo(s, repo, before);
    assert RowsOf(s, key) == map[];
    ChunkingIsLossless(was);
    RowsNonEmpty(key, ChunksOf(was));
  }

  lemma {:induction false} RowsNonEmpty(file: FileKey, chunks: seq<Chunk>)
    requires chunks != []
    ensures Rows(file, chunks) != map[]
  {
    assert ChunkKey(file, chunks[|chunks| - 1].index) in Rows(file, chunks);
  }

  /** When a run over another tree makes up for an interrupted one: a question about one file only. */
  lemma {:induction false} RecoveryOnAnotherTree(t: Tables, repo: string, files: seq<SourceFile>, n: nat,
                                                 next: seq<SourceFile>)
    returns (victim: FileKey)
    requires DistinctPaths(files) && DistinctPaths(next) && Consistent(t)
    requires n <= |Plan(t, repo, files)|
    ensures forall file | file != victim :: ConsistentAt(Interrupted(t, repo, files, n), file)
    ensures var s := Interrupted(t, repo, files, n);
            Consistent(Run(s, repo, next)) <==> ConsistentAt(s, victim) || WillReindex(s, repo, next, victim)
  {
    hide ConsistentAt, Interrupted, Run;
    victim := AtMostOneVictim(t, repo, files, n);
    RepairedExactlyWhenReindexed(Interrupted(t, repo, files, n), repo, next);
  }

  // ---------- The ingest run ----------

  datatype Stats = Stats(
    filesTotal: nat,
    filesChanged: nat,
    filesSkipped: nat,
    chunksEmbedded: nat,
    chunksUpserted: nat
  )

  /** How many statements of a plan are upserts, and how many index updates. */
  datatype Counts = Counts(upserts: nat, updates: nat)

  function Count(statements: seq<Statement>): Counts {
    if statements == [] then Counts(0, 0)
    else
      var rest := Count(statements[1..]);
      match statements[0]
      case DeleteStaleChunks(_) => rest
      case UpsertChunk(_, _) => rest.(upserts := rest.upserts + 1)
      case UpdateFileIndex(_, _) => rest.(updates := rest.updates + 1)
  }

  lemma {:induction false} CountConcat(a: seq<Statement>, b: seq<Statement>)
    ensures Count(a + b).upserts == Count(a).upserts + Count(b).upserts
    ensures Count(a + b).updates == Count(a).updates + Count(b).updates
  {
    if a == [] {
      assert a + b == b;
    } else {
      assert (a + b)[1..] == a[1..] + b;
      CountConcat(a[1..], b);
    }
  }

  lemma {:induction false} ExecSnoc(t: Tables, log: seq<Statement>, s: Statement)
    ensures Exec(t, log + [s]) == Apply(Exec(t, log), s)
  {
    ExecConcat(t, log, [s]);
    assert Exec(Exec(t, log), [s]) == Exec(Apply(Exec(t, log), s), []);
  }

  /** How far a run has come: the statements done and those still to do make up its plan. */
  ghost predicate Progress(start: Tables, repo: string, files: seq<SourceFile>,
                           done: seq<Statement>, now: Tables, left: seq<SourceFile>)
  {
    && now == Exec(start, done)
    && done + Plan(now, repo, left) == Plan(start, repo, files)
  }

  lemma {:induction false} OneMoreFile(start: Tables, repo: string, files: seq<SourceFile>,
                    done: seq<Statement>, now: Tables, left: seq<SourceFile>, plan: seq<Statement>)
    requires Progress(start, repo, files, done, now, left) && left != []
    requires plan == FilePlan(now, FileKey(repo, left[0].path), left[0].content)
    ensures Progress(start, repo, files, done + plan, Exec(now, plan), left[1..])
    ensures Count(done + plan).upserts == Count(done).upserts + Count(plan).upserts
    ensures Count(done + plan).updates == Count(done).updates + Count(plan).updates
  {
    hide FilePlan;
    ExecConcat(start, done, plan);
    CountConcat(done, plan);
    var rest := Plan(Exec(now, plan), repo, left[1..]);
    assert done + (plan + rest) == (done + plan) + rest;
  }

  /** The two tables, with one method per SQL statement. */
  class Store {
    var index: map<FileKey, Digest>
    var chunks: ChunkTable
    /** Every statement executed so far. */
    ghost var log: seq<Statement>

    ghost function View(): Tables
      reads this
    {
      Tables(index, chunks)
    }

    constructor ()
      ensures View() == Tables(map[], map[]) && log == []
    {
      index, chunks, log := map[], map[], [];
    }

    method IsFileChanged(file: FileKey, current: Digest) returns (changed: bool)
      ensures changed == Stale(View(), file, current)
    {
      var stored := if file in index then Some(index[file]) else None;
      changed := stored != Some(current);
    }

    method DeleteStaleChunks(file: FileKey)
      modifies this
      ensures View() == Apply(old(View()), Statement.DeleteStaleChunks(file))
      ensures log == old(log) + [Statement.DeleteStaleChunks(file)]
    {
      chunks := map k | k in chunks && k.file != file :: chunks[k];
      log := log + [Statement.DeleteStaleChunks(file)];
    }

    method UpsertChunk(file: FileKey, chunk: Chunk)
      modifies this
      ensures View() == Apply(old(View()), Statement.UpsertChunk(file, chunk))
      ensures log == old(log) + [Statement.UpsertChunk(file, chunk)]
    {
      chunks := chunks[ChunkKey(file, chunk.index) := chunk.text];
      log := log + [Statement.UpsertChunk(file, chunk)];
    }

    method UpdateFileIndex(file: FileKey, digest: Digest)
      modifies this
      ensures View() == Apply(old(View()), Statement.UpdateFileIndex(file, digest))
      ensures log == old(log) + [Statement.UpdateFileIndex(file, digest)]
    {
      index := index[file := digest];
      log := log + [Statement.UpdateFileIndex(file, digest)];
    }

    /** The body of the per-file loop for a file that changed. */
    method ReindexFile(file: FileKey, content: string) returns (embedded: nat)
      modifies this
      ensures log == old(log) + Reindex(file, content)
      ensures View() == Exec(old(View()), Reindex(file, content))
      ensures Count(Reindex(file, content)) == Counts(embedded, 1)
    {
      hide ChunksOf;
      DeleteStaleChunks(file);
      var pieces := ChunkFile(content);
      embedded := |pieces|;
      ghost var done := [Statement.DeleteStaleChunks(file)];
      assert Exec(old(View()), done) == Exec(Apply(old(View()), done[0]), []);
      for i := 0 to |pieces|
        invariant done == [Statement.DeleteStaleChunks(file)] + Upserts(file, pieces)[..i]
        invariant log == old(log) + done
        invariant View() == Exec(old(View()), done)
      {
        ExecSnoc(old(View()), done, Statement.UpsertChunk(file, pieces[i]));
        UpsertChunk(file, pieces[i]);
        done := done + [Statement.UpsertChunk(file, pieces[i])];
      }
      assert Upserts(file, pieces)[..|pieces|] == Upserts(file, pieces);
      ExecSnoc(old(View()), done, Statement.UpdateFileIndex(file, Sha256(content)));
      UpdateFileIndex(file, Sha256(content));
      ReindexUpserts(file, content);
    }

    /** One ingest run; it executes exactly the statements of `Plan`. */
    method IngestRepo(repo: string, files: seq<SourceFile>) returns (stats: Stats)
      modifies this
      ensures View() == Run(old(View()), repo, files)
      ensures log == old(log) + Plan(old(View()), repo, files)
      ensures stats.filesTotal == |files| == stats.filesChanged + stats.filesSkipped
      ensures Count(Plan(old(View()), repo, files)) == Counts(stats.chunksUpserted, stats.filesChanged)
      ensures stats.chunksEmbedded == stats.chunksUpserted
    {
      hide Reindex, ChunksOf;
      var changed, skipped, embedded, upserted := 0, 0, 0, 0;
      ghost var start, done: seq<Statement> := View(), [];
      for i := 0 to |files|
        invariant log == old(log) + done
        invariant Progress(start, repo, files, done, View(), files[i..])
        invariant changed + skipped == i
        invariant Count(done) == Counts(upserted, changed) && embedded == upserted
      {
        var file, content := FileKey(repo, files[i].path), files[i].content;
        ghost var now := View();
        ghost var plan := FilePlan(now, file, content);
        assert files[i..][0] == files[i] && files[i..][1..] == files[i + 1..];
        OneMoreFile(start, repo, files, done, now, files[i..], plan);
        done := done + plan;
        var isChanged := IsFileChanged(file, Sha256(content));
        if !isChanged {
          skipped := skipped + 1;
        } else {
          changed := changed + 1;
          var n := ReindexFile(file, content);
          embedded := embedded + n;
          upserted := upserted + n;
        }
      }
      assert done + Plan(View(), repo, []) == done;
      stats := Stats(|files|, changed, skipped, embedded, upserted);
    }
  }

  lemma {:induction false} ReindexUpserts(file: FileKey, content: string)
    ensures Count(Reindex(file, content)) == Counts(|ChunksOf(content)|, 1)
  {
    hide ChunksOf;
    var delete, upserts := [DeleteStaleChunks(file)], Upserts(file, ChunksOf(content));
    var update := [UpdateFileIndex(file, Sha256(content))];
    AllUpserts(file, ChunksOf(content));
    CountConcat(delete, upserts);
    CountConcat(delete + upserts, update);
    assert Count(delete) == Count(delete[1..]) && Count(update) == Counts(0, 1);
  }

  lemma {:induction false} AllUpserts(file: FileKey, chunks: seq<Chunk>)
    ensures Count(Upserts(file, chunks)) == Counts(|chunks|, 0)
  {
    if chunks != [] {
      assert Upserts(file, chunks)[1..] == Upserts(file, chunks[1..]);
      AllUpserts(file, chunks[1..]);
    }
  }
}
