/**
 * Span tracing: `emit_span` blocks nest, may be left by an exception, and log a start and an end;
 * the parent links alone rebuild the tree of spans, even from the interleaved logs of several contexts.
 */
module Tracing {
  import opened Common

  /** A fresh id: ids of different contexts never meet. */
  datatype SpanId = SpanId(context: nat, serial: nat)

  /** A row of `agent_events`; only a start carries a parent. */
  datatype Event =
    | Start(id: SpanId, parent: Option<SpanId>)
    | End(id: SpanId)
    | Other(id: SpanId)

  /** What the traced code does; `caught` says that an exception leaving the block is handled there. */
  datatype Action =
    | Call
    | Throw
    | Block(body: seq<Action>, caught: bool)

  /** What has been executed: calls, and blocks with what ran inside them. */
  datatype Tree = Leaf | Span(kids: seq<Tree>)

  datatype Outcome = Outcome(forest: seq<Tree>, raised: bool)

  function Execute(actions: seq<Action>): Outcome
    decreases actions, 1
  {
    if actions == [] then Outcome([], false)
    else
      var first := ExecuteOne(actions[0]);
      if first.raised then first
      else
        var rest := Execute(actions[1..]);
        Outcome(first.forest + rest.forest, rest.raised)
  }

  function ExecuteOne(action: Action): Outcome
    decreases action, 0
  {
    match action
    case Call => Outcome([Leaf], false)
    case Throw => Outcome([], true)
    case Block(body, caught) =>
      var inner := Execute(body);
      Outcome([Span(inner.forest)], inner.raised && !caught)
  }

  // ---------- How exceptions travel ----------

  /** Actions after an exception do not run, and without one they run after the others. */
  lemma {:induction false} ExecuteConcat(a: seq<Action>, b: seq<Action>)
    ensures Execute(a).raised ==> Execute(a + b) == Execute(a)
    ensures !Execute(a).raised ==>
              Execute(a + b) == Outcome(Execute(a).forest + Execute(b).forest, Execute(b).raised)
    decreases a
  {
    hide ExecuteOne;
    if a == [] {
      assert a + b == b && [] + Execute(b).forest == Execute(b).forest;
    } else {
      assert (a + b)[1..] == a[1..] + b;
      ExecuteConcat(a[1..], b);
      var first, mid, last := ExecuteOne(a[0]).forest, Execute(a[1..]).forest, Execute(b).forest;
      assert first + (mid + last) == (first + mid) + last;
    }
  }

  /**
   * Single actions: a call leaves a leaf and an exception nothing; a block leaves a span with whatever has run
   * inside, also when an exception leaves it, and lets the exception through unless it is caught.
   */
  lemma {:induction false} ExecuteSingle(body: seq<Action>, caught: bool)
    ensures Execute([]) == Outcome([], false)
    ensures Execute([Call]) == Outcome([Leaf], false)
    ensures Execute([Throw]) == Outcome([], true)
    ensures Execute([Block(body, caught)]) == Outcome([Span(Execute(body).forest)], Execute(body).raised && !caught)
  {
    assert [Call][1..] == [] && [Block(body, caught)][1..] == [];
  }

  /** An exception skips what follows it in its block, up to the block that catches it, and nothing else. */
  lemma {:induction false} CaughtExceptionSkipsTheRest(before: seq<Action>, skipped: seq<Action>, after: seq<Action>)
    requires !Execute(before).raised
    ensures Execute([Block(before + [Throw] + skipped, true)] + after)
            == Outcome([Span(Execute(before).forest)] + Execute(after).forest, Execute(after).raised)
  {
    hide Execute, ExecuteOne;
    var body := before + [Throw] + skipped;
    ExecuteSingle(body, true);
    ExecuteConcat(before, [Throw]);
    ExecuteConcat(before + [Throw], skipped);
    assert Execute(before).forest + [] == Execute(before).forest;
    ExecuteConcat([Block(body, true)], after);
  }

  // ---------- The log ----------

  /** Ids that a forest takes. */
  function Size(forest: seq<Tree>): nat
    decreases forest, 1
  {
    if forest == [] then 0 else SizeOne(forest[0]) + Size(forest[1..])
  }

  function SizeOne(tree: Tree): nat
    decreases tree, 0
  {
    match tree
    case Leaf => 1
    case Span(kids) => 1 + Size(kids)
  }

  /** The events of a forest executed under `parent`, with ids from serial `n` on. */
  function Log(forest: seq<Tree>, c: nat, n: nat, parent: Option<SpanId>): seq<Event>
    decreases forest, 1
  {
    if forest == [] then []
    else LogOne(forest[0], c, n, parent) + Log(forest[1..], c, n + SizeOne(forest[0]), parent)
  }

  function LogOne(tree: Tree, c: nat, n: nat, parent: Option<SpanId>): seq<Event>
    decreases tree, 0
  {
    var id := SpanId(c, n);
    match tree
    case Leaf => [Other(id)]
    case Span(kids) => [Start(id, parent)] + Log(kids, c, n + 1, Some(id)) + [End(id)]
  }

  lemma {:induction false} LogConcat(a: seq<Tree>, b: seq<Tree>, c: nat, n: nat, parent: Option<SpanId>)
    ensures Size(a + b) == Size(a) + Size(b)
    ensures Log(a + b, c, n, parent) == Log(a, c, n, parent) + Log(b, c, n + Size(a), parent)
    decreases a
  {
    if a == [] {
      assert a + b == b;
    } else {
      hide LogOne, SizeOne;
      assert (a + b)[1..] == a[1..] + b;
      LogConcat(a[1..], b, c, n + SizeOne(a[0]), parent);
    }
  }

  /** The serials that the events of a log take: those of spans and of other events, in their order. */
  function Taken(log: seq<Event>): seq<nat> {
    if log == [] then []
    else (if log[0].End? then [] else [log[0].id.serial]) + Taken(log[1..])
  }

  /** The serials from `n` on, `size` of them. */
  function From(n: nat, size: nat): seq<nat> {
    seq(size, i requires i >= 0 => n + i)
  }

  lemma {:induction false} TakenConcat(a: seq<Event>, b: seq<Event>)
    ensures Taken(a + b) == Taken(a) + Taken(b)
  {
    if a == [] {
      assert a + b == b;
    } else {
      assert (a + b)[1..] == a[1..] + b;
      TakenConcat(a[1..], b);
    }
  }

  lemma {:induction false} TakenOne(e: Event)
    ensures Taken([e]) == if e.End? then [] else [e.id.serial]
  {
    assert [e][1..] == [];
  }

  lemma {:induction false} FromConcat(n: nat, a: nat, b: nat)
    ensures From(n, a) + From(n + a, b) == From(n, a + b)
    ensures From(n, 1) == [n] && From(n, 0) == []
  {
  }

  /** Every span and every other event gets an id of its own: the serials are taken one after the other. */
  lemma {:induction false} IdsAreFresh(forest: seq<Tree>, c: nat, n: nat, parent: Option<SpanId>)
    ensures Taken(Log(forest, c, n, parent)) == From(n, Size(forest))
    decreases forest, 1
  {
    hide From;
    FromConcat(n, 0, 0);
    if forest != [] {
      hide LogOne, SizeOne, Taken;
      var size := SizeOne(forest[0]);
      FreshInTree(forest[0], c, n, parent);
      IdsAreFresh(forest[1..], c, n + size, parent);
      TakenConcat(LogOne(forest[0], c, n, parent), Log(forest[1..], c, n + size, parent));
      FromConcat(n, size, Size(forest[1..]));
    }
  }

  lemma {:induction false} BracketTakes(id: SpanId, parent: Option<SpanId>, inner: seq<Event>)
    ensures Taken([Start(id, parent)] + inner + [End(id)]) == [id.serial] + Taken(inner)
  {
    TakenOne(Start(id, parent));
    TakenOne(End(id));
    var start, end := [Start(id, parent)], [End(id)];
    hide Taken;
    TakenConcat(start, inner);
    TakenConcat(start + inner, end);
  }

  lemma {:induction false} FreshInTree(tree: Tree, c: nat, n: nat, parent: Option<SpanId>)
    ensures Taken(LogOne(tree, c, n, parent)) == From(n, SizeOne(tree))
    decreases tree, 0
  {
    hide Taken, From, Log, Size;
    var id := SpanId(c, n);
    match tree {
      case Leaf =>
        TakenOne(Other(id));
        FromConcat(n, 0, 0);
      case Span(kids) =>
        IdsAreFresh(kids, c, n + 1, Some(id));
        BracketTakes(id, parent, Log(kids, c, n + 1, Some(id)));
        FromConcat(n, 1, Size(kids));
    }
  }

  // ---------- Running traced code ----------

  function Top(stack: seq<SpanId>): Option<SpanId> {
    if stack == [] then None else Some(stack[|stack| - 1])
  }

  /** One execution context: its span stack, the log it appends to, and its supply of ids. */
  class Tracer {
    const context: nat
    var stack: seq<SpanId>
    var log: seq<Event>
    var next: nat

    /** A new context starts with a copy of the span stack of the one it is started in. */
    constructor (context: nat, inherited: seq<SpanId>)
      ensures this.context == context && stack == inherited && log == [] && next == 0
    {
      this.context := context;
      stack, log, next := inherited, [], 0;
    }

    method FreshId() returns (id: SpanId)
      modifies this`next
      ensures id == SpanId(context, old(next)) && next == old(next) + 1
    {
      id := SpanId(context, next);
      next := next + 1;
    }

    /** An event inside a span: a new id, and no parent. */
    method EmitEvent()
      modifies this`next, this`log
      ensures next == old(next) + 1
      ensures log == old(log) + LogOne(Leaf, context, old(next), Top(stack))
    {
      var id := FreshId();
      log := log + [Other(id)];
    }

    /** `emit_span` around a body: the stack is put back and the end is logged in any case. */
    method EmitSpan(body: seq<Action>) returns (raised: bool)
      modifies this
      ensures stack == old(stack)
      ensures raised == Execute(body).raised
      ensures next == old(next) + SizeOne(Span(Execute(body).forest))
      ensures log == old(log) + LogOne(Span(Execute(body).forest), context, old(next), Top(old(stack)))
      decreases body, 1
    {
      hide Log, LogOne, Size, SizeOne, Execute;
      SpanLog(Execute(body).forest, context, next, Top(stack), log);
      var parent := Top(stack);
      var sid := FreshId();
      var saved := stack;
      stack := stack + [sid];
      assert Top(stack) == Some(sid);
      log := log + [Start(sid, parent)];
      raised := RunBody(body);
      log := log + [End(sid)];
      stack := saved;
    }

    method RunOne(action: Action) returns (raised: bool)
      modifies this
      ensures stack == old(stack)
      ensures raised == ExecuteOne(action).raised
      ensures next == old(next) + Size(ExecuteOne(action).forest)
      ensures log == old(log) + Log(ExecuteOne(action).forest, context, old(next), Top(old(stack)))
      decreases action
    {
      LogSingle(ExecuteOne(action).forest, context, next, Top(stack));
      hide Log, Size, LogOne;
      match action {
        case Call =>
          EmitEvent();
          raised := false;
          assert SizeOne(Leaf) == 1;
        case Throw =>
          raised := true;
        case Block(body, caught) =>
          var escaped := EmitSpan(body);
          raised := escaped && !caught;
      }
    }

    method RunBody(actions: seq<Action>) returns (raised: bool)
      modifies this
      ensures stack == old(stack)
      ensures raised == Execute(actions).raised
      ensures next == old(next) + Size(Execute(actions).forest)
      ensures log == old(log) + Log(Execute(actions).forest, context, old(next), Top(old(stack)))
      decreases actions, 0
    {
      ghost var done: seq<Tree>, from, parent := [], next, Top(stack);
      LogSingle(done, context, next, Top(stack));
      ExecutedNone(actions);
      hide Log, Size, Execute, ExecuteOne, Executed, Top;
      for i := 0 to |actions|
        invariant stack == old(stack)
        invariant Executed(actions, i, done)
        invariant next == from + Size(done)
        invariant log == old(log) + Log(done, context, from, parent)
      {
        ghost var first := ExecuteOne(actions[i]).forest;
        ExecutedOne(actions, i, done);
        LogConcat(done, first, context, from, parent);
        raised := RunOne(actions[i]);
        done := done + first;
        if raised {
          return;
        }
      }
      ExecutedAll(actions, done);
      raised := false;
    }
  }

  /** The first `i` actions have run without raising and left `done`. */
  ghost predicate Executed(actions: seq<Action>, i: nat, done: seq<Tree>)
    requires i <= |actions|
  {
    var rest := Execute(actions[i..]);
    Execute(actions) == Outcome(done + rest.forest, rest.raised)
  }

  lemma {:induction false} ExecutedNone(actions: seq<Action>)
    ensures Executed(actions, 0, [])
  {
    assert actions[0..] == actions;
  }

  lemma {:induction false} ExecutedOne(actions: seq<Action>, i: nat, done: seq<Tree>)
    requires i < |actions| && Executed(actions, i, done)
    ensures var first := ExecuteOne(actions[i]);
            if first.raised then Execute(actions) == Outcome(done + first.forest, true)
            else Executed(actions, i + 1, done + first.forest)
  {
    hide ExecuteOne;
    var first := ExecuteOne(actions[i]);
    assert actions[i..][0] == actions[i] && actions[i..][1..] == actions[i + 1..];
    if !first.raised {
      var rest := Execute(actions[i + 1..]);
      assert done + (first.forest + rest.forest) == (done + first.forest) + rest.forest;
    }
  }

  lemma {:induction false} ExecutedAll(actions: seq<Action>, done: seq<Tree>)
    requires Executed(actions, |actions|, done)
    ensures Execute(actions) == Outcome(done, false)
  {
    assert done + [] == done;
  }

  lemma {:induction false} LogSingle(forest: seq<Tree>, c: nat, n: nat, parent: Option<SpanId>)
    ensures forest == [] ==> Log(forest, c, n, parent) == [] && Size(forest) == 0
    ensures |forest| == 1 ==> Log(forest, c, n, parent) == LogOne(forest[0], c, n, parent)
                              && Size(forest) == SizeOne(forest[0])
  {
    if |forest| == 1 {
      assert forest[1..] == [];
    }
  }

  /** What a span logs, behind what is logged already. */
  lemma {:induction false} SpanLog(kids: seq<Tree>, c: nat, n: nat, parent: Option<SpanId>, log: seq<Event>)
    ensures var id := SpanId(c, n);
            log + LogOne(Span(kids), c, n, parent)
            == log + [Start(id, parent)] + Log(kids, c, n + 1, Some(id)) + [End(id)]
    ensures SizeOne(Span(kids)) == 1 + Size(kids)
  {
    hide Log, Size;
  }

  // ---------- Brackets ----------

  /**
   * Reads a log against a stack of open spans: a start must name the innermost open span as its
   * parent, and an end must close the innermost one. `None` is a log that breaks the rules.
   */
  function Replay(log: seq<Event>, open: seq<SpanId>): Option<seq<SpanId>>
    decreases log
  {
    if log == [] then Some(open)
    else
      match log[0]
      case Start(id, parent) => if parent == Top(open) then Replay(log[1..], open + [id]) else None
      case End(id) => if Top(open) == Some(id) then Replay(log[1..], open[..|open| - 1]) else None
      case Other(_) => Replay(log[1..], open)
  }

  lemma {:induction false} ReplayConcat(a: seq<Event>, b: seq<Event>, open: seq<SpanId>)
    ensures Replay(a + b, open)
            == (match Replay(a, open) case Some(o) => Replay(b, o) case None => None)
    decreases a
  {
    if a == [] {
      assert a + b == b;
    } else {
      assert (a + b)[1..] == a[1..] + b;
      match a[0] {
        case Start(id, parent) => ReplayConcat(a[1..], b, open + [id]);
        case End(id) =>
          if Top(open) == Some(id) {
            ReplayConcat(a[1..], b, open[..|open| - 1]);
          }
        case Other(_) => ReplayConcat(a[1..], b, open);
      }
    }
  }

  /** The log of whatever was executed is well bracketed, and its parents are the enclosing spans. */
  lemma {:induction false} LogIsBracketed(forest: seq<Tree>, c: nat, n: nat, open: seq<SpanId>)
    ensures Replay(Log(forest, c, n, Top(open)), open) == Some(open)
    decreases forest, 1
  {
    if forest != [] {
      hide Replay, LogOne, SizeOne;
      TreeIsBracketed(forest[0], c, n, open);
      LogIsBracketed(forest[1..], c, n + SizeOne(forest[0]), open);
      ReplayConcat(LogOne(forest[0], c, n, Top(open)),
                   Log(forest[1..], c, n + SizeOne(forest[0]), Top(open)), open);
    } else {
      assert Replay([], open) == Some(open);
    }
  }

  lemma {:induction false} TreeIsBracketed(tree: Tree, c: nat, n: nat, open: seq<SpanId>)
    ensures Replay(LogOne(tree, c, n, Top(open)), open) == Some(open)
    decreases tree, 0
  {
    var id := SpanId(c, n);
    match tree {
      case Leaf =>
        assert Replay([Other(id)], open) == Replay([Other(id)][1..], open);
      case Span(kids) =>
        var inner := Log(kids, c, n + 1, Some(id));
        var inside := open + [id];
        LogIsBracketed(kids, c, n + 1, inside);
        assert inside[..|inside| - 1] == open;
        assert Replay([End(id)], inside) == Replay([End(id)][1..], open);
        ReplayConcat(inner, [End(id)], inside);
        var whole := [Start(id, Top(open))] + inner + [End(id)];
        assert whole[1..] == inner + [End(id)] && whole[0] == Start(id, Top(open));
    }
  }

  // ---------- Rebuilding the tree from parent links ----------

  /** A span with the spans inside it. */
  datatype Shape = Shape(id: SpanId, kids: seq<Shape>)

  /** The spans of a forest, with the ids that its log gives them. */
  function Shapes(forest: seq<Tree>, c: nat, n: nat): seq<Shape>
    decreases forest, 1
  {
    if forest == [] then []
    else ShapeOne(forest[0], c, n) + Shapes(forest[1..], c, n + SizeOne(forest[0]))
  }

  function ShapeOne(tree: Tree, c: nat, n: nat): seq<Shape>
    decreases tree, 0
  {
    match tree
    case Leaf => []
    case Span(kids) => [Shape(SpanId(c, n), Shapes(kids, c, n + 1))]
  }

  /** The spans that were started under `parent`, in the order of their starts. */
  function Children(log: seq<Event>, parent: Option<SpanId>): seq<SpanId> {
    if log == [] then []
    else (if log[0].Start? && log[0].parent == parent then [log[0].id] else []) + Children(log[1..], parent)
  }

  /** The tree below `parent` as the links tell it, down to `depth` levels. */
  function Rebuild(log: seq<Event>, parent: Option<SpanId>, depth: nat): seq<Shape>
    decreases depth
  {
    if depth == 0 then []
    else
      var kids := Children(log, parent);
      seq(|kids|, i requires 0 <= i < |kids| => Shape(kids[i], Rebuild(log, Some(kids[i]), depth - 1)))
  }

  function Height(shapes: seq<Shape>): nat
    decreases shapes
  {
    if shapes == [] then 0
    else
      var h, rest := 1 + Height(shapes[0].kids), Height(shapes[1..]);
      if h < rest then rest else h
  }

  lemma {:induction false} ChildrenConcat(a: seq<Event>, b: seq<Event>, parent: Option<SpanId>)
    ensures Children(a + b, parent) == Children(a, parent) + Children(b, parent)
  {
    if a == [] {
      assert a + b == b;
    } else {
      assert (a + b)[1..] == a[1..] + b;
      ChildrenConcat(a[1..], b, parent);
    }
  }

  /** No span in the log was started under a span of context `c` with a serial in `[low, high)`. */
  ghost predicate NoneUnder(log: seq<Event>, c: nat, low: nat, high: nat) {
    forall m: nat | low <= m < high :: Children(log, Some(SpanId(c, m))) == []
  }

  /** Inside a forest, parents are `parent` itself or ids that the forest took. */
  lemma {:induction false} LogParents(forest: seq<Tree>, c: nat, n: nat, parent: Option<SpanId>, m: nat)
    requires m < n || n + Size(forest) <= m
    requires parent != Some(SpanId(c, m))
    ensures Children(Log(forest, c, n, parent), Some(SpanId(c, m))) == []
    decreases forest, 1
  {
    if forest != [] {
      hide LogOne, SizeOne, Children;
      TreeParents(forest[0], c, n, parent, m);
      LogParents(forest[1..], c, n + SizeOne(forest[0]), parent, m);
      ChildrenConcat(LogOne(forest[0], c, n, parent),
                     Log(forest[1..], c, n + SizeOne(forest[0]), parent), Some(SpanId(c, m)));
    }
  }

  lemma {:induction false} TreeParents(tree: Tree, c: nat, n: nat, parent: Option<SpanId>, m: nat)
    requires m < n || n + SizeOne(tree) <= m
    requires parent != Some(SpanId(c, m))
    ensures Children(LogOne(tree, c, n, parent), Some(SpanId(c, m))) == []
    decreases tree, 0
  {
    var id, q := SpanId(c, n), Some(SpanId(c, m));
    match tree {
      case Leaf =>
        ChildrenOfOne(Other(id), q);
      case Span(kids) =>
        var inner := Log(kids, c, n + 1, Some(id));
        LogParents(kids, c, n + 1, Some(id), m);
        ChildrenOfSpan(id, parent, inner, q);
    }
  }

  lemma {:induction false} ChildrenOfOne(e: Event, q: Option<SpanId>)
    ensures Children([e], q) == if e.Start? && e.parent == q then [e.id] else []
  {
    assert [e][1..] == [];
  }

  lemma {:induction false} ChildrenOfSpan(id: SpanId, parent: Option<SpanId>, inner: seq<Event>, q: Option<SpanId>)
    ensures Children([Start(id, parent)] + inner + [End(id)], q)
            == (if parent == q then [id] else []) + Children(inner, q)
  {
    hide Children;
    ChildrenConcat([Start(id, parent)] + inner, [End(id)], q);
    ChildrenConcat([Start(id, parent)], inner, q);
    ChildrenOfOne(Start(id, parent), q);
    ChildrenOfOne(End(id), q);
  }

  function Ids(shapes: seq<Shape>): seq<SpanId> {
    Map((s: Shape) => s.id, shapes)
  }

  lemma {:induction false} Unfold(forest: seq<Tree>, c: nat, n: nat, parent: Option<SpanId>)
    requires forest != []
    ensures var size := SizeOne(forest[0]);
            && Size(forest) == size + Size(forest[1..])
            && Log(forest, c, n, parent) == LogOne(forest[0], c, n, parent) + Log(forest[1..], c, n + size, parent)
            && Shapes(forest, c, n) == ShapeOne(forest[0], c, n) + Shapes(forest[1..], c, n + size)
  {
    hide LogOne, SizeOne, ShapeOne;
  }

  lemma {:induction false} IdsConcat(a: seq<Shape>, b: seq<Shape>)
    ensures Ids(a + b) == Ids(a) + Ids(b)
  {
  }

  /** Directly under `parent` are exactly the outermost spans of the forest. */
  lemma {:induction false} TopChildren(forest: seq<Tree>, c: nat, n: nat, parent: Option<SpanId>)
    requires parent.Some? ==> parent.value.context != c || parent.value.serial < n
    ensures Children(Log(forest, c, n, parent), parent) == Ids(Shapes(forest, c, n))
    decreases forest
  {
    if forest != [] {
      hide LogOne, SizeOne, Children, ShapeOne;
      var size := SizeOne(forest[0]);
      TopChild(forest[0], c, n, parent);
      TopChildren(forest[1..], c, n + size, parent);
      Unfold(forest, c, n, parent);
      hide Log, Shapes, Ids;
      ChildrenConcat(LogOne(forest[0], c, n, parent), Log(forest[1..], c, n + size, parent), parent);
      IdsConcat(ShapeOne(forest[0], c, n), Shapes(forest[1..], c, n + size));
    }
  }

  lemma {:induction false} TopChild(tree: Tree, c: nat, n: nat, parent: Option<SpanId>)
    requires parent.Some? ==> parent.value.context != c || parent.value.serial < n
    ensures Children(LogOne(tree, c, n, parent), parent) == Ids(ShapeOne(tree, c, n))
  {
    var id := SpanId(c, n);
    match tree {
      case Leaf =>
        ChildrenOfOne(Other(id), parent);
      case Span(kids) =>
        var inner := Log(kids, c, n + 1, Some(id));
        ChildrenOfSpan(id, parent, inner, parent);
        OnlyOwnContext(kids, c, n + 1, Some(id), parent);
        assert Ids([Shape(id, Shapes(kids, c, n + 1))]) == [id];
    }
  }

  /** Nothing in a forest was started under an id from outside it, other than its own parent. */
  lemma {:induction false} OnlyOwnContext(forest: seq<Tree>, c: nat, n: nat, parent: Option<SpanId>,
                                          q: Option<SpanId>)
    requires q != parent && (q.Some? ==> q.value.context != c || q.value.serial < n)
    ensures Children(Log(forest, c, n, parent), q) == []
    decreases forest, 1
  {
    if forest != [] {
      hide LogOne, SizeOne, Children;
      OnlyOwnContextOne(forest[0], c, n, parent, q);
      OnlyOwnContext(forest[1..], c, n + SizeOne(forest[0]), parent, q);
      ChildrenConcat(LogOne(forest[0], c, n, parent), Log(forest[1..], c, n + SizeOne(forest[0]), parent), q);
    }
  }

  lemma {:induction false} OnlyOwnContextOne(tree: Tree, c: nat, n: nat, parent: Option<SpanId>, q: Option<SpanId>)
    requires q != parent && (q.Some? ==> q.value.context != c || q.value.serial < n)
    ensures Children(LogOne(tree, c, n, parent), q) == []
    decreases tree, 0
  {
    var id := SpanId(c, n);
    match tree {
      case Leaf => ChildrenOfOne(Other(id), q);
      case Span(kids) =>
        OnlyOwnContext(kids, c, n + 1, Some(id), q);
        ChildrenOfSpan(id, parent, Log(kids, c, n + 1, Some(id)), q);
    }
  }

  /**
   * A log `whole` knows a forest if it lists, under every span of the forest, exactly the spans
   * that the forest has there.
   */
  ghost predicate Knows(whole: seq<Event>, shapes: seq<Shape>)
    decreases shapes
  {
    forall i | 0 <= i < |shapes| ::
      Children(whole, Some(shapes[i].id)) == Ids(shapes[i].kids) && Knows(whole, shapes[i].kids)
  }

  lemma {:induction false} NothingToKnow(whole: seq<Event>, c: nat, n: nat)
    ensures Knows(whole, Shapes([], c, n))
  {
  }

  lemma {:induction false} Regroup<T>(a: seq<T>, b: seq<T>, c: seq<T>, d: seq<T>)
    ensures a + (b + c) + d == a + b + (c + d) == (a + b) + c + d
  {
  }

  /** The log of a forest, among events that start nothing under its ids, knows the forest. */
  lemma {:induction false} LogKnows(before: seq<Event>, forest: seq<Tree>, c: nat, n: nat,
                                    parent: Option<SpanId>, after: seq<Event>)
    requires parent.Some? ==> parent.value.context != c || parent.value.serial < n
    requires NoneUnder(before, c, n, n + Size(forest)) && NoneUnder(after, c, n, n + Size(forest))
    ensures Knows(before + Log(forest, c, n, parent) + after, Shapes(forest, c, n))
    decreases forest, 1
  {
    hide Log, Shapes, Size, LogOne, SizeOne, ShapeOne, NoneUnder, Knows, Children;
    if forest == [] {
      NothingToKnow(before + Log(forest, c, n, parent) + after, c, n);
    } else {
      Unfold(forest, c, n, parent);
      var first, size := LogOne(forest[0], c, n, parent), SizeOne(forest[0]);
      var rest := Log(forest[1..], c, n + size, parent);
      var whole := before + Log(forest, c, n, parent) + after;
      FirstStartsNothingLater(before, forest, c, n, parent, after);
      TreeKnows(before, forest[0], c, n, parent, rest + after);
      LogKnows(before + first, forest[1..], c, n + size, parent, after);
      Regroup(before, first, rest, after);
      KnowsConcat(whole, ShapeOne(forest[0], c, n), Shapes(forest[1..], c, n + size));
    }
  }

  lemma {:induction false} KnowsConcat(whole: seq<Event>, a: seq<Shape>, b: seq<Shape>)
    requires Knows(whole, a) && Knows(whole, b)
    ensures Knows(whole, a + b)
  {
  }

  lemma {:induction false} FirstStartsNothingLater(before: seq<Event>, forest: seq<Tree>, c: nat, n: nat,
                                                   parent: Option<SpanId>, after: seq<Event>)
    requires forest != [] && (parent.Some? ==> parent.value.context != c || parent.value.serial < n)
    requires NoneUnder(before, c, n, n + Size(forest)) && NoneUnder(after, c, n, n + Size(forest))
    ensures var size := SizeOne(forest[0]);
            && NoneUnder(before, c, n, n + size)
            && NoneUnder(Log(forest[1..], c, n + size, parent) + after, c, n, n + size)
            && NoneUnder(before + LogOne(forest[0], c, n, parent), c, n + size, n + size + Size(forest[1..]))
            && NoneUnder(after, c, n + size, n + size + Size(forest[1..]))
  {
    hide LogOne, SizeOne, Children;
    var size := SizeOne(forest[0]);
    var rest := Log(forest[1..], c, n + size, parent);
    assert Size(forest) == size + Size(forest[1..]);
    forall m: nat | n <= m < n + size
      ensures Children(rest + after, Some(SpanId(c, m))) == []
    {
      LogParents(forest[1..], c, n + size, parent, m);
      ChildrenConcat(rest, after, Some(SpanId(c, m)));
    }
    forall m: nat | n + size <= m < n + size + Size(forest[1..])
      ensures Children(before + LogOne(forest[0], c, n, parent), Some(SpanId(c, m))) == []
    {
      TreeParents(forest[0], c, n, parent, m);
      ChildrenConcat(before, LogOne(forest[0], c, n, parent), Some(SpanId(c, m)));
    }
  }

  /** Starting and ending a span adds nothing under ids other than its parent's. */
  lemma {:induction false} FramedBySpan(before: seq<Event>, id: SpanId, parent: Option<SpanId>, after: seq<Event>,
                                        c: nat, low: nat, high: nat)
    requires parent.Some? ==> parent.value.context != c || parent.value.serial < low
    requires NoneUnder(before, c, low, high) && NoneUnder(after, c, low, high)
    ensures NoneUnder(before + [Start(id, parent)], c, low, high)
    ensures NoneUnder([End(id)] + after, c, low, high)
  {
    forall m: nat | low <= m < high
      ensures Children(before + [Start(id, parent)], Some(SpanId(c, m))) == []
      ensures Children([End(id)] + after, Some(SpanId(c, m))) == []
    {
      var q := Some(SpanId(c, m));
      assert Children(before, q) == [] && Children(after, q) == [];
      ChildrenConcat(before, [Start(id, parent)], q);
      ChildrenConcat([End(id)], after, q);
      ChildrenOfOne(Start(id, parent), q);
      ChildrenOfOne(End(id), q);
    }
  }

  /** The children of a span, in a log where nothing else was started under it. */
  lemma {:induction false} SpanChildren(before: seq<Event>, inner: seq<Event>, after: seq<Event>, id: SpanId)
    requires Children(before, Some(id)) == [] && Children(after, Some(id)) == []
    ensures Children(before + inner + after, Some(id)) == Children(inner, Some(id))
  {
    hide Children;
    ChildrenConcat(before, inner, Some(id));
    ChildrenConcat(before + inner, after, Some(id));
  }

  lemma {:induction false} NarrowerNone(log: seq<Event>, c: nat, low: nat, high: nat)
    requires low < high && NoneUnder(log, c, low, high)
    ensures NoneUnder(log, c, low + 1, high) && Children(log, Some(SpanId(c, low))) == []
  {
    hide Children;
  }

  lemma {:induction false} SpanKnows(whole: seq<Event>, id: SpanId, kids: seq<Shape>)
    requires Children(whole, Some(id)) == Ids(kids) && Knows(whole, kids)
    ensures Knows(whole, [Shape(id, kids)])
  {
    hide Children, Ids;
  }

  lemma {:induction false} TreeKnows(before: seq<Event>, tree: Tree, c: nat, n: nat,
                                     parent: Option<SpanId>, after: seq<Event>)
    requires parent.Some? ==> parent.value.context != c || parent.value.serial < n
    requires NoneUnder(before, c, n, n + SizeOne(tree)) && NoneUnder(after, c, n, n + SizeOne(tree))
    ensures Knows(before + LogOne(tree, c, n, parent) + after, ShapeOne(tree, c, n))
    decreases tree, 0
  {
    hide Children, Log, Shapes, Knows, NoneUnder, Size, Ids;
    match tree {
      case Leaf =>
        NoShapesKnown(before + LogOne(tree, c, n, parent) + after);
      case Span(kids) =>
        var id, end := SpanId(c, n), n + 1 + Size(kids);
        var inner, shapes := Log(kids, c, n + 1, Some(id)), Shapes(kids, c, n + 1);
        var before', after' := before + [Start(id, parent)], [End(id)] + after;
        assert before + LogOne(tree, c, n, parent) + after == before' + inner + after';
        FramedBySpan(before, id, parent, after, c, n, end);
        NarrowerNone(before', c, n, end);
        NarrowerNone(after', c, n, end);
        LogKnows(before', kids, c, n + 1, Some(id), after');
        TopChildren(kids, c, n + 1, Some(id));
        SpanChildren(before', inner, after', id);
        SpanKnows(before' + inner + after', id, shapes);
    }
  }

  lemma {:induction false} NoShapesKnown(whole: seq<Event>)
    ensures Knows(whole, [])
  {
  }

  // ---------- Interleaved contexts ----------

  /** The events of one context, in their order. */
  function Of(log: seq<Event>, c: nat): seq<Event> {
    if log == [] then []
    else if log[0].id.context == c then [log[0]] + Of(log[1..], c)
    else Of(log[1..], c)
  }

  function IdsIn(ids: seq<SpanId>, c: nat): seq<SpanId> {
    if ids == [] then []
    else if ids[0].context == c then [ids[0]] + IdsIn(ids[1..], c)
    else IdsIn(ids[1..], c)
  }

  lemma {:induction false} IdsInConcat(a: seq<SpanId>, b: seq<SpanId>, c: nat)
    ensures IdsIn(a + b, c) == IdsIn(a, c) + IdsIn(b, c)
  {
    if a == [] {
      assert a + b == b;
    } else {
      assert (a + b)[1..] == a[1..] + b;
      IdsInConcat(a[1..], b, c);
    }
  }

  lemma {:induction false} IdsInOne(id: SpanId, c: nat)
    ensures IdsIn([id], c) == if id.context == c then [id] else []
  {
    assert [id][1..] == [];
  }

  /** Whatever is logged in between: the children of a span that context `c` has started are found in its own events. */
  lemma {:induction false} ChildrenOfContext(log: seq<Event>, q: Option<SpanId>, c: nat)
    ensures IdsIn(Children(log, q), c) == Children(Of(log, c), q)
  {
    if log != [] {
      var first, rest := log[0], log[1..];
      ChildrenOfContext(rest, q, c);
      assert log == [first] + rest;
      ChildrenConcat([first], rest, q);
      ChildrenConcat([first], Of(rest, c), q);
      ChildrenOfOne(first, q);
      hide Children;
      IdsInConcat(Children([first], q), Children(rest, q), c);
      IdsInOne(first.id, c);
    }
  }

  lemma {:induction false} HeightBound(shapes: seq<Shape>, i: nat)
    requires i < |shapes|
    ensures Height(shapes[i].kids) < Height(shapes)
  {
    if i > 0 {
      HeightBound(shapes[1..], i - 1);
    }
  }

  lemma {:induction false} RebuildUnfolds(log: seq<Event>, parent: Option<SpanId>, depth: nat)
    requires depth > 0
    ensures var kids, rebuilt := Children(log, parent), Rebuild(log, parent, depth);
            && |rebuilt| == |kids|
            && forall i | 0 <= i < |kids| ::
                 rebuilt[i] == Shape(kids[i], Rebuild(log, Some(kids[i]), depth - 1))
  {
    hide Children;
  }

  lemma {:induction false} KnowsAt(log: seq<Event>, shapes: seq<Shape>, i: nat)
    requires Knows(log, shapes) && i < |shapes|
    ensures Children(log, Some(shapes[i].id)) == Ids(shapes[i].kids) && Knows(log, shapes[i].kids)
    ensures |Ids(shapes)| == |shapes| && Ids(shapes)[i] == shapes[i].id
  {
    hide Children;
  }

  lemma {:induction false} HeightZero(log: seq<Event>, parent: Option<SpanId>, shapes: seq<Shape>)
    requires Height(shapes) == 0
    ensures shapes == [] && Rebuild(log, parent, 0) == []
  {
  }

  /** The spans of one context in a forest of several: those of other contexts are cut off, with all below them. */
  function Only(shapes: seq<Shape>, c: nat): seq<Shape>
    decreases shapes
  {
    if shapes == [] then []
    else if shapes[0].id.context == c then [Shape(shapes[0].id, Only(shapes[0].kids, c))] + Only(shapes[1..], c)
    else Only(shapes[1..], c)
  }

  /** Shapes with the same id have, within context `c`, the same kids. */
  ghost predicate KidsAgree(rebuilt: seq<Shape>, c: nat, expected: seq<Shape>) {
    forall i, j | 0 <= i < |rebuilt| && 0 <= j < |expected| && rebuilt[i].id == expected[j].id ::
      Only(rebuilt[i].kids, c) == expected[j].kids
  }

  lemma {:induction false} KidsAgreeLater(rebuilt: seq<Shape>, c: nat, expected: seq<Shape>)
    requires rebuilt != [] && KidsAgree(rebuilt, c, expected)
    ensures KidsAgree(rebuilt[1..], c, expected)
    ensures expected != [] ==> KidsAgree(rebuilt[1..], c, expected[1..])
    ensures expected != [] && rebuilt[0].id == expected[0].id ==>
              Shape(rebuilt[0].id, Only(rebuilt[0].kids, c)) == expected[0]
  {
    hide Only;
  }

  lemma {:induction false} IdsHead(shapes: seq<Shape>)
    ensures shapes == [] <==> Ids(shapes) == []
    ensures shapes != [] ==> Ids(shapes) == [shapes[0].id] + Ids(shapes[1..])
  {
  }

  lemma {:induction false} OnlyMatch(rebuilt: seq<Shape>, c: nat, expected: seq<Shape>)
    requires IdsIn(Ids(rebuilt), c) == Ids(expected) && KidsAgree(rebuilt, c, expected)
    ensures Only(rebuilt, c) == expected
    decreases |rebuilt|
  {
    hide Ids, KidsAgree;
    IdsHead(rebuilt);
    IdsHead(expected);
    if rebuilt != [] {
      KidsAgreeLater(rebuilt, c, expected);
      assert ([rebuilt[0].id] + Ids(rebuilt[1..]))[1..] == Ids(rebuilt[1..]);
      if rebuilt[0].id.context == c {
        assert ([expected[0].id] + Ids(expected[1..]))[1..] == Ids(expected[1..]);
        OnlyMatch(rebuilt[1..], c, expected[1..]);
        assert expected == [expected[0]] + expected[1..];
      } else {
        OnlyMatch(rebuilt[1..], c, expected);
      }
    }
  }

  lemma {:induction false} RebuiltIds(log: seq<Event>, q: Option<SpanId>, depth: nat)
    requires depth > 0
    ensures Ids(Rebuild(log, q, depth)) == Children(log, q)
  {
    RebuildUnfolds(log, q, depth);
    hide Rebuild, Children;
  }

  lemma {:induction false} RebuiltAt(log: seq<Event>, q: Option<SpanId>, depth: nat, i: nat)
    requires depth > 0 && i < |Rebuild(log, q, depth)|
    ensures var shape := Rebuild(log, q, depth)[i];
            shape.kids == Rebuild(log, Some(shape.id), depth - 1)
  {
    RebuildUnfolds(log, q, depth);
    hide Rebuild, Children;
  }

  /**
   * Following the links of the whole log, and then looking at one context only, gives the shapes back that
   * the context's own events know.
   */
  lemma {:induction false} RebuildOwn(log: seq<Event>, c: nat, q: Option<SpanId>, shapes: seq<Shape>, depth: nat)
    requires Knows(Of(log, c), shapes) && Children(Of(log, c), q) == Ids(shapes)
    requires Height(shapes) <= depth
    ensures Only(Rebuild(log, q, depth), c) == shapes
    decreases depth
  {
    hide Knows, Children, Height, Rebuild, Ids, Of, Only;
    if depth == 0 {
      HeightZero(log, q, shapes);
      NothingOnly(c);
    } else {
      var rebuilt := Rebuild(log, q, depth);
      RebuiltIds(log, q, depth);
      ChildrenOfContext(log, q, c);
      forall i, j | 0 <= i < |rebuilt| && 0 <= j < |shapes| && rebuilt[i].id == shapes[j].id
        ensures Only(rebuilt[i].kids, c) == shapes[j].kids
      {
        RebuiltAt(log, q, depth, i);
        HeightBound(shapes, j);
        KnowsAt(Of(log, c), shapes, j);
        RebuildOwn(log, c, Some(shapes[j].id), shapes[j].kids, depth - 1);
      }
      OnlyMatch(rebuilt, c, shapes);
    }
  }

  lemma {:induction false} NothingOnly(c: nat)
    ensures Only([], c) == []
  {
  }

  // ---------- How deep the log is ----------

  lemma {:induction false} OfIsShorter(log: seq<Event>, c: nat)
    ensures |Of(log, c)| <= |log|
  {
    if log != [] {
      OfIsShorter(log[1..], c);
    }
  }

  lemma {:induction false} HeightConcat(a: seq<Shape>, b: seq<Shape>)
    ensures Height(a + b) == if Height(a) < Height(b) then Height(b) else Height(a)
  {
    if a == [] {
      assert a + b == b;
    } else {
      assert (a + b)[1..] == a[1..] + b;
      HeightConcat(a[1..], b);
    }
  }

  /** Every level of a forest has logged something. */
  lemma {:induction false} HeightOfLog(forest: seq<Tree>, c: nat, n: nat, parent: Option<SpanId>)
    ensures Height(Shapes(forest, c, n)) <= |Log(forest, c, n, parent)|
    decreases forest, 1
  {
    if forest != [] {
      hide LogOne, SizeOne, ShapeOne, Height;
      HeightOfTree(forest[0], c, n, parent);
      HeightOfLog(forest[1..], c, n + SizeOne(forest[0]), parent);
      HeightConcat(ShapeOne(forest[0], c, n), Shapes(forest[1..], c, n + SizeOne(forest[0])));
    }
  }

  lemma {:induction false} HeightOfTree(tree: Tree, c: nat, n: nat, parent: Option<SpanId>)
    ensures Height(ShapeOne(tree, c, n)) <= |LogOne(tree, c, n, parent)|
    decreases tree, 0
  {
    match tree {
      case Leaf =>
      case Span(kids) =>
        var id := SpanId(c, n);
        HeightOfLog(kids, c, n + 1, Some(id));
        HeightOfOne(Shape(id, Shapes(kids, c, n + 1)));
    }
  }

  lemma {:induction false} HeightOfOne(shape: Shape)
    ensures Height([shape]) == 1 + Height(shape.kids)
  {
    assert [shape][1..] == [];
  }

  // ---------- Contexts that are copied from one another ----------

  /**
   * `log` interleaves the logs of any number of contexts. Context `c` has executed `forests(c)`, and when it
   * was copied the innermost open span was `origin(c)`: a span of another context, or none.
   */
  ghost predicate Interleaves(log: seq<Event>, forests: nat -> seq<Tree>, origin: nat -> Option<SpanId>) {
    forall c: nat ::
      && Of(log, c) == Log(forests(c), c, 0, origin(c))
      && (origin(c).Some? ==> origin(c).value.context != c)
  }

  /** What a context executed hangs in the whole log below the span it was copied in, and nowhere else outside. */
  lemma {:induction false} ForksHangWhereTheyStarted(log: seq<Event>, forests: nat -> seq<Tree>,
                                                     origin: nat -> Option<SpanId>, c: nat, q: Option<SpanId>)
    requires Interleaves(log, forests, origin)
    requires q.Some? ==> q.value.context != c
    ensures IdsIn(Children(log, q), c) == if q == origin(c) then Ids(Shapes(forests(c), c, 0)) else []
  {
    assert Of(log, c) == Log(forests(c), c, 0, origin(c));
    ChildrenOfContext(log, q, c);
    hide Children, Log, Shapes, Ids, Of;
    if q == origin(c) {
      TopChildren(forests(c), c, 0, origin(c));
    } else {
      OnlyOwnContext(forests(c), c, 0, origin(c), q);
    }
  }

  /**
   * From the interleaved log of any number of contexts, copied from one another or independent, the parent
   * links alone rebuild all that was executed: below the span that a context was copied in, or among the
   * roots, its part of the rebuilt forest is exactly the span trees of what it executed. The length of the
   * log is depth enough.
   */
  lemma {:induction false} LinksRebuildEveryTree(log: seq<Event>, forests: nat -> seq<Tree>,
                                                 origin: nat -> Option<SpanId>, c: nat)
    requires Interleaves(log, forests, origin)
    ensures Only(Rebuild(log, origin(c), |log|), c) == Shapes(forests(c), c, 0)
  {
    var forest, own, parent := forests(c), Of(log, c), origin(c);
    assert own == Log(forest, c, 0, parent) && (parent.Some? ==> parent.value.context != c);
    hide Interleaves, Log, Shapes, Knows, Children, Height, Rebuild, Ids, Only, Of;
    EmptyAround(own, c, Size(forest));
    LogKnows([], forest, c, 0, parent, []);
    TopChildren(forest, c, 0, parent);
    OfIsShorter(log, c);
    HeightOfLog(forest, c, 0, parent);
    RebuildOwn(log, c, parent, Shapes(forest, c, 0), |log|);
  }

  lemma {:induction false} EmptyAround(own: seq<Event>, c: nat, size: nat)
    ensures [] + own + [] == own
    ensures NoneUnder([], c, 0, size)
  {
  }

  /** Events that are not spans name no parent; only their place in the log tells where they belong. */
  lemma {:induction false} CallsAreInvisibleToLinks(forest: seq<Tree>, c: nat, n: nat, parent: Option<SpanId>)
    ensures Log([Leaf] + forest, c, n, parent) == [Other(SpanId(c, n))] + Log(forest, c, n + 1, parent)
    ensures Shapes([Leaf] + forest, c, n) == Shapes(forest, c, n + 1)
  {
    assert ([Leaf] + forest)[1..] == forest;
  }
}
