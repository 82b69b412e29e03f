/** `parse_tree_handler`: the handler of `parse_as_tree`, which turns the
    parse events into a lossless parse tree.

    The tree builder of `parse_tree.hpp` is not part of this model; it is
    modelled as a stack of open productions, each with the children built so
    far (`Builder`), with a marker being the depth of the production it was
    handed out for.  The validate handler, to which every event is also
    forwarded, is modelled only by the log of the events it receives. */
module ParseAsTree {
  import opened Wrappers
  import opened Events

  /** A parse-tree node: a production with its children, or a token leaf
      over `[begin, end)`. */
  datatype Node =
    | ProductionNode(prod: nat, children: seq<Node>)
    | TokenNode(kind: TokenKind, begin: nat, end: nat)

  /** The token leaves of a node, left to right. */
  function Leaves(n: Node): seq<Node>
    decreases n, 1
  {
    match n
    case TokenNode(_, _, _) => [n]
    case ProductionNode(_, children) => LeavesOf(children)
  }

  /** The token leaves of a sequence of siblings, left to right. */
  function LeavesOf(ns: seq<Node>): seq<Node>
    decreases ns, 0
  {
    if ns == [] then [] else Leaves(ns[0]) + LeavesOf(ns[1..])
  }

  lemma {:induction false} LeavesOfAppend(xs: seq<Node>, ys: seq<Node>)
    ensures LeavesOf(xs + ys) == LeavesOf(xs) + LeavesOf(ys)
    decreases |xs|
  {
    if xs != [] {
      assert (xs + ys)[1..] == xs[1..] + ys;
      LeavesOfAppend(xs[1..], ys);
    } else {
      assert xs + ys == ys;
    }
  }

  /** The leaves `ls` are tokens that cover `[a, b)` without gap or
      overlap: the first starts at `a`, each starts where the previous one
      ends, and the last ends at `b`. */
  predicate Covers(ls: seq<Node>, a: nat, b: nat)
    decreases |ls|
  {
    if ls == [] then a == b
    else ls[0].TokenNode? && ls[0].begin == a && a <= ls[0].end && Covers(ls[1..], ls[0].end, b)
  }

  /** A token that starts where covered leaves end extends the coverage to
      its own end. */
  lemma {:induction false} CoversAppend(ls: seq<Node>, a: nat, m: nat, kind: TokenKind, e: nat)
    requires Covers(ls, a, m) && m <= e
    ensures Covers(ls + [TokenNode(kind, m, e)], a, e)
    decreases |ls|
  {
    if ls == [] {
      assert ls + [TokenNode(kind, m, e)] == [TokenNode(kind, m, e)];
      assert Covers([TokenNode(kind, m, e)][1..], e, e);
    } else {
      assert (ls + [TokenNode(kind, m, e)])[1..] == ls[1..] + [TokenNode(kind, m, e)];
      CoversAppend(ls[1..], ls[0].end, m, kind, e);
    }
  }

  //=== the builder ===//

  /** An open production and the children it has so far. */
  datatype OpenNode = OpenNode(prod: nat, children: seq<Node>)

  /** The builder: the open productions, the root first. */
  datatype Builder = Builder(stack: seq<OpenNode>)

  /** The leaves of the open productions, in stack order. */
  function StackLeaves(stack: seq<OpenNode>): seq<Node>
    decreases |stack|
  {
    if stack == [] then [] else StackLeaves(stack[..|stack| - 1]) + LeavesOf(stack[|stack| - 1].children)
  }

  /** Every leaf the builder has received and not cancelled, in order. */
  function Frontier(b: Builder): seq<Node>
  {
    StackLeaves(b.stack)
  }

  /** `builder(tree, production)`: the root is open and has no children. */
  function NewBuilder(prod: nat): (b: Builder)
    ensures |b.stack| == 1 && b.stack[0].prod == prod && Frontier(b) == []
  {
    var b := Builder([OpenNode(prod, [])]);
    assert StackLeaves(b.stack[..0]) == [];
    b
  }

  /** `start_production(production)`: opens a child production; the marker
      is the depth of the production it opens.  No leaf changes. */
  function StartProduction(b: Builder, prod: nat): (r: (Builder, nat))
    requires |b.stack| >= 1
    ensures |r.0.stack| == |b.stack| + 1 && r.1 == |b.stack|
    ensures r.0.stack[..|b.stack|] == b.stack && r.0.stack[|b.stack|] == OpenNode(prod, [])
    ensures Frontier(r.0) == Frontier(b)
  {
    var stack := b.stack + [OpenNode(prod, [])];
    assert stack[..|stack| - 1] == b.stack;
    (Builder(stack), |b.stack|)
  }

  /** `finish_production(marker)`: closes the innermost production, which
      becomes the last child of its parent.  No leaf changes. */
  function FinishProduction(b: Builder, marker: nat): (r: Builder)
    requires |b.stack| >= 2 && marker == |b.stack| - 1
    ensures |r.stack| == |b.stack| - 1
    ensures r.stack[..marker - 1] == b.stack[..marker - 1]
    ensures r.stack[marker - 1] == OpenNode(b.stack[marker - 1].prod,
              b.stack[marker - 1].children + [ProductionNode(b.stack[marker].prod, b.stack[marker].children)])
    ensures Frontier(r) == Frontier(b)
  {
    var top, parent := b.stack[marker], b.stack[marker - 1];
    var prefix := b.stack[..marker - 1];
    var done := ProductionNode(top.prod, top.children);
    var parent' := OpenNode(parent.prod, parent.children + [done]);
    var r := Builder(prefix + [parent']);
    LeavesOfAppend(parent.children, [done]);
    assert LeavesOf([done]) == Leaves(done) + LeavesOf([]);
    assert (prefix + [parent'])[..marker - 1] == prefix;
    assert b.stack[..marker][..marker - 1] == prefix;
    assert b.stack[..|b.stack| - 1] == b.stack[..marker];
    assert Leaves(done) == LeavesOf(top.children);
    assert Frontier(r) == StackLeaves(prefix) + LeavesOf(parent.children) + LeavesOf(top.children);
    assert StackLeaves(b.stack[..marker]) == StackLeaves(prefix) + LeavesOf(parent.children);
    r
  }

  /** `cancel_production(marker)`: closes the innermost production and
      drops it with everything in it. */
  function CancelProduction(b: Builder, marker: nat): (r: Builder)
    requires |b.stack| >= 2 && marker == |b.stack| - 1
    ensures |r.stack| == |b.stack| - 1 && r.stack == b.stack[..marker]
    ensures Frontier(b) == Frontier(r) + LeavesOf(b.stack[marker].children)
  {
    Builder(b.stack[..marker])
  }

  /** `token(kind, begin, end)`: a leaf appended to the innermost open
      production; it becomes the last leaf. */
  function AddToken(b: Builder, kind: TokenKind, begin: nat, end: nat): (r: Builder)
    requires |b.stack| >= 1
    ensures |r.stack| == |b.stack| && r.stack[..|b.stack| - 1] == b.stack[..|b.stack| - 1]
    ensures Frontier(r) == Frontier(b) + [TokenNode(kind, begin, end)]
  {
    var n := |b.stack| - 1;
    var top := b.stack[n];
    var tok := TokenNode(kind, begin, end);
    var stack := b.stack[..n] + [OpenNode(top.prod, top.children + [tok])];
    LeavesOfAppend(top.children, [tok]);
    assert LeavesOf([tok]) == [tok] + LeavesOf([]);
    assert stack[..n] == b.stack[..n];
    Builder(stack)
  }

  /** `finish()`: the tree of the root production, which holds every leaf the
      builder received and did not cancel. */
  function FinishTree(b: Builder): (n: Node)
    requires |b.stack| == 1
    ensures n.ProductionNode? && n.prod == b.stack[0].prod
    ensures Leaves(n) == Frontier(b)
  {
    assert StackLeaves(b.stack[..0]) == [];
    ProductionNode(b.stack[0].prod, b.stack[0].children)
  }

  /** A nested cancel keeps the tree lossless: if the leaves before the
      cancelled production cover `[origin, begin)`, then after the cancel and
      the error token over `[begin, pos)` the leaves cover `[origin, pos)`,
      whatever the cancelled production held. */
  lemma CancelKeepsCovered(b: Builder, marker: nat, origin: nat, begin: nat, pos: nat)
    requires |b.stack| >= 2 && marker == |b.stack| - 1
    requires Covers(StackLeaves(b.stack[..marker]), origin, begin) && begin <= pos
    ensures Covers(Frontier(AddToken(CancelProduction(b, marker), ErrorKind, begin, pos)), origin, pos)
  {
    CoversAppend(StackLeaves(b.stack[..marker]), origin, begin, ErrorKind, pos);
  }

  /** A token that starts where the covered leaves end extends the covered
      range to its end. */
  lemma TokenKeepsCovered(b: Builder, origin: nat, reached: nat, kind: TokenKind, end: nat)
    requires |b.stack| >= 1 && Covers(Frontier(b), origin, reached) && reached <= end
    ensures Covers(Frontier(AddToken(b, kind, reached, end)), origin, end)
  {
    CoversAppend(Frontier(b), origin, reached, kind, end);
  }

  /** The open productions below the innermost one, and so the leaves
      before each of them, are what they were before a token was added. */
  lemma AddTokenKeepsPrefixes(b: Builder, kind: TokenKind, begin: nat, end: nat)
    requires |b.stack| >= 1
    ensures forall i :: 0 <= i < |b.stack| ==> AddToken(b, kind, begin, end).stack[..i] == b.stack[..i]
  {
    var r := AddToken(b, kind, begin, end);
    var n := |b.stack| - 1;
    forall i | 0 <= i < |b.stack|
      ensures r.stack[..i] == b.stack[..i]
    {
      assert r.stack[..i] == r.stack[..n][..i];
      assert b.stack[..i] == b.stack[..n][..i];
    }
  }

  /** Finishing the innermost production leaves the productions below its
      parent as they were. */
  lemma FinishKeepsPrefixes(b: Builder, marker: nat)
    requires |b.stack| >= 2 && marker == |b.stack| - 1
    ensures forall i :: 0 <= i < marker ==> FinishProduction(b, marker).stack[..i] == b.stack[..i]
  {
    var r := FinishProduction(b, marker);
    forall i | 0 <= i < marker
      ensures r.stack[..i] == b.stack[..i]
    {
      assert r.stack[..i] == r.stack[..marker - 1][..i];
      assert b.stack[..i] == b.stack[..marker - 1][..i];
    }
  }

  /** Cancelling the innermost production and adding the error token leaves
      the productions below its parent as they were. */
  lemma CancelKeepsPrefixes(b: Builder, marker: nat, begin: nat, pos: nat)
    requires |b.stack| >= 2 && marker == |b.stack| - 1
    ensures forall i :: 0 <= i < marker ==>
              AddToken(CancelProduction(b, marker), ErrorKind, begin, pos).stack[..i] == b.stack[..i]
  {
    var c := CancelProduction(b, marker);
    AddTokenKeepsPrefixes(c, ErrorKind, begin, pos);
    forall i | 0 <= i < marker
      ensures c.stack[..i] == b.stack[..i]
    {
      assert b.stack[..i] == b.stack[..marker][..i];
    }
  }

  /** Starting a production leaves every open production as it was. */
  lemma StartKeepsPrefixes(b: Builder, prod: nat)
    requires |b.stack| >= 1
    ensures forall i :: 0 <= i <= |b.stack| ==> StartProduction(b, prod).0.stack[..i] == b.stack[..i]
  {
    var r := StartProduction(b, prod).0;
    forall i | 0 <= i <= |b.stack|
      ensures r.stack[..i] == b.stack[..i]
    {
      assert r.stack[..i] == r.stack[..|b.stack|][..i];
    }
  }

  //=== the handler ===//

  /** `parse_tree_handler`: the depth of open productions, the builder
      (created lazily at the root), the caller's tree (`None` when empty) and
      the events forwarded to the validate handler. */
  class ParseTreeHandler {
    var depth: nat
    var builder: Option<Builder>
    var tree: Option<Node>
    var forwarded: seq<Event>
    /** Where the root production started, how far the leaves reach, and
        where each open production started. */
    ghost var origin: nat
    ghost var reached: nat
    ghost var begins: seq<nat>

    /** While a production is open, the builder exists and has one open
        production per level of depth. */
    ghost predicate Valid()
      reads this
    {
      depth > 0 ==> builder.Some? && |builder.value.stack| == depth && |begins| == depth
    }

    /** The tree is lossless so far: the leaves cover the input from the
        root's start to `reached`, and the leaves before each open
        production cover the input up to that production's start. */
    ghost predicate Lossless()
      reads this
      requires Valid()
    {
      depth > 0 ==>
        && Covers(Frontier(builder.value), origin, reached)
        && forall i :: 1 <= i < depth ==> Covers(StackLeaves(builder.value.stack[..i]), origin, begins[i])
    }

    /** `parse_tree_handler(tree, input, cb)`: depth 0, no builder yet. */
    constructor (tree: Option<Node>)
      ensures Valid() && depth == 0 && builder.None? && this.tree == tree && forwarded == []
    {
      depth := 0;
      begins := [];
      builder := None;
      this.tree := tree;
      forwarded := [];
    }
  }

  /** `event_handler<Production>`: the state kept for one production: the
      builder's marker and the position it started at (the validate
      handler's `production_begin()`). */
  class EventHandler {
    const prod: nat
    var marker: nat
    var begin: nat

    constructor (prod: nat)
      ensures this.prod == prod
    {
      this.prod := prod;
      marker := 0;
      begin := 0;
    }

    /** `on(handler, production_start, pos)`: at depth 0 the builder is
        created for the root and takes over the caller's tree, which is
        left empty; deeper, a child production is started and its marker
        kept.  The depth goes up by one. */
    method OnProductionStart(h: ParseTreeHandler, pos: nat)
      requires h.Valid()
      modifies this, h
      ensures h.Valid() && h.depth == old(h.depth) + 1
      ensures old(h.depth) == 0 ==> h.builder == Some(NewBuilder(prod)) && h.tree.None?
      ensures old(h.depth) > 0 ==>
                && (h.builder.value, marker) == StartProduction(old(h.builder.value), prod)
                && h.tree == old(h.tree)
      ensures begin == pos && h.begins[old(h.depth)] == pos
      ensures h.forwarded == old(h.forwarded) + [ProductionStart(prod, pos)]
      ensures old(h.depth) == 0 || (old(h.Lossless()) && pos == old(h.reached)) ==> h.Lossless()
    {
      if h.depth == 0 {
        h.builder := Some(NewBuilder(prod));
        h.tree := None;
        h.origin, h.reached, h.begins := pos, pos, [pos];
      } else {
        ghost var before := h.builder.value;
        var started := StartProduction(h.builder.value, prod);
        h.builder := Some(started.0);
        marker := started.1;
        h.begins := h.begins + [pos];
        StartKeepsPrefixes(before, prod);
      }
      h.depth := h.depth + 1;
      begin := pos;
      h.forwarded := h.forwarded + [ProductionStart(prod, pos)];
    }

    /** `on(handler, production_finish, pos)`: the depth goes down by one;
        at the root the finished tree is stored in the caller's tree (the
        builder is used up), deeper the production is finished with its
        marker. */
    method OnProductionFinish(h: ParseTreeHandler, pos: nat)
      requires h.Valid() && h.depth >= 1 && (h.depth >= 2 ==> marker == h.depth - 1)
      modifies h
      ensures h.Valid() && h.depth == old(h.depth) - 1
      ensures old(h.depth) == 1 ==> h.tree == Some(FinishTree(old(h.builder.value))) && h.builder.None?
      ensures old(h.depth) > 1 ==>
                h.builder == Some(FinishProduction(old(h.builder.value), marker)) && h.tree == old(h.tree)
      ensures h.forwarded == old(h.forwarded) + [ProductionFinish(prod, pos)]
      ensures old(h.Lossless()) ==> h.Lossless()
      ensures old(h.Lossless()) && old(h.depth) == 1 ==> Covers(Leaves(h.tree.value), h.origin, h.reached)
    {
      h.depth := h.depth - 1;
      if h.depth == 0 {
        h.tree := Some(FinishTree(h.builder.value));
        h.builder := None;
      } else {
        ghost var before := h.builder.value;
        var finished := FinishProduction(h.builder.value, marker);
        h.builder := Some(finished);
        h.begins := h.begins[..h.depth];
        FinishKeepsPrefixes(before, marker);
      }
      h.forwarded := h.forwarded + [ProductionFinish(prod, pos)];
    }

    /** `on(handler, production_cancel, pos)`: the depth goes down by one; at
        the root the caller's tree is cleared; deeper the production is
        cancelled and an error token over `[begin, pos)` is added to its
        parent instead, so that the input it consumed stays in the tree. */
    method OnProductionCancel(h: ParseTreeHandler, pos: nat)
      requires h.Valid() && h.depth >= 1 && (h.depth >= 2 ==> marker == h.depth - 1)
      modifies h
      ensures h.Valid() && h.depth == old(h.depth) - 1
      ensures old(h.depth) == 1 ==> h.tree.None? && h.builder == old(h.builder)
      ensures old(h.depth) > 1 ==>
                && h.builder == Some(AddToken(CancelProduction(old(h.builder.value), marker), ErrorKind, begin, pos))
                && h.tree == old(h.tree)
      ensures h.forwarded == old(h.forwarded) + [ProductionCancel(prod, pos)]
      ensures old(h.Lossless()) && (old(h.depth) > 1 ==> begin == old(h.begins[h.depth - 1]) <= pos)
              ==> h.Lossless()
    {
      h.depth := h.depth - 1;
      if h.depth == 0 {
        h.tree := None;
      } else {
        ghost var before := h.builder.value;
        var cancelled := CancelProduction(h.builder.value, marker);
        var after := AddToken(cancelled, ErrorKind, begin, pos);
        h.builder := Some(after);
        if old(h.Lossless()) && begin == h.begins[h.depth] <= pos {
          CancelKeepsCovered(before, marker, h.origin, begin, pos);
        }
        h.begins := h.begins[..h.depth];
        h.reached := pos;
        CancelKeepsPrefixes(before, marker, begin, pos);
      }
      h.forwarded := h.forwarded + [ProductionCancel(prod, pos)];
    }

    /** `on(handler, token, kind, begin, end)`: a leaf is added to the
        innermost open production. */
    method OnToken(h: ParseTreeHandler, kind: TokenKind, tokBegin: nat, tokEnd: nat)
      requires h.Valid() && h.depth >= 1
      modifies h
      ensures h.Valid() && h.depth == old(h.depth) && h.tree == old(h.tree)
      ensures h.builder == Some(AddToken(old(h.builder.value), kind, tokBegin, tokEnd))
      ensures h.forwarded == old(h.forwarded) + [TokenEvent(kind, tokBegin, tokEnd)]
      ensures old(h.Lossless()) && tokBegin == old(h.reached) <= tokEnd ==> h.Lossless() && h.reached == tokEnd
    {
      ghost var before := h.builder.value;
      var after := AddToken(h.builder.value, kind, tokBegin, tokEnd);
      h.builder := Some(after);
      if old(h.Lossless()) && tokBegin == h.reached <= tokEnd {
        TokenKeepsCovered(before, h.origin, h.reached, kind, tokEnd);
      }
      h.reached := tokEnd;
      AddTokenKeepsPrefixes(before, kind, tokBegin, tokEnd);
      h.forwarded := h.forwarded + [TokenEvent(kind, tokBegin, tokEnd)];
    }

    /** `on(handler, error, error)` and `on(handler, ev, args...)` for any
        other event: only forwarded; the tree is not touched. */
    method OnOther(h: ParseTreeHandler, ev: Event)
      requires ev.ErrorEvent? || ev.OtherEvent?
      modifies h
      ensures h.depth == old(h.depth) && h.builder == old(h.builder) && h.tree == old(h.tree)
      ensures h.origin == old(h.origin) && h.reached == old(h.reached) && h.begins == old(h.begins)
      ensures h.forwarded == old(h.forwarded) + [ev]
    {
      h.forwarded := h.forwarded + [ev];
    }
  }
}
