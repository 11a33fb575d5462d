/** The pipeline graph as the config and the runtime see it: producer -> consumers. */
module Graph {

  type Node = string
  type Edges = map<Node, seq<Node>>

  function Next(g: Edges, n: Node): seq<Node> {
    if n in g then g[n] else []
  }

  ghost predicate IsWalk(g: Edges, w: seq<Node>) {
    w != [] && forall i :: 0 <= i < |w| - 1 ==> w[i + 1] in Next(g, w[i])
  }

  /** A walk of at least one edge that ends where it starts. */
  ghost predicate IsClosedWalk(g: Edges, w: seq<Node>) {
    |w| >= 2 && IsWalk(g, w) && w[0] == w[|w| - 1]
  }

  /** A walk from one of `roots` whose last node it has already visited. */
  ghost predicate IsLasso(g: Edges, roots: seq<Node>, w: seq<Node>) {
    IsWalk(g, w) && w[0] in roots && w[|w| - 1] in w[..|w| - 1]
  }

  ghost predicate Cyclic(g: Edges) {
    exists w :: IsClosedWalk(g, w)
  }

  ghost predicate CyclicFrom(g: Edges, roots: seq<Node>) {
    exists w :: IsLasso(g, roots, w)
  }

  /** `n` is reached from `s` by at least one edge. */
  ghost predicate Reaches(g: Edges, s: Node, n: Node) {
    exists w :: IsWalk(g, w) && |w| >= 2 && w[0] == s && w[|w| - 1] == n
  }

  lemma WalkExtends(g: Edges, w: seq<Node>, n: Node)
    requires IsWalk(g, w) && n in Next(g, w[|w| - 1])
    ensures IsWalk(g, w + [n])
  {
  }

  /** Every edge target is a node of `u`. */
  ghost predicate Closed(g: Edges, u: set<Node>) {
    forall n, c :: n in g && c in g[n] ==> c in u
  }

  ghost function Targets(g: Edges): set<Node> {
    set n, i | n in g && 0 <= i < |g[n]| :: g[n][i]
  }
}

/** Three-colour depth-first cycle detection (`detect_cycle`). */
module CycleDetection {
  import opened Common
  import opened Graph

  datatype Color = White | Gray | Black

  function ColorOf(color: map<Node, Color>, n: Node): Color {
    if n in color then color[n] else White
  }

  ghost function Unvisited(color: map<Node, Color>, u: set<Node>): set<Node> {
    set n | n in u && ColorOf(color, n) == White
  }

  /** The stack is a walk of distinct nodes, exactly the gray ones. */
  ghost predicate StackOk(g: Edges, color: map<Node, Color>, stack: seq<Node>) {
    && (stack == [] || IsWalk(g, stack))
    && (forall i, j :: 0 <= i < j < |stack| ==> stack[i] != stack[j])
    && (forall n :: ColorOf(color, n) == Gray <==> n in stack)
  }

  lemma PushGray(g: Edges, color: map<Node, Color>, stack: seq<Node>, node: Node)
    requires StackOk(g, color, stack) && ColorOf(color, node) == White
    requires stack == [] || node in Next(g, stack[|stack| - 1])
    ensures StackOk(g, color[node := Gray], stack + [node])
  {
  }

  lemma PopBlack(g: Edges, color: map<Node, Color>, stack: seq<Node>)
    requires StackOk(g, color, stack) && stack != []
    ensures StackOk(g, color[stack[|stack| - 1] := Black], stack[..|stack| - 1])
    ensures ColorOf(color, stack[|stack| - 1]) == Gray
  {
    var node, rest := stack[|stack| - 1], stack[..|stack| - 1];
    assert stack == rest + [node];
    assert forall n :: n in stack <==> n in rest || n == node;
  }

  /** Edges out of a ranked node go to ranked nodes of smaller rank. */
  ghost predicate Ranked(g: Edges, rank: map<Node, nat>) {
    forall n, c :: n in rank && c in Next(g, n) ==> c in rank && rank[c] < rank[n]
  }

  lemma RankNext(g: Edges, rank: map<Node, nat>, node: Node)
    requires Ranked(g, rank) && node !in rank && forall c :: c in Next(g, node) ==> c in rank
    ensures Ranked(g, rank[node := Above(rank)])
  {
  }

  class Search {
    const g: Edges
    var color: map<Node, Color>
    var stack: seq<Node>
    /** Finishing number of every black node. */
    ghost var rank: map<Node, nat>

    constructor (g: Edges, nodes: seq<Node>)
      ensures this.g == g && stack == [] && rank == map[]
      ensures Valid()
      ensures forall n :: ColorOf(color, n) == White
    {
      this.g := g;
      this.color := map n | n in nodes :: White;
      this.stack := [];
      this.rank := map[];
    }

    ghost predicate Valid()
      reads this
    {
      && StackOk(g, color, stack)
      && (forall n :: ColorOf(color, n) == Black <==> n in rank)
      && Ranked(g, rank)
    }

    /** Paints `node` gray and pushes it. */
    method Enter(node: Node, ghost u: set<Node>)
      requires Valid() && ColorOf(color, node) == White && node in u
      requires stack == [] || node in Next(g, stack[|stack| - 1])
      modifies this`color, this`stack
      ensures Valid() && stack == old(stack) + [node]
      ensures Unvisited(color, u) < old(Unvisited(color, u))
    {
      hide Ranked, StackOk;
      PushGray(g, color, stack, node);
      color := color[node := Gray];
      stack := stack + [node];
      assert node in old(Unvisited(color, u)) && node !in Unvisited(color, u);
    }

    /** Pops the gray node on top of the stack and paints it black. */
    method Leave(node: Node, ghost u: set<Node>)
      requires Valid() && stack != [] && stack[|stack| - 1] == node
      requires forall c :: c in Next(g, node) ==> c in rank
      modifies this`color, this`stack, this`rank
      ensures Valid() && stack == old(stack[..|stack| - 1]) && ColorOf(color, node) == Black
      ensures rank.Keys == old(rank.Keys) + {node}
      ensures Unvisited(color, u) <= old(Unvisited(color, u))
    {
      hide Ranked, StackOk;
      PopBlack(g, color, stack);
      RankNext(g, rank, node);
      stack := stack[..|stack| - 1];
      color := color[node := Black];
      rank := rank[node := Above(rank)];
    }

    /** The cycle closed by an edge from the top of the stack back to the gray node `c`. */
    method CloseCycle(c: Node) returns (cycle: seq<Node>)
      requires Valid() && stack != [] && ColorOf(color, c) == Gray && c in Next(g, stack[|stack| - 1])
      ensures IsClosedWalk(g, cycle)
      ensures IsLasso(g, [stack[0]], stack + [c])
    {
      var from := Position(stack, c);
      WalkExtends(g, stack, c);
      assert (stack + [c])[..|stack|] == stack;
      cycle := stack[from..] + [c];
      assert cycle == (stack + [c])[from..];
    }

    /** Explores everything reachable from the white node `node`. */
    method Dfs(node: Node, ghost u: set<Node>) returns (r: Result<(), seq<Node>>)
      requires Valid() && ColorOf(color, node) == White && node in u && Closed(g, u)
      requires stack == [] || node in Next(g, stack[|stack| - 1])
      modifies this`color, this`stack, this`rank
      ensures r.Ok? ==> Valid() && stack == old(stack) && node in rank && old(rank.Keys) <= rank.Keys
      ensures r.Ok? ==> Unvisited(color, u) <= old(Unvisited(color, u))
      ensures r.Err? ==> IsClosedWalk(g, r.error)
      ensures r.Err? ==> CyclicFrom(g, [Root(old(stack), node)])
      decreases Unvisited(color, u), 1
    {
      hide Valid;
      Enter(node, u);
      ghost var path := stack;
      var next := Next(g, node);
      var i := 0;
      while i < |next|
        invariant 0 <= i <= |next|
        invariant Valid() && stack == path
        invariant forall j :: 0 <= j < i ==> next[j] in rank
        invariant old(rank.Keys) <= rank.Keys
        invariant Unvisited(color, u) < old(Unvisited(color, u))
      {
        r := Follow(next[i], u);
        if r.Err? {
          return;
        }
        i := i + 1;
      }
      Leave(node, u);
      r := Ok(());
    }

    /** Follows one edge out of the node on top of the stack. */
    method Follow(c: Node, ghost u: set<Node>) returns (r: Result<(), seq<Node>>)
      requires Valid() && stack != [] && c in Next(g, stack[|stack| - 1]) && Closed(g, u)
      modifies this`color, this`stack, this`rank
      ensures r.Ok? ==> Valid() && stack == old(stack) && c in rank && old(rank.Keys) <= rank.Keys
      ensures r.Ok? ==> Unvisited(color, u) <= old(Unvisited(color, u))
      ensures r.Err? ==> IsClosedWalk(g, r.error)
      ensures r.Err? ==> CyclicFrom(g, [old(stack)[0]])
      decreases Unvisited(color, u), 2
    {
      match ColorOf(color, c) {
        case Gray =>
          var cycle := CloseCycle(c);
          r := Err(cycle);
        case White =>
          r := Dfs(c, u);
        case Black =>
          r := Ok(());
      }
    }

    /** Visits every node of `nodes` that is still white. */
    method Run(nodes: seq<Node>, ghost u: set<Node>) returns (r: Result<(), seq<Node>>)
      requires Valid() && stack == [] && Closed(g, u) && forall n :: n in nodes ==> n in u
      modifies this`color, this`stack, this`rank
      ensures r.Ok? ==> Valid() && forall n :: n in nodes ==> n in rank
      ensures r.Err? ==> IsClosedWalk(g, r.error) && CyclicFrom(g, nodes)
    {
      var i := 0;
      while i < |nodes|
        invariant 0 <= i <= |nodes|
        invariant Valid() && stack == []
        invariant forall j :: 0 <= j < i ==> nodes[j] in rank
      {
        if ColorOf(color, nodes[i]) == White {
          var sub := Dfs(nodes[i], u);
          if sub.Err? {
            ghost var w :| IsLasso(g, [Root([], nodes[i])], w);
            assert w[0] == nodes[i];
            assert IsLasso(g, nodes, w);
            return Err(sub.error);
          }
        }
        i := i + 1;
      }
      r := Ok(());
    }
  }

  /** A number above every value of a finite map. */
  ghost function Above(rank: map<Node, nat>): (b: nat)
    ensures forall n :: n in rank ==> rank[n] < b
    decreases rank.Keys
  {
    if rank == map[] then 0 else
      var k :| k in rank;
      var rest := rank - {k};
      assert forall n :: n in rank ==> n == k || (n in rest && rest[n] == rank[n]);
      Max(rank[k] + 1, Above(rest))
  }

  /** The bottom of the stack once `node` is pushed. */
  ghost function Root(stack: seq<Node>, node: Node): Node {
    if stack == [] then node else stack[0]
  }

  method Position(s: seq<Node>, n: Node) returns (i: nat)
    requires n in s
    ensures i < |s| && s[i] == n && n !in s[..i]
  {
    i := 0;
    while s[i] != n
      invariant 0 <= i < |s| && n !in s[..i]
      invariant n in s[i..]
      decreases |s| - i
    {
      i := i + 1;
    }
  }

  /** Along a walk that starts at a ranked node the ranks fall strictly. */
  lemma {:induction false} RanksFall(g: Edges, rank: map<Node, nat>, w: seq<Node>, i: nat, j: nat)
    requires Ranked(g, rank)
    requires IsWalk(g, w) && w[0] in rank && i <= j < |w|
    ensures w[i] in rank && w[j] in rank && (i < j ==> rank[w[j]] < rank[w[i]])
    decreases j
  {
    if j > 0 {
      RanksFall(g, rank, w, 0, j - 1);
      if i < j {
        RanksFall(g, rank, w, i, j - 1);
      }
      assert w[j - 1 + 1] in Next(g, w[j - 1]);
    }
  }

  /** `detect_cycle` is exact: it succeeds iff no walk from the listed nodes revisits a node, and the
      node list it reports is a closed walk of the graph. */
  method DetectCycle(nodes: seq<Node>, g: Edges) returns (r: Result<(), seq<Node>>)
    ensures r.Ok? <==> !CyclicFrom(g, nodes)
    ensures r.Err? ==> IsClosedWalk(g, r.error)
  {
    var search := new Search(g, nodes);
    ghost var u := (set n | n in nodes) + Targets(g);
    r := search.Run(nodes, u);
    if r.Ok? && CyclicFrom(g, nodes) {
      ghost var w :| IsLasso(g, nodes, w);
      ghost var i :| 0 <= i < |w| - 1 && w[i] == w[|w| - 1];
      RanksFall(g, search.rank, w, i, |w| - 1);
    }
  }

  /** When every producer is listed, a lasso from the listed nodes exists iff the graph has a cycle. */
  lemma LassoIffCycle(g: Edges, nodes: seq<Node>)
    requires forall n :: n in g ==> n in nodes
    ensures CyclicFrom(g, nodes) <==> Cyclic(g)
  {
    if Cyclic(g) {
      var w :| IsClosedWalk(g, w);
      assert w[1] in Next(g, w[0]);
      assert IsLasso(g, nodes, w);
    }
    if CyclicFrom(g, nodes) {
      var w :| IsLasso(g, nodes, w);
      var i :| 0 <= i < |w| - 1 && w[i] == w[|w| - 1];
      assert IsClosedWalk(g, w[i..]);
    }
  }
}
