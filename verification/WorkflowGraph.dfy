/**
 * The dependency graph that a workflow's node wiring derives, and the load-time check that
 * refuses a cyclic one (app/internal/lang/workflow.go).
 */
module WorkflowGraph {
  import opened Wrappers

  /** A node with the ids it reads and the ids it blocks, whether or not those are declared. */
  datatype Node = Node(id: string, sources: seq<string>, blocks: seq<string>)

  // ---- the graph --------------------------------------------------------------------------

  predicate IsDeclared(nodes: seq<Node>, id: string) {
    exists n | 0 <= n < |nodes| :: nodes[n].id == id
  }

  ghost function Ids(nodes: seq<Node>): set<string> {
    set n | 0 <= n < |nodes| :: nodes[n].id
  }

  lemma {:induction false} DeclaredIsAnId(nodes: seq<Node>, id: string)
    ensures IsDeclared(nodes, id) <==> id in Ids(nodes)
  {
  }

  /** What node n alone declares: it depends on what it reads, and what it blocks depends on it. */
  ghost predicate Wires(node: Node, a: string, b: string) {
    (node.id == a && b in node.sources) || (node.id == b && a in node.blocks)
  }

  /** a depends on b: some node's wiring says so, and both are declared here. */
  ghost predicate DependsOn(nodes: seq<Node>, a: string, b: string) {
    a in Ids(nodes) && b in Ids(nodes) && exists n :: 0 <= n < |nodes| && Wires(nodes[n], a, b)
  }

  ghost predicate IsWalk(nodes: seq<Node>, walk: seq<string>) {
    forall k :: 0 <= k < |walk| - 1 ==> DependsOn(nodes, walk[k], walk[k + 1])
  }

  ghost predicate IsCycle(nodes: seq<Node>, walk: seq<string>) {
    |walk| > 1 && IsWalk(nodes, walk) && walk[0] == walk[|walk| - 1]
  }

  /** Every declared node comes after all it depends on. */
  ghost predicate Schedules(nodes: seq<Node>, order: seq<string>) {
    && (forall n :: 0 <= n < |nodes| ==> nodes[n].id in order)
    && (forall i, b :: 0 <= i < |order| && DependsOn(nodes, order[i], b) ==> b in order[..i])
  }

  /** No walk along an order ever returns: each step leads to a place strictly before. */
  lemma {:induction false} WalksDescend(nodes: seq<Node>, order: seq<string>, walk: seq<string>, i: nat)
    returns (j: nat)
    requires Schedules(nodes, order) && IsWalk(nodes, walk) && |walk| > 1
    requires i < |order| && order[i] == walk[0]
    ensures j < i && order[j] == walk[|walk| - 1]
    decreases |walk|
  {
    assert DependsOn(nodes, walk[0], walk[1]);
    var k :| 0 <= k < i && order[k] == walk[1];
    if |walk| == 2 {
      j := k;
    } else {
      assert IsWalk(nodes, walk[1..]) by {
        forall l | 0 <= l < |walk[1..]| - 1 ensures DependsOn(nodes, walk[1..][l], walk[1..][l + 1]) {
          assert DependsOn(nodes, walk[l + 1], walk[l + 2]);
        }
      }
      j := WalksDescend(nodes, order, walk[1..], k);
    }
  }

  lemma {:induction false} FirstPlace(order: seq<string>, id: string) returns (i: nat)
    requires id in order
    ensures i < |order| && order[i] == id && id !in order[..i]
  {
    i :| 0 <= i < |order| && order[i] == id;
    if id in order[..i] {
      i := FirstPlace(order[..i], id);
    }
  }

  /** A graph that can be scheduled has no cycle. */
  lemma {:induction false} ScheduledHasNoCycle(nodes: seq<Node>, order: seq<string>, walk: seq<string>)
    requires Schedules(nodes, order)
    ensures !IsCycle(nodes, walk)
  {
    if IsCycle(nodes, walk) {
      assert DependsOn(nodes, walk[0], walk[1]);
      var i := FirstPlace(order, walk[0]);
      var j := WalksDescend(nodes, order, walk, i);
    }
  }

  // ---- the search -------------------------------------------------------------------------

  /** A node not in the map has not been visited; a grey one is on the path being walked. */
  datatype Colour = Grey | Black

  ghost function Reversed(s: seq<string>): (r: seq<string>)
    ensures |r| == |s| && forall i :: 0 <= i < |s| ==> r[i] == s[|s| - 1 - i]
  {
    seq(|s|, i requires 0 <= i < |s| => s[|s| - 1 - i])
  }

  method Reverse(s: seq<string>) returns (r: seq<string>)
    ensures r == Reversed(s)
  {
    var out := new string[|s|](_ => "");
    for i := 0 to |s|
      invariant forall k :: 0 <= k < i ==> out[|s| - 1 - k] == s[k]
    {
      out[|s| - 1 - i] := s[i];
    }
    return out[..];
  }

  ghost predicate HasEdge(edges: map<string, seq<string>>, a: string, b: string) {
    a in edges && b in edges[a]
  }

  ghost predicate EdgesOf(nodes: seq<Node>, edges: map<string, seq<string>>) {
    forall a, b :: DependsOn(nodes, a, b) <==> HasEdge(edges, a, b)
  }

  ghost predicate WiredBefore(nodes: seq<Node>, n: nat, a: string, b: string)
    requires n <= |nodes|
  {
    a in Ids(nodes) && b in Ids(nodes) && exists m :: 0 <= m < n && Wires(nodes[m], a, b)
  }

  lemma {:induction false} WiredNext(nodes: seq<Node>, n: nat, a: string, b: string)
    requires n < |nodes|
    ensures WiredBefore(nodes, n + 1, a, b) <==>
              WiredBefore(nodes, n, a, b) || (a in Ids(nodes) && b in Ids(nodes) && Wires(nodes[n], a, b))
  {
    hide Ids;
    if WiredBefore(nodes, n + 1, a, b) {
      var m :| 0 <= m < n + 1 && Wires(nodes[m], a, b);
    }
  }

  /** From the end of a path, a walk on from id comes back to a node of the path or of itself. */
  ghost predicate Closes(nodes: seq<Node>, path: seq<string>, id: string, walk: seq<string>) {
    && |walk| > 0 && walk[0] == id && IsWalk(nodes, walk)
    && walk[|walk| - 1] in path + walk[..|walk| - 1]
  }

  type Colours = map<string, Colour>

  /** The grey nodes are the path; black nodes only depend on nodes that turned black before. */
  ghost predicate Searching(nodes: seq<Node>, edges: map<string, seq<string>>, state: Colours, finished: seq<string>,
                            path: seq<string>) {
    && EdgesOf(nodes, edges)
    && IsWalk(nodes, path)
    && (forall id :: id in path <==> id in state && state[id] == Grey)
    && (forall id :: id in finished <==> id in state && state[id] == Black)
    && (forall i, b :: 0 <= i < |finished| && DependsOn(nodes, finished[i], b) ==> b in finished[..i])
  }

  ghost function Unvisited(nodes: seq<Node>, state: Colours): set<string> {
    set n | 0 <= n < |nodes| && nodes[n].id !in state :: nodes[n].id
  }

  lemma {:induction false} Visiting(nodes: seq<Node>, state: Colours, later: Colours, id: string)
    requires id in Ids(nodes) && id !in state && state.Keys + {id} <= later.Keys
    ensures Unvisited(nodes, later) < Unvisited(nodes, state)
  {
    var n :| 0 <= n < |nodes| && nodes[n].id == id;
    assert nodes[n].id in Unvisited(nodes, state);
  }

  lemma {:induction false} Deepen(nodes: seq<Node>, edges: map<string, seq<string>>, state: Colours,
                                  finished: seq<string>, path: seq<string>, id: string)
    requires Searching(nodes, edges, state, finished, path) && id !in state
    requires path != [] ==> DependsOn(nodes, path[|path| - 1], id)
    ensures Searching(nodes, edges, state[id := Grey], finished, path + [id])
    ensures id !in path
  {
  }

  lemma {:induction false} Finish(nodes: seq<Node>, edges: map<string, seq<string>>, state: Colours,
                                  finished: seq<string>, path: seq<string>, id: string)
    requires Searching(nodes, edges, state, finished, path + [id]) && id !in path
    requires forall b :: HasEdge(edges, id, b) ==> b in state && state[b] == Black
    ensures Searching(nodes, edges, state[id := Black], finished + [id], path)
  {
    assert id in path + [id];
    var more := finished + [id];
    forall k | 0 <= k < |path| - 1 ensures DependsOn(nodes, path[k], path[k + 1]) {
      assert DependsOn(nodes, (path + [id])[k], (path + [id])[k + 1]);
    }
    forall i, b | 0 <= i < |more| && DependsOn(nodes, more[i], b) ensures b in more[..i] {
      if i < |finished| {
        assert more[..i] == finished[..i];
      } else {
        assert more[..i] == finished && HasEdge(edges, id, b);
      }
    }
  }

  lemma {:induction false} ClosesOut(nodes: seq<Node>, path: seq<string>, id: string, dep: string, cycle: seq<string>)
    requires Closes(nodes, path + [id], dep, Reversed(cycle)) && DependsOn(nodes, id, dep)
    ensures Closes(nodes, path, id, Reversed(cycle + [id]))
  {
    var walk, longer := Reversed(cycle), Reversed(cycle + [id]);
    assert longer == [id] + walk;
    assert longer[..|longer| - 1] == [id] + walk[..|walk| - 1];
    forall k | 0 <= k < |longer| - 1 ensures DependsOn(nodes, longer[k], longer[k + 1]) {
      assert k > 0 ==> DependsOn(nodes, walk[k - 1], walk[k]);
    }
  }

  class Walker {
    const nodes: seq<Node>
    var edges: map<string, seq<string>>
    var state: map<string, Colour>
    ghost var finished: seq<string> // the black nodes in the order they turned black

    constructor (nodes: seq<Node>)
      ensures this.nodes == nodes && edges == map[] && state == map[] && finished == []
    {
      this.nodes := nodes;
      edges, state, finished := map[], map[], [];
    }

    method AddEdge(a: string, b: string)
      modifies this`edges
      ensures forall x, y :: HasEdge(edges, x, y) <==> HasEdge(old(edges), x, y) || (x == a && y == b)
    {
      edges := edges[a := (if a in edges then edges[a] else []) + [b]];
    }

    /** Both kinds of edge, as far as the first n nodes wire them. */
    ghost predicate Derived(n: nat)
      reads this
      requires n <= |nodes|
    {
      forall a, b :: HasEdge(edges, a, b) <==> WiredBefore(nodes, n, a, b)
    }

    method DeriveEdges()
      requires edges == map[]
      modifies this`edges
      ensures EdgesOf(nodes, edges)
    {
      for n := 0 to |nodes|
        invariant Derived(n)
      {
        var node := nodes[n];
        ghost var before := edges;
        assert IsDeclared(nodes, node.id);
        for r := 0 to |node.sources|
          invariant forall a, b :: HasEdge(edges, a, b) <==>
                      HasEdge(before, a, b) || (a == node.id && b in node.sources[..r] && IsDeclared(nodes, b))
        {
          assert node.sources[..r + 1] == node.sources[..r] + [node.sources[r]];
          if IsDeclared(nodes, node.sources[r]) {
            AddEdge(node.id, node.sources[r]);
          }
        }
        assert node.sources[..|node.sources|] == node.sources;
        for k := 0 to |node.blocks|
          invariant forall a, b :: HasEdge(edges, a, b) <==>
                      HasEdge(before, a, b)
                      || (a == node.id && b in node.sources && IsDeclared(nodes, b))
                      || (b == node.id && a in node.blocks[..k] && IsDeclared(nodes, a))
        {
          assert node.blocks[..k + 1] == node.blocks[..k] + [node.blocks[k]];
          if IsDeclared(nodes, node.blocks[k]) {
            AddEdge(node.blocks[k], node.id);
          }
        }
        assert node.blocks[..|node.blocks|] == node.blocks;
        forall a, b ensures HasEdge(edges, a, b) <==> WiredBefore(nodes, n + 1, a, b) {
          DeclaredIsAnId(nodes, a);
          DeclaredIsAnId(nodes, b);
          WiredNext(nodes, n, a, b);
        }
      }
      forall a, b ensures DependsOn(nodes, a, b) <==> HasEdge(edges, a, b) {
        assert WiredBefore(nodes, |nodes|, a, b) <==> DependsOn(nodes, a, b);
      }
    }

    /** One search step; the nodes of a cycle come back innermost first, as the walk unwinds. */
    method Walk(id: string, ghost path: seq<string>) returns (cycle: Option<seq<string>>)
      requires Searching(nodes, edges, state, finished, path) && id in Ids(nodes)
      requires path != [] ==> DependsOn(nodes, path[|path| - 1], id)
      modifies this`state, this`finished
      ensures cycle.None? ==> Searching(nodes, edges, state, finished, path) && id in state && state[id] == Black
      ensures cycle.None? ==> |old(finished)| <= |finished| && finished[..|old(finished)|] == old(finished)
      ensures old(state).Keys <= state.Keys
      ensures cycle.Some? ==> Closes(nodes, path, id, Reversed(cycle.value))
      decreases Unvisited(nodes, state)
    {
      hide Searching, Closes, Ids, Unvisited, DependsOn, HasEdge;
      if id in state {
        if state[id] == Grey {
          ClosesAt(nodes, edges, state, finished, path, id);
          return Some([id]);
        }
        return None;
      }
      ghost var deeper, start := path + [id], finished;
      Deepen(nodes, edges, state, finished, path, id);
      state := state[id := Grey];
      var deps := if id in edges then edges[id] else [];
      for d := 0 to |deps|
        invariant Searching(nodes, edges, state, finished, deeper)
        invariant |start| <= |finished| && finished[..|start|] == start
        invariant old(state).Keys + {id} <= state.Keys
        invariant forall e :: 0 <= e < d ==> deps[e] in finished
      {
        Depends(nodes, edges, state, finished, deeper, id, deps[d]);
        Visiting(nodes, old(state), state, id);
        ghost var black := finished;
        cycle := Walk(deps[d], deeper);
        if cycle.Some? {
          ClosesOut(nodes, path, id, deps[d], cycle.value);
          return Some(cycle.value + [id]);
        }
        BlackIsFinished(nodes, edges, state, finished, deeper);
        assert forall b :: b in black ==> b in finished;
      }
      BlackIsFinished(nodes, edges, state, finished, deeper);
      AllDeps(edges, id, deps);
      Finish(nodes, edges, state, finished, path, id);
      state := state[id := Black];
      finished := finished + [id];
      return None;
    }
  }

  lemma {:induction false} AllDeps(edges: map<string, seq<string>>, id: string, deps: seq<string>)
    requires deps == if id in edges then edges[id] else []
    ensures forall b :: HasEdge(edges, id, b) <==> b in deps
  {
  }

  lemma {:induction false} ClosesAt(nodes: seq<Node>, edges: map<string, seq<string>>, state: Colours,
                                    finished: seq<string>, path: seq<string>, id: string)
    requires Searching(nodes, edges, state, finished, path) && id in state && state[id] == Grey
    ensures Closes(nodes, path, id, Reversed([id]))
  {
    assert Reversed([id]) == [id];
  }

  lemma {:induction false} Depends(nodes: seq<Node>, edges: map<string, seq<string>>, state: Colours,
                                   finished: seq<string>, path: seq<string>, id: string, dep: string)
    requires Searching(nodes, edges, state, finished, path) && id in edges && dep in edges[id]
    ensures DependsOn(nodes, id, dep) && dep in Ids(nodes)
  {
    assert HasEdge(edges, id, dep);
  }

  lemma {:induction false} BlackIsFinished(nodes: seq<Node>, edges: map<string, seq<string>>, state: Colours,
                                           finished: seq<string>, path: seq<string>)
    requires Searching(nodes, edges, state, finished, path)
    ensures forall b :: b in finished <==> b in state && state[b] == Black
  {
  }

  lemma {:induction false} Unsearched(nodes: seq<Node>, edges: map<string, seq<string>>)
    requires EdgesOf(nodes, edges)
    ensures Searching(nodes, edges, map[], [], [])
  {
  }

  lemma {:induction false} SearchedIsScheduled(nodes: seq<Node>, edges: map<string, seq<string>>, state: Colours,
                                               finished: seq<string>)
    requires Searching(nodes, edges, state, finished, [])
    requires forall n :: 0 <= n < |nodes| ==> nodes[n].id in finished
    ensures Schedules(nodes, finished)
    ensures forall walk :: !IsCycle(nodes, walk)
  {
    forall walk ensures !IsCycle(nodes, walk) {
      ScheduledHasNoCycle(nodes, finished, walk);
    }
  }

  lemma {:induction false} ClosedWalkHasCycle(nodes: seq<Node>, id: string, walk: seq<string>)
    returns (cycle: seq<string>)
    requires Closes(nodes, [], id, walk)
    ensures IsCycle(nodes, cycle)
  {
    var last := walk[|walk| - 1];
    var i :| 0 <= i < |walk| - 1 && walk[i] == last;
    cycle := walk[i..];
    forall k | 0 <= k < |cycle| - 1 ensures DependsOn(nodes, cycle[k], cycle[k + 1]) {
      assert DependsOn(nodes, walk[i + k], walk[i + k + 1]);
    }
  }

  /**
   * Accepts exactly the graphs without a cycle. What it reports of a rejected one is a real walk
   * along dependencies whose last node occurs in it before.
   */
  method CheckWorkflowGraph(nodes: seq<Node>) returns (report: Option<seq<string>>)
    ensures report.None? <==> forall walk :: !IsCycle(nodes, walk)
    ensures report.None? ==> exists order :: Schedules(nodes, order)
    ensures report.Some? ==>
              var walk := report.value;
              |walk| > 1 && IsWalk(nodes, walk) && walk[|walk| - 1] in walk[..|walk| - 1]
  {
    hide Searching, IsCycle, Schedules, IsWalk, EdgesOf;
    var walker := new Walker(nodes);
    walker.DeriveEdges();
    Unsearched(nodes, walker.edges);
    for n := 0 to |nodes|
      invariant walker.nodes == nodes && Searching(nodes, walker.edges, walker.state, walker.finished, [])
      invariant forall m :: 0 <= m < n ==> nodes[m].id in walker.finished
    {
      ghost var black := walker.finished;
      var cycle := walker.Walk(nodes[n].id, []);
      if cycle.Some? {
        ghost var found := ClosedWalkHasCycle(nodes, nodes[n].id, Reversed(cycle.value));
        var reversed := Reverse(cycle.value);
        return Some(reversed);
      }
      BlackIsFinished(nodes, walker.edges, walker.state, walker.finished, []);
      assert forall b :: b in black ==> b in walker.finished;
    }
    SearchedIsScheduled(nodes, walker.edges, walker.state, walker.finished);
    return None;
  }

  // ---- what a node's wiring reads -------------------------------------------------------------

  /** A parsed value; the paths an expression projects are the expression language's to find. */
  datatype Value =
    | From(path: string)
    | Expr(paths: seq<string>)
    | Doc(operand: Operand)
    | Other

  /** A document operand; the members of an object are in ascending key order. */
  datatype Operand =
    | Empty
    | Leaf(value: Value)
    | Object(members: seq<Operand>)
    | List(items: seq<Operand>)

  /** Every path a value projects, however deep in a document, in document order. */
  ghost function Paths(value: Value): seq<string>
    decreases value, 0
  {
    match value
    case From(path) => [path]
    case Expr(paths) => paths
    case Doc(operand) => OperandPaths(operand)
    case Other => []
  }

  ghost function OperandPaths(operand: Operand): seq<string>
    decreases operand, 1
  {
    match operand
    case Empty => []
    case Leaf(value) => Paths(value)
    case Object(members) => ListPaths(members)
    case List(items) => ListPaths(items)
  }

  ghost function ListPaths(operands: seq<Operand>): seq<string>
    decreases operands, 0
  {
    if operands == [] then [] else OperandPaths(operands[0]) + ListPaths(operands[1..])
  }

  /** The value projects the path, at whatever depth. */
  ghost predicate Projects(value: Value, path: string)
    decreases value, 0
  {
    match value
    case From(p) => p == path
    case Expr(paths) => path in paths
    case Doc(operand) => HoldsProjection(operand, path)
    case Other => false
  }

  ghost predicate HoldsProjection(operand: Operand, path: string)
    decreases operand, 1
  {
    match operand
    case Empty => false
    case Leaf(value) => Projects(value, path)
    case Object(members) => exists k :: 0 <= k < |members| && HoldsProjection(members[k], path)
    case List(items) => exists k :: 0 <= k < |items| && HoldsProjection(items[k], path)
  }

  lemma {:induction false} PathsAreProjected(value: Value, path: string)
    ensures path in Paths(value) <==> Projects(value, path)
    decreases value, 0
  {
    match value
    case Doc(operand) => OperandPathsAreHeld(operand, path);
    case _ =>
  }

  lemma {:induction false} OperandPathsAreHeld(operand: Operand, path: string)
    ensures path in OperandPaths(operand) <==> HoldsProjection(operand, path)
    decreases operand, 1
  {
    match operand
    case Leaf(value) => PathsAreProjected(value, path);
    case Object(members) => ListPathsAreHeld(members, path);
    case List(items) => ListPathsAreHeld(items, path);
    case Empty =>
  }

  lemma {:induction false} ListPathsAreHeld(operands: seq<Operand>, path: string)
    ensures path in ListPaths(operands) <==> exists k :: 0 <= k < |operands| && HoldsProjection(operands[k], path)
    decreases operands, 0
  {
    if operands != [] {
      OperandPathsAreHeld(operands[0], path);
      ListPathsAreHeld(operands[1..], path);
      if k :| 0 <= k < |operands| && HoldsProjection(operands[k], path) {
        assert k > 0 ==> HoldsProjection(operands[1..][k - 1], path);
      }
      if k :| 0 <= k < |operands[1..]| && HoldsProjection(operands[1..][k], path) {
        assert HoldsProjection(operands[k + 1], path);
      }
    }
  }

  const NODE_READ_PREFIX := "nodes."

  /** strings.Split on a dot: always at least one segment. */
  function Split(path: string): (segments: seq<string>)
    ensures |segments| > 0
  {
    if path == [] then [[]]
    else
      var rest := Split(path[1..]);
      if path[0] == '.' then [[]] + rest else [[path[0]] + rest[0]] + rest[1..]
  }

  /** nodeReadID. */
  function ReadId(path: string): Option<string> {
    if !(NODE_READ_PREFIX <= path) then None
    else
      var segments := Split(path);
      if |segments| < 3 then None else Some(segments[1])
  }

  lemma {:induction false} SplitAtFirstDot(head: string, tail: string)
    requires '.' !in head
    ensures Split(head + ['.'] + tail) == [head] + Split(tail)
  {
    var path := head + ['.'] + tail;
    if head == [] {
      assert path[1..] == tail;
    } else {
      assert path[1..] == head[1..] + ['.'] + tail;
      SplitAtFirstDot(head[1..], tail);
      assert [head[0]] + head[1..] == head;
    }
  }

  lemma {:induction false} SplitWithoutDot(path: string)
    requires '.' !in path
    ensures Split(path) == [path]
  {
    if path != [] {
      SplitWithoutDot(path[1..]);
      assert [path[0]] + path[1..] == path;
    }
  }

  lemma {:induction false} FirstDot(path: string) returns (head: string, tail: string)
    requires '.' in path
    ensures path == head + ['.'] + tail && '.' !in head
  {
    if path[0] == '.' {
      head, tail := [], path[1..];
    } else {
      head, tail := FirstDot(path[1..]);
      head := [path[0]] + head;
    }
  }

  lemma {:induction false} ReadOfId(path: string, id: string, rest: string)
    requires path == NODE_READ_PREFIX + id + ['.'] + rest
    ensures NODE_READ_PREFIX <= path && path[|NODE_READ_PREFIX|..] == id + ['.'] + rest
    ensures '.' in path[|NODE_READ_PREFIX|..]
  {
    assert path == NODE_READ_PREFIX + (id + ['.'] + rest);
    assert (id + ['.'] + rest)[|id|] == '.';
  }

  /** A path reads node id exactly when it is `nodes.`, the id up to the next dot, and more. */
  lemma {:induction false} ReadIdIs(path: string, id: string)
    ensures ReadId(path) == Some(id) <==>
            '.' !in id && exists rest :: path == NODE_READ_PREFIX + id + ['.'] + rest
  {
    var nodes := ['n', 'o', 'd', 'e', 's'];
    assert NODE_READ_PREFIX == nodes + ['.'];
    if NODE_READ_PREFIX <= path {
      var after := path[|NODE_READ_PREFIX|..];
      assert path == nodes + ['.'] + after;
      SplitAtFirstDot(nodes, after);
      if '.' in after {
        var head, tail := FirstDot(after);
        SplitAtFirstDot(head, tail);
        assert Split(after)[0] == head;
        assert path == NODE_READ_PREFIX + head + ['.'] + tail;
        forall rest | '.' !in id && path == NODE_READ_PREFIX + id + ['.'] + rest ensures id == head {
          ReadOfId(path, id, rest);
          SplitAtFirstDot(id, rest);
        }
      } else {
        SplitWithoutDot(after);
        forall rest ensures path == NODE_READ_PREFIX + id + ['.'] + rest ==> '.' in after {
          if path == NODE_READ_PREFIX + id + ['.'] + rest {
            ReadOfId(path, id, rest);
          }
        }
      }
    }
  }

  /** The ids the paths read, each at its first appearance. */
  ghost function FirstAppearances(paths: seq<string>): seq<string> {
    if paths == [] then []
    else
      var front := FirstAppearances(paths[..|paths| - 1]);
      match ReadId(paths[|paths| - 1])
      case None => front
      case Some(id) => if id in front then front else front + [id]
  }

  lemma {:induction false} FirstAppearancesAre(paths: seq<string>)
    ensures forall id :: id in FirstAppearances(paths) <==>
              exists k :: 0 <= k < |paths| && ReadId(paths[k]) == Some(id)
    ensures forall i, j :: 0 <= i < j < |FirstAppearances(paths)| ==>
              FirstAppearances(paths)[i] != FirstAppearances(paths)[j]
  {
    if paths != [] {
      FirstAppearancesAre(paths[..|paths| - 1]);
    }
  }

  /** The id is read by one of the first n paths. */
  ghost predicate ReadBefore(paths: seq<string>, n: nat, id: string) {
    exists k :: 0 <= k < n && k < |paths| && ReadId(paths[k]) == Some(id)
  }

  /** An id stands before another exactly because it was read first. */
  lemma {:induction false} FirstAppearancesInOrder(paths: seq<string>, i: nat, j: nat) returns (n: nat)
    requires i < j < |FirstAppearances(paths)|
    ensures n <= |paths|
    ensures ReadBefore(paths, n, FirstAppearances(paths)[i]) && !ReadBefore(paths, n, FirstAppearances(paths)[j])
  {
    hide ReadId;
    var front := FirstAppearances(paths[..|paths| - 1]);
    if j < |front| {
      n := FirstAppearancesInOrder(paths[..|paths| - 1], i, j);
      ReadBeforeIn(paths, n, front[i]);
      ReadBeforeIn(paths, n, front[j]);
    } else {
      n := |paths| - 1;
      FirstAppearancesAre(paths[..n]);
      assert front[i] in front;
      ReadBeforeIn(paths, n, front[i]);
      ReadBeforeIn(paths, n, FirstAppearances(paths)[j]);
    }
  }

  lemma {:induction false} ReadBeforeIn(paths: seq<string>, n: nat, id: string)
    requires paths != [] && n <= |paths| - 1
    ensures ReadBefore(paths, n, id) <==> ReadBefore(paths[..|paths| - 1], n, id)
    ensures n == |paths| - 1 ==>
              (ReadBefore(paths, n, id) <==>
                 exists k :: 0 <= k < |paths[..n]| && ReadId(paths[..n][k]) == Some(id))
  {
    hide ReadId;
    var front := paths[..|paths| - 1];
    assert forall k :: 0 <= k < |front| ==> front[k] == paths[k];
  }

  lemma {:induction false} FirstAppearancesMore(paths: seq<string>, path: string)
    ensures var front := FirstAppearances(paths);
            FirstAppearances(paths + [path]) ==
            match ReadId(path)
            case None => front
            case Some(id) => if id in front then front else front + [id]
  {
    assert (paths + [path])[..|paths|] == paths;
  }

  /** The closure that collects ids, with its seen set. */
  class Collector {
    var found: seq<string>
    var seen: set<string>
    ghost var paths: seq<string> // every path handed to Add so far

    constructor ()
      ensures paths == [] && Valid()
    {
      found, seen, paths := [], {}, [];
    }

    ghost predicate Valid()
      reads this
    {
      found == FirstAppearances(paths) && forall id :: id in seen <==> id in found
    }

    method Add(path: string)
      requires Valid()
      modifies this
      ensures Valid() && paths == old(paths) + [path]
    {
      FirstAppearancesMore(paths, path);
      paths := paths + [path];
      var id := ReadId(path);
      if id.None? || id.value in seen {
        return;
      }
      seen := seen + {id.value};
      found := found + [id.value];
    }

    method ValueReads(value: Value)
      requires Valid()
      modifies this
      ensures Valid() && paths == old(paths) + Paths(value)
      decreases value, 0
    {
      match value {
        case From(path) =>
          Add(path);
        case Expr(exprPaths) =>
          for k := 0 to |exprPaths|
            invariant Valid() && paths == old(paths) + exprPaths[..k]
          {
            Add(exprPaths[k]);
            assert exprPaths[..k + 1] == exprPaths[..k] + [exprPaths[k]];
          }
          assert exprPaths[..|exprPaths|] == exprPaths;
        case Doc(operand) =>
          OperandReads(operand);
        case Other =>
      }
    }

    method OperandReads(operand: Operand)
      requires Valid()
      modifies this
      ensures Valid() && paths == old(paths) + OperandPaths(operand)
      decreases operand, 1
    {
      match operand {
        case Empty =>
        case Leaf(value) =>
          ValueReads(value);
        case Object(members) =>
          ListReads(members);
        case List(items) =>
          ListReads(items);
      }
    }

    method ListReads(operands: seq<Operand>)
      requires Valid()
      modifies this
      ensures Valid() && paths == old(paths) + ListPaths(operands)
      decreases operands, 0
    {
      assert operands[0..] == operands;
      for k := 0 to |operands|
        invariant Valid() && paths + ListPaths(operands[k..]) == old(paths) + ListPaths(operands)
      {
        assert operands[k..][1..] == operands[k + 1..];
        ghost var before := paths;
        OperandReads(operands[k]);
        assert paths + ListPaths(operands[k + 1..]) == before + ListPaths(operands[k..]);
      }
    }
  }

  /** Some input projects `nodes.`, the id, a dot and more. */
  ghost predicate Reads(inputs: seq<Value>, id: string) {
    '.' !in id && exists rest :: ProjectedBySome(inputs, "nodes." + id + ['.'] + rest)
  }

  ghost predicate ProjectedBySome(inputs: seq<Value>, path: string) {
    exists k :: 0 <= k < |inputs| && Projects(inputs[k], path)
  }

  lemma {:induction false} AllPathsAreProjected(inputs: seq<Value>, path: string)
    ensures path in AllPaths(inputs) <==> ProjectedBySome(inputs, path)
  {
    hide Projects, Paths;
    if inputs != [] {
      var n := |inputs| - 1;
      AllPathsAreProjected(inputs[..n], path);
      PathsAreProjected(inputs[n], path);
      if k :| 0 <= k < |inputs| && Projects(inputs[k], path) {
        assert k < n ==> inputs[..n][k] == inputs[k];
      }
      if k :| 0 <= k < n && Projects(inputs[..n][k], path) {
        assert inputs[..n][k] == inputs[k];
      }
    }
  }

  lemma {:induction false} FoundIffRead(inputs: seq<Value>, id: string)
    ensures id in FirstAppearances(AllPaths(inputs)) <==> Reads(inputs, id)
  {
    hide ReadId, FirstAppearances, ProjectedBySome;
    var paths := AllPaths(inputs);
    FirstAppearancesAre(paths);
    if k :| 0 <= k < |paths| && ReadId(paths[k]) == Some(id) {
      ReadIdIs(paths[k], id);
      AllPathsAreProjected(inputs, paths[k]);
    }
    if '.' !in id {
      forall rest | ProjectedBySome(inputs, "nodes." + id + ['.'] + rest)
        ensures exists k :: 0 <= k < |paths| && ReadId(paths[k]) == Some(id)
      {
        var path := "nodes." + id + ['.'] + rest;
        AllPathsAreProjected(inputs, path);
        ReadIdIs(path, id);
        var k :| 0 <= k < |paths| && paths[k] == path;
      }
    }
  }

  /** NodeReads: exactly the nodes that some projection of the inputs reads, each once. */
  method NodeReads(inputs: seq<Value>) returns (found: seq<string>)
    ensures found == FirstAppearances(AllPaths(inputs))
    ensures forall id :: id in found <==> Reads(inputs, id)
    ensures forall i, j :: 0 <= i < j < |found| ==> found[i] != found[j]
  {
    var collector := new Collector();
    for k := 0 to |inputs|
      invariant collector.Valid() && collector.paths == AllPaths(inputs[..k])
    {
      assert inputs[..k + 1][..k] == inputs[..k];
      collector.ValueReads(inputs[k]);
    }
    assert inputs[..|inputs|] == inputs;
    FirstAppearancesAre(AllPaths(inputs));
    forall id ensures id in collector.found <==> Reads(inputs, id) {
      FoundIffRead(inputs, id);
    }
    return collector.found;
  }

  /** The paths of all input values, in ascending key order. */
  ghost function AllPaths(inputs: seq<Value>): seq<string> {
    if inputs == [] then [] else AllPaths(inputs[..|inputs| - 1]) + Paths(inputs[|inputs| - 1])
  }
}
