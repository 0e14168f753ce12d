/** Chains of foreign-key edges and breadth-first search over them. */
module FkPaths {
  import opened Wrappers

  /** A table identifier, `schema.name`. */
  type Id = string

  datatype Edge = Edge(from: Id, to: Id, fromCols: seq<string>, toCols: seq<string>)

  type Graph = map<Id, seq<Edge>>

  function Reverse(e: Edge): Edge {
    Edge(e.to, e.from, e.toCols, e.fromCols)
  }

  function EdgesOf(g: Graph, id: Id): seq<Edge> {
    if id in g then g[id] else []
  }

  /** Adjacency lists hold edges out of their own table, into tables of the graph. */
  ghost predicate WellFormed(g: Graph) {
    forall id, e | e in EdgesOf(g, id) :: e.from == id && e.to in g
  }

  predicate IsEdge(g: Graph, e: Edge) {
    e in EdgesOf(g, e.from)
  }

  predicate Twinned(g: Graph, e: Edge) {
    IsEdge(g, Reverse(e))
  }

  ghost predicate Symmetric(g: Graph) {
    forall e {:trigger Twinned(g, e)} | IsEdge(g, e) :: Twinned(g, e)
  }

  /** `es` leads from `a` to `b`, edge by edge. */
  ghost predicate Chain(g: Graph, a: Id, es: seq<Edge>, b: Id) {
    if es == [] then a == b
    else
      var e := es[|es| - 1];
      e.to == b && IsEdge(g, e) && Chain(g, a, es[..|es| - 1], e.from)
  }

  ghost predicate Reachable(g: Graph, a: Id, b: Id) {
    exists es :: Chain(g, a, es, b)
  }

  /** No table is visited twice. */
  ghost predicate Simple(a: Id, es: seq<Edge>) {
    && (forall i | 0 <= i < |es| :: es[i].to != a)
    && forall i, j | 0 <= i < j < |es| :: es[i].to != es[j].to
  }

  ghost predicate Shortest(g: Graph, a: Id, es: seq<Edge>, b: Id) {
    Chain(g, a, es, b) && forall other: seq<Edge> | Chain(g, a, other, b) :: |es| <= |other|
  }

  function TableAt(a: Id, es: seq<Edge>, i: nat): Id
    requires i <= |es|
  {
    if i == 0 then a else es[i - 1].to
  }

  lemma {:induction false} ChainAppend(g: Graph, a: Id, es: seq<Edge>, e: Edge)
    requires Chain(g, a, es, e.from) && IsEdge(g, e)
    ensures Chain(g, a, es + [e], e.to)
  {
    assert (es + [e])[..|es|] == es;
  }

  /** Every stretch at the end of a chain is a chain. */
  lemma {:induction false} ChainSuffix(g: Graph, a: Id, es: seq<Edge>, b: Id, i: nat)
    requires Chain(g, a, es, b) && i <= |es|
    ensures Chain(g, TableAt(a, es, i), es[i..], b)
  {
    if i == |es| {
      assert es[i..] == [];
    } else {
      var front, last := es[..|es| - 1], es[|es| - 1];
      ChainSuffix(g, a, front, last.from, i);
      assert es[i..][..|es| - i - 1] == front[i..];
      assert es[i..][|es| - i - 1] == last;
    }
  }

  /** Each edge of a chain starts where the one before it ended. */
  lemma {:induction false} ChainLinks(g: Graph, a: Id, es: seq<Edge>, b: Id, i: nat)
    requires Chain(g, a, es, b) && i < |es|
    ensures es[i].from == TableAt(a, es, i) && IsEdge(g, es[i])
    ensures es[|es| - 1].to == b
  {
    var front, last := es[..|es| - 1], es[|es| - 1];
    if i < |front| {
      ChainLinks(g, a, front, last.from, i);
    } else if front != [] {
      ChainLinks(g, a, front, last.from, |front| - 1);
    }
  }

  lemma {:induction false} ChainConcat(g: Graph, a: Id, xs: seq<Edge>, m: Id, ys: seq<Edge>, b: Id)
    requires Chain(g, a, xs, m) && Chain(g, m, ys, b)
    ensures Chain(g, a, xs + ys, b)
  {
    if ys == [] {
      assert xs + ys == xs;
    } else {
      var front, last := ys[..|ys| - 1], ys[|ys| - 1];
      ChainConcat(g, a, xs, m, front, last.from);
      assert (xs + ys)[..|xs + ys| - 1] == xs + front;
    }
  }

  function ReverseChain(es: seq<Edge>): seq<Edge> {
    if es == [] then [] else [Reverse(es[|es| - 1])] + ReverseChain(es[..|es| - 1])
  }

  lemma {:induction false} ChainReversed(g: Graph, a: Id, es: seq<Edge>, b: Id)
    requires WellFormed(g) && Symmetric(g) && Chain(g, a, es, b)
    ensures Chain(g, b, ReverseChain(es), a) && |ReverseChain(es)| == |es|
  {
    if es != [] {
      var front, last := es[..|es| - 1], es[|es| - 1];
      ChainReversed(g, a, front, last.from);
      assert Twinned(g, last);
      assert Chain(g, b, [], b);
      ChainAppend(g, b, [], Reverse(last));
      assert [] + [Reverse(last)] == [Reverse(last)];
      ChainConcat(g, b, [Reverse(last)], last.from, ReverseChain(front), a);
    }
  }

  /** Shortest paths are equally long in both directions. */
  lemma ShortestSymmetric(g: Graph, a: Id, b: Id, there: seq<Edge>, back: seq<Edge>)
    requires WellFormed(g) && Symmetric(g)
    requires Shortest(g, a, there, b) && Shortest(g, b, back, a)
    ensures |there| == |back|
  {
    ChainReversed(g, a, there, b);
    ChainReversed(g, b, back, a);
  }

  lemma ReachableSymmetric(g: Graph, a: Id, b: Id)
    requires WellFormed(g) && Symmetric(g)
    ensures Reachable(g, a, b) <==> Reachable(g, b, a)
  {
    if es :| Chain(g, a, es, b) {
      ChainReversed(g, a, es, b);
    }
    if es :| Chain(g, b, es, a) {
      ChainReversed(g, b, es, a);
    }
  }

  // ------------------------------------------------------ breadth-first search

  datatype Entry = Entry(id: Id, path: seq<Edge>)

  /** Every table within `d` edges of `a` has been visited. */
  ghost predicate Covers(g: Graph, a: Id, visited: set<Id>, d: nat) {
    forall es: seq<Edge>, v | Chain(g, a, es, v) && |es| <= d :: v in visited
  }

  predicate Queued(queue: seq<Entry>, id: Id) {
    exists i | 0 <= i < |queue| :: queue[i].id == id
  }

  /** The edges of every visited table that waits no more lead to visited tables. */
  ghost predicate Closed(g: Graph, visited: set<Id>, queue: seq<Entry>, current: set<Id>) {
    forall u, e | u in visited && !Queued(queue, u) && u !in current && e in EdgesOf(g, u) :: e.to in visited
  }

  /** A queued path is a shortest, simple chain through visited tables. */
  ghost predicate GoodEntry(g: Graph, a: Id, visited: set<Id>, entry: Entry) {
    && Shortest(g, a, entry.path, entry.id)
    && Simple(a, entry.path)
    && entry.id in visited
    && forall i | 0 <= i < |entry.path| :: entry.path[i].to in visited
  }

  ghost predicate GoodQueue(g: Graph, a: Id, visited: set<Id>, queue: seq<Entry>) {
    forall i | 0 <= i < |queue| :: GoodEntry(g, a, visited, queue[i])
  }

  /** The queue holds paths of length `d`, then paths of length `d + 1`. */
  ghost predicate Layered(queue: seq<Entry>, d: nat) {
    && (forall i | 0 <= i < |queue| :: d <= |queue[i].path| <= d + 1)
    && forall i, j | 0 <= i < j < |queue| :: |queue[i].path| <= |queue[j].path|
  }

  /** A table seen for the first time from a table at distance `d` is at distance `d + 1`. */
  lemma Discover(g: Graph, a: Id, visited: set<Id>, entry: Entry, edge: Edge)
    requires a in visited && Covers(g, a, visited, |entry.path|)
    requires GoodEntry(g, a, visited, entry) && edge.from == entry.id && IsEdge(g, edge) && edge.to !in visited
    ensures GoodEntry(g, a, visited + {edge.to}, Entry(edge.to, entry.path + [edge]))
  {
    ChainAppend(g, a, entry.path, edge);
    forall other: seq<Edge> | Chain(g, a, other, edge.to)
      ensures |entry.path| + 1 <= |other|
    {
      assert |other| <= |entry.path| ==> edge.to in visited;
    }
  }

  lemma GoodQueueGrows(g: Graph, a: Id, visited: set<Id>, more: set<Id>, queue: seq<Entry>)
    requires GoodQueue(g, a, visited, queue) && visited <= more
    ensures GoodQueue(g, a, more, queue)
  {
    forall i | 0 <= i < |queue|
      ensures GoodEntry(g, a, more, queue[i])
    {
      assert GoodEntry(g, a, visited, queue[i]);
    }
  }

  lemma NotQueued(g: Graph, a: Id, visited: set<Id>, queue: seq<Entry>, d: nat, es: seq<Edge>, u: Id)
    requires GoodQueue(g, a, visited, queue)
    requires forall i | 0 <= i < |queue| :: |queue[i].path| > d
    requires Chain(g, a, es, u) && |es| <= d
    ensures !Queued(queue, u)
  {
    forall i | 0 <= i < |queue|
      ensures queue[i].id != u
    {
      assert GoodEntry(g, a, visited, queue[i]);
    }
  }

  /** When layer `d` is exhausted, everything within `d + 1` edges has been visited. */
  lemma NextLayer(g: Graph, a: Id, visited: set<Id>, queue: seq<Entry>, d: nat)
    requires WellFormed(g)
    requires Covers(g, a, visited, d) && Closed(g, visited, queue, {}) && GoodQueue(g, a, visited, queue)
    requires forall i | 0 <= i < |queue| :: |queue[i].path| > d
    ensures Covers(g, a, visited, d + 1)
  {
    forall es: seq<Edge>, v | Chain(g, a, es, v) && |es| <= d + 1
      ensures v in visited
    {
      if |es| == d + 1 {
        var e, front := es[|es| - 1], es[..|es| - 1];
        assert Chain(g, a, front, e.from);
        NotQueued(g, a, visited, queue, d, front, e.from);
        assert e in EdgesOf(g, e.from);
      }
    }
  }

  /** A closed visited set contains everything reachable. */
  lemma {:induction false} ClosedReach(g: Graph, a: Id, visited: set<Id>, es: seq<Edge>, b: Id)
    requires a in visited && Closed(g, visited, [], {}) && Chain(g, a, es, b)
    ensures b in visited
  {
    if es != [] {
      ClosedReach(g, a, visited, es[..|es| - 1], es[|es| - 1].from);
    }
  }

  /** What the search knows between two edges, while `current` tables are being expanded. */
  ghost predicate Searching(g: Graph, a: Id, b: Id, visited: set<Id>, queue: seq<Entry>, d: nat, current: set<Id>) {
    && a in visited && b !in visited && visited <= g.Keys + {a}
    && Covers(g, a, visited, d)
    && Closed(g, visited, queue, current)
    && GoodQueue(g, a, visited, queue)
    && Layered(queue, d)
  }

  /** The search of `joinPath`: a queue of paths and a set of visited tables. */
  method Search(g: Graph, from: Id, to: Id) returns (found: Option<seq<Edge>>)
    requires WellFormed(g) && from != to
    ensures match found
            case Some(path) => Shortest(g, from, path, to) && Simple(from, path) && path != []
            case None => !Reachable(g, from, to)
  {
    var visited: set<Id> := {from};
    var queue: seq<Entry> := [Entry(from, [])];
    ghost var d: nat := 0;
    FirstLayer(g, from);
    while |queue| > 0
      invariant Searching(g, from, to, visited, queue, d, {})
      decreases g.Keys + {from} - visited, |queue|
    {
      if |queue[0].path| > d {
        NextLayer(g, from, visited, queue, d);
        d := d + 1;
      }
      var entry := queue[0];
      PopQueue(g, from, to, visited, queue, d);
      ghost var before, rest := visited, queue[1..];
      found, visited, queue := Expand(g, from, to, entry, visited, queue[1..], d);
      if found.Some? {
        return;
      }
      assert visited == before ==> queue == rest;
    }
    found := None;
    forall es: seq<Edge>
      ensures !Chain(g, from, es, to)
    {
      if Chain(g, from, es, to) {
        ClosedReach(g, from, visited, es, to);
      }
    }
  }

  ghost predicate AllSeen(edges: seq<Edge>, k: nat, visited: set<Id>)
    requires k <= |edges|
  {
    forall i | 0 <= i < k :: edges[i].to in visited
  }

  lemma SeenNext(edges: seq<Edge>, k: nat, visited: set<Id>, more: set<Id>)
    requires k < |edges| && AllSeen(edges, k, visited) && visited <= more && edges[k].to in more
    ensures AllSeen(edges, k + 1, more)
  {
  }

  /** Looks along the edges of the table taken from the queue. */
  method Expand(g: Graph, from: Id, to: Id, entry: Entry, visited: set<Id>, queue: seq<Entry>, ghost d: nat)
    returns (found: Option<seq<Edge>>, visited': set<Id>, queue': seq<Entry>)
    requires WellFormed(g) && from != to
    requires Searching(g, from, to, visited, queue, d, {entry.id})
    requires GoodEntry(g, from, visited, entry) && |entry.path| == d
    ensures match found
            case Some(path) => Shortest(g, from, path, to) && Simple(from, path) && path != []
            case None =>
              && Searching(g, from, to, visited', queue', d, {})
              && visited <= visited'
              && (visited' == visited ==> queue' == queue)
  {
    visited', queue' := visited, queue;
    var edges := EdgesOf(g, entry.id);
    for k := 0 to |edges|
      invariant Searching(g, from, to, visited', queue', d, {entry.id})
      invariant GoodEntry(g, from, visited', entry)
      invariant visited <= visited' && (visited' == visited ==> queue' == queue)
      invariant AllSeen(edges, k, visited')
    {
      var edge := edges[k];
      if edge.to in visited' {
        SeenNext(edges, k, visited', visited');
        continue;
      }
      assert edge in EdgesOf(g, entry.id) && IsEdge(g, edge);
      Discover(g, from, visited', entry, edge);
      var next := Entry(edge.to, entry.path + [edge]);
      if edge.to == to {
        return Some(next.path), visited', queue';
      }
      Enqueue(g, from, to, visited', queue', d, entry.id, next);
      SeenNext(edges, k, visited', visited' + {edge.to});
      visited' := visited' + {edge.to};
      queue' := queue' + [next];
    }
    found := None;
  }

  lemma PopQueue(g: Graph, a: Id, b: Id, visited: set<Id>, queue: seq<Entry>, d: nat)
    requires queue != [] && Searching(g, a, b, visited, queue, d, {}) && |queue[0].path| == d
    ensures Searching(g, a, b, visited, queue[1..], d, {queue[0].id})
    ensures GoodEntry(g, a, visited, queue[0])
  {
    PopClosed(g, visited, queue);
    GoodQueueTail(g, a, visited, queue);
    LayeredTail(queue, d);
  }

  lemma GoodQueueTail(g: Graph, a: Id, visited: set<Id>, queue: seq<Entry>)
    requires queue != [] && GoodQueue(g, a, visited, queue)
    ensures GoodQueue(g, a, visited, queue[1..])
  {
  }

  lemma LayeredTail(queue: seq<Entry>, d: nat)
    requires queue != [] && Layered(queue, d)
    ensures Layered(queue[1..], d)
  {
  }

  lemma Enqueue(g: Graph, a: Id, b: Id, visited: set<Id>, queue: seq<Entry>, d: nat, current: Id, next: Entry)
    requires Searching(g, a, b, visited, queue, d, {current})
    requires GoodEntry(g, a, visited + {next.id}, next) && |next.path| == d + 1
    requires next.id !in visited && next.id != b && next.id in g
    ensures Searching(g, a, b, visited + {next.id}, queue + [next], d, {current})
  {
    GoodQueueGrows(g, a, visited, visited + {next.id}, queue);
    GoodQueuePush(g, a, visited + {next.id}, queue, next);
    LayeredPush(queue, d, next);
    PushClosed(g, visited, queue, current, next);
    CoversGrows(g, a, visited, visited + {next.id}, d);
  }

  lemma GoodQueuePush(g: Graph, a: Id, visited: set<Id>, queue: seq<Entry>, next: Entry)
    requires GoodQueue(g, a, visited, queue) && GoodEntry(g, a, visited, next)
    ensures GoodQueue(g, a, visited, queue + [next])
  {
  }

  lemma LayeredPush(queue: seq<Entry>, d: nat, next: Entry)
    requires Layered(queue, d) && |next.path| == d + 1
    ensures Layered(queue + [next], d)
  {
  }

  lemma CoversGrows(g: Graph, a: Id, visited: set<Id>, more: set<Id>, d: nat)
    requires Covers(g, a, visited, d) && visited <= more
    ensures Covers(g, a, more, d)
  {
  }

  lemma FirstLayer(g: Graph, a: Id)
    ensures Covers(g, a, {a}, 0) && Closed(g, {a}, [Entry(a, [])], {})
    ensures GoodQueue(g, a, {a}, [Entry(a, [])])
  {
    assert [Entry(a, [])][0].id == a;
  }

  lemma PopClosed(g: Graph, visited: set<Id>, queue: seq<Entry>)
    requires queue != [] && Closed(g, visited, queue, {})
    ensures Closed(g, visited, queue[1..], {queue[0].id})
  {
    var rest := queue[1..];
    forall u, e | u in visited && !Queued(rest, u) && u != queue[0].id && e in EdgesOf(g, u)
      ensures e.to in visited
    {
      assert forall i | 0 < i < |queue| :: queue[i] == rest[i - 1];
      assert !Queued(queue, u);
    }
  }

  lemma PushClosed(g: Graph, visited: set<Id>, queue: seq<Entry>, current: Id, entry: Entry)
    requires Closed(g, visited, queue, {current}) && entry.id !in visited
    ensures Closed(g, visited + {entry.id}, queue + [entry], {current})
  {
    var more := queue + [entry];
    forall u, e | u in visited + {entry.id} && !Queued(more, u) && u != current && e in EdgesOf(g, u)
      ensures e.to in visited
    {
      assert more[|queue|].id == entry.id;
      assert forall i | 0 <= i < |queue| :: queue[i] == more[i];
      assert !Queued(queue, u);
    }
  }
}
