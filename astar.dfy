/** astar(start, end) of the route server (app.py): A* over the weight map
    with a priority queue of (f, g, node, path) entries, a visited set and the
    best known g-score per node. The heuristic toward `end` is a parameter
    `h`; the route endpoint passes `n => heuristic(n, end)`. The queue is a
    sequence from which the least entry, in Python's tuple order, is taken:
    that is the entry heappop returns whatever the heap's layout. */
module AStar {
  import opened Collections
  import opened Graph

  /** A queue entry: (f_score, g_score, node, path). */
  datatype Entry = Entry(f: real, g: real, node: int, path: seq<int>)

  /** Python's order on lists of ints: lexicographic, a proper prefix first. */
  predicate PathLe(a: seq<int>, b: seq<int>)
    decreases |a|
  {
    a == [] || (b != [] && (a[0] < b[0] || (a[0] == b[0] && PathLe(a[1..], b[1..]))))
  }

  lemma {:induction false} PathLeTotal(a: seq<int>, b: seq<int>)
    ensures PathLe(a, b) || PathLe(b, a)
    decreases |a|
  {
    if a != [] && b != [] && a[0] == b[0] {
      PathLeTotal(a[1..], b[1..]);
    }
  }

  lemma {:induction false} PathLeTransitive(a: seq<int>, b: seq<int>, c: seq<int>)
    requires PathLe(a, b) && PathLe(b, c)
    ensures PathLe(a, c)
    decreases |a|
  {
    if a != [] && b != [] && c != [] && a[0] == b[0] == c[0] {
      PathLeTransitive(a[1..], b[1..], c[1..]);
    }
  }

  lemma {:induction false} PathLeAntisymmetric(a: seq<int>, b: seq<int>)
    requires PathLe(a, b) && PathLe(b, a)
    ensures a == b
    decreases |a|
  {
    if a != [] {
      PathLeAntisymmetric(a[1..], b[1..]);
      assert a == [a[0]] + a[1..] && b == [b[0]] + b[1..];
    }
  }

  /** Python's order on the (f, g, node, path) tuples. */
  predicate EntryLe(a: Entry, b: Entry) {
    a.f < b.f || (a.f == b.f && (a.g < b.g || (a.g == b.g &&
      (a.node < b.node || (a.node == b.node && PathLe(a.path, b.path))))))
  }

  lemma EntryLeTotal(a: Entry, b: Entry)
    ensures EntryLe(a, b) || EntryLe(b, a)
  {
    PathLeTotal(a.path, b.path);
  }

  lemma EntryLeTransitive(a: Entry, b: Entry, c: Entry)
    requires EntryLe(a, b) && EntryLe(b, c)
    ensures EntryLe(a, c)
  {
    if a.f == b.f == c.f && a.g == b.g == c.g && a.node == b.node == c.node {
      PathLeTransitive(a.path, b.path, c.path);
    }
  }

  /** heappop: the position of the least entry. Entries that are equal in the
      order are equal, so the popped entry does not depend on the heap's layout. */
  method PopMin(queue: seq<Entry>) returns (k: int)
    requires queue != []
    ensures 0 <= k < |queue|
    ensures forall i :: 0 <= i < |queue| ==> EntryLe(queue[k], queue[i])
    ensures forall i :: 0 <= i < |queue| && EntryLe(queue[i], queue[k]) ==> queue[i] == queue[k]
  {
    k := 0;
    EntryLeTotal(queue[0], queue[0]);
    for i := 1 to |queue|
      invariant 0 <= k < i
      invariant forall j :: 0 <= j < i ==> EntryLe(queue[k], queue[j])
    {
      if !EntryLe(queue[k], queue[i]) {
        EntryLeTotal(queue[k], queue[i]);
        EntryLeTotal(queue[i], queue[i]);
        forall j | 0 <= j < i
          ensures EntryLe(queue[i], queue[j])
        {
          EntryLeTransitive(queue[i], queue[k], queue[j]);
        }
        k := i;
      }
    }
    forall i | 0 <= i < |queue| && EntryLe(queue[i], queue[k])
      ensures queue[i] == queue[k]
    {
      PathLeAntisymmetric(queue[i].path, queue[k].path);
    }
  }

  /** What every queued entry satisfies: its path is a path of the graph from
      `start` to its node, and its f-score is its g-score plus the heuristic. */
  ghost predicate EntryOk(weight: Weights, h: int -> real, start: int, e: Entry) {
    PathFromTo(weight, e.path, start, e.node) && e.node in Nodes(weight) && e.f == e.g + h(e.node)
  }

  ghost predicate InQueue(queue: seq<Entry>, v: int) {
    exists e :: e in queue && e.node == v
  }

  predicate Distinct(s: seq<int>) {
    forall i, j :: 0 <= i < j < |s| ==> s[i] != s[j]
  }

  /** heappop: the least entry leaves the queue and the others stay. */
  method Pop(queue: seq<Entry>) returns (e: Entry, rest: seq<Entry>)
    requires queue != []
    ensures e in queue && forall x :: x in queue ==> EntryLe(e, x)
    ensures |rest| == |queue| - 1
    ensures multiset(queue) == multiset(rest) + multiset{e}
    ensures forall x :: x in rest ==> x in queue
    ensures forall v :: InQueue(queue, v) && v != e.node ==> InQueue(rest, v)
  {
    var k := PopMin(queue);
    e := queue[k];
    rest := queue[..k] + queue[k + 1..];
    assert queue == queue[..k] + [e] + queue[k + 1..];
    forall v | InQueue(queue, v) && v != e.node
      ensures InQueue(rest, v)
    {
      var x :| x in queue && x.node == v;
      var i :| 0 <= i < |queue| && queue[i] == x;
      if i < k {
        assert rest[i] == x;
      } else {
        assert i > k && rest[i - 1] == x;
      }
    }
  }

  lemma FewerLeft(nodes: set<int>, before: set<int>, after: set<int>)
    requires before < after <= nodes
    ensures |nodes - after| < |nodes - before|
  {
    var added := after - before;
    assert after == before + added;
    assert added != {};
    var n := Pick(added);
    assert nodes - before == (nodes - after) + added;
    assert n in added;
  }

  /** The search state the main loop keeps: queued entries are sound, the
      visited nodes are nodes of the graph other than `end`, every node with a
      g-score is visited or queued, and every edge out of a visited node leads
      to a visited node or one with a g-score. */
  ghost predicate Searching(weight: Weights, h: int -> real, start: int, end: int,
                            queue: seq<Entry>, visited: set<int>, gScores: map<int, real>) {
    && (forall x :: x in queue ==> EntryOk(weight, h, start, x))
    && visited <= Nodes(weight) && end !in visited
    && start in gScores
    && (forall v :: v in gScores ==> v in visited || InQueue(queue, v))
    && (forall u, v :: u in visited && IsEdge(weight, u, v) ==> v in visited || v in gScores)
  }

  /** After a pop of an entry other than `end`: skipping a visited node keeps
      the state, and an unvisited one can be marked visited and expanded. */
  lemma PopKeeps(weight: Weights, h: int -> real, start: int, end: int, queue: seq<Entry>,
                 visited: set<int>, gScores: map<int, real>, e: Entry, rest: seq<Entry>)
    requires Searching(weight, h, start, end, queue, visited, gScores)
    requires e in queue && e.node != end
    requires forall x :: x in rest ==> x in queue
    requires forall v :: InQueue(queue, v) && v != e.node ==> InQueue(rest, v)
    ensures EntryOk(weight, h, start, e)
    ensures e.node in visited ==> Searching(weight, h, start, end, rest, visited, gScores)
    ensures e.node !in visited ==>
              && (forall x :: x in rest ==> EntryOk(weight, h, start, x))
              && visited + {e.node} <= Nodes(weight) && end !in visited + {e.node}
              && (forall v :: v in gScores ==> v in visited + {e.node} || InQueue(rest, v))
              && (forall u, v :: u in visited && IsEdge(weight, u, v) ==> v in visited + {e.node} || v in gScores)
  {
  }

  /** Pushing an entry keeps the entries queued so far, at their places. */
  lemma PushKeeps(queue: seq<Entry>, before: seq<Entry>, pushed: Entry)
    requires |before| >= |queue| && before[..|queue|] == queue
    ensures (before + [pushed])[..|queue|] == queue
    ensures (before + [pushed])[|queue|..] == before[|queue|..] + [pushed]
    ensures forall x :: x in before ==> x in before + [pushed]
    ensures forall v :: InQueue(before, v) ==> InQueue(before + [pushed], v)
  {
    assert (before + [pushed])[..|queue|] == before[..|queue|];
  }

  /** The neighbour `v` of the expanded node is not visited, and the path
      through the expanded entry gives it a first or a strictly smaller
      g-score than the one recorded before the expansion. */
  ghost predicate Improves(weight: Weights, e: Entry, visited: set<int>, gScores: map<int, real>, v: int) {
    IsEdge(weight, e.node, v) && v !in visited && (v !in gScores || e.g + weight[e.node][v] < gScores[v])
  }

  /** The state of the neighbour loop once the neighbours outside `todo` are
      done: `g` and `q` are the g-scores and the queue so far. An improving
      neighbour that is done has its new score and an entry; every other
      node keeps its old score; the entries pushed so far are sound and are
      for improving neighbours. */
  ghost predicate Relaxed(weight: Weights, h: int -> real, start: int, e: Entry, visited: set<int>,
                          gScores: map<int, real>, queue: seq<Entry>, todo: set<int>,
                          g: map<int, real>, q: seq<Entry>) {
    && (forall x :: x in q ==> EntryOk(weight, h, start, x))
    && |q| >= |queue| && q[..|queue|] == queue
    && (forall x :: x in q[|queue|..] ==>
          && Improves(weight, e, visited, gScores, x.node) && x.node !in todo
          && x.path == e.path + [x.node] && x.g == e.g + weight[e.node][x.node]
          && x.node in g && g[x.node] == x.g)
    && (forall v :: v in todo || !Improves(weight, e, visited, gScores, v) ==>
          (v in g <==> v in gScores) && (v in gScores ==> g[v] == gScores[v]))
    && (forall v :: Improves(weight, e, visited, gScores, v) && v !in todo ==>
          v in g && g[v] == e.g + weight[e.node][v] && InQueue(q[|queue|..], v))
    && (forall v :: v in g ==> v in gScores || InQueue(q, v))
    && (forall v :: IsEdge(weight, e.node, v) && v !in todo ==> v in visited || v in g)
  }

  /** A neighbour that does not improve is done without any change. */
  lemma SkipKeeps(weight: Weights, h: int -> real, start: int, e: Entry, visited: set<int>,
                  gScores: map<int, real>, queue: seq<Entry>, todo: set<int>, neighbour: int,
                  g: map<int, real>, q: seq<Entry>)
    requires neighbour in todo && IsEdge(weight, e.node, neighbour)
    requires !Improves(weight, e, visited, gScores, neighbour)
    requires Relaxed(weight, h, start, e, visited, gScores, queue, todo, g, q)
    ensures Relaxed(weight, h, start, e, visited, gScores, queue, todo - {neighbour}, g, q)
  {
  }

  /** An improving neighbour is done by recording its score and pushing its entry. */
  lemma PushRelaxed(weight: Weights, h: int -> real, start: int, e: Entry, visited: set<int>,
                    gScores: map<int, real>, queue: seq<Entry>, todo: set<int>, neighbour: int,
                    g: map<int, real>, q: seq<Entry>, pushed: Entry)
    requires EntryOk(weight, h, start, e)
    requires neighbour in todo && Improves(weight, e, visited, gScores, neighbour)
    requires pushed == Entry(e.g + weight[e.node][neighbour] + h(neighbour), e.g + weight[e.node][neighbour],
                             neighbour, e.path + [neighbour])
    requires Relaxed(weight, h, start, e, visited, gScores, queue, todo, g, q)
    ensures Relaxed(weight, h, start, e, visited, gScores, queue, todo - {neighbour},
                    g[neighbour := pushed.g], q + [pushed])
  {
    PushQueue(weight, h, start, e, visited, gScores, queue, todo, neighbour, g, q, pushed);
    PushScores(weight, h, start, e, visited, gScores, queue, todo, neighbour, g, q, pushed);
  }

  /** The queue part of PushRelaxed. */
  lemma PushQueue(weight: Weights, h: int -> real, start: int, e: Entry, visited: set<int>,
                  gScores: map<int, real>, queue: seq<Entry>, todo: set<int>, neighbour: int,
                  g: map<int, real>, q: seq<Entry>, pushed: Entry)
    requires EntryOk(weight, h, start, e)
    requires neighbour in todo && Improves(weight, e, visited, gScores, neighbour)
    requires pushed == Entry(e.g + weight[e.node][neighbour] + h(neighbour), e.g + weight[e.node][neighbour],
                             neighbour, e.path + [neighbour])
    requires Relaxed(weight, h, start, e, visited, gScores, queue, todo, g, q)
    ensures forall x :: x in q + [pushed] ==> EntryOk(weight, h, start, x)
    ensures |q + [pushed]| >= |queue| && (q + [pushed])[..|queue|] == queue
    ensures forall x :: x in (q + [pushed])[|queue|..] ==>
              && Improves(weight, e, visited, gScores, x.node) && x.node !in todo - {neighbour}
              && x.path == e.path + [x.node] && x.g == e.g + weight[e.node][x.node]
              && x.node in g[neighbour := pushed.g] && g[neighbour := pushed.g][x.node] == x.g
  {
    ExtendPath(weight, e.path, neighbour);
    EdgeEndsAreNodes(weight, e.node, neighbour);
    PushKeeps(queue, q, pushed);
  }

  /** The g-score part of PushRelaxed. */
  lemma PushScores(weight: Weights, h: int -> real, start: int, e: Entry, visited: set<int>,
                   gScores: map<int, real>, queue: seq<Entry>, todo: set<int>, neighbour: int,
                   g: map<int, real>, q: seq<Entry>, pushed: Entry)
    requires neighbour in todo && Improves(weight, e, visited, gScores, neighbour)
    requires pushed.node == neighbour && pushed.g == e.g + weight[e.node][neighbour]
    requires |q| >= |queue|
    requires Relaxed(weight, h, start, e, visited, gScores, queue, todo, g, q)
    ensures var g', q', todo' := g[neighbour := pushed.g], q + [pushed], todo - {neighbour};
      && (forall v :: v in todo' || !Improves(weight, e, visited, gScores, v) ==>
            (v in g' <==> v in gScores) && (v in gScores ==> g'[v] == gScores[v]))
      && (forall v :: Improves(weight, e, visited, gScores, v) && v !in todo' ==>
            v in g' && g'[v] == e.g + weight[e.node][v] && InQueue(q'[|queue|..], v))
      && (forall v :: v in g' ==> v in gScores || InQueue(q', v))
      && (forall v :: IsEdge(weight, e.node, v) && v !in todo' ==> v in visited || v in g')
  {
    var q' := q + [pushed];
    assert q'[|queue|..] == q[|queue|..] + [pushed];
    assert pushed in q'[|queue|..];
    forall v | InQueue(q, v) ensures InQueue(q', v) {
      var x :| x in q && x.node == v;
      assert x in q';
    }
    forall v | InQueue(q[|queue|..], v) ensures InQueue(q'[|queue|..], v) {
      var x :| x in q[|queue|..] && x.node == v;
      assert x in q'[|queue|..];
    }
  }

  /** One turn of the neighbour loop: an unvisited neighbour whose tentative
      g-score is new or better gets it and a queue entry extending the path. */
  method Relax(weight: Weights, h: int -> real, start: int, e: Entry, visited: set<int>,
               gScores: map<int, real>, queue: seq<Entry>, todo: set<int>, neighbour: int,
               g: map<int, real>, q: seq<Entry>)
    returns (g': map<int, real>, q': seq<Entry>)
    requires EntryOk(weight, h, start, e)
    requires neighbour in todo && IsEdge(weight, e.node, neighbour)
    requires Relaxed(weight, h, start, e, visited, gScores, queue, todo, g, q)
    ensures Relaxed(weight, h, start, e, visited, gScores, queue, todo - {neighbour}, g', q')
  {
    g', q' := g, q;
    if neighbour !in visited {
      var tentative := e.g + weight[e.node][neighbour];
      if neighbour !in g || tentative < g[neighbour] {
        var pushed := Entry(tentative + h(neighbour), tentative, neighbour, e.path + [neighbour]);
        PushRelaxed(weight, h, start, e, visited, gScores, queue, todo, neighbour, g, q, pushed);
        g' := g[neighbour := tentative];
        q' := q + [pushed];
        return;
      }
    }
    SkipKeeps(weight, h, start, e, visited, gScores, queue, todo, neighbour, g, q);
  }

  /** The loop over the neighbours of an expanded node: every neighbour not
      yet visited whose tentative g-score is new or better gets that score
      and a queue entry whose path extends the expanded entry's path; every
      other g-score stays. The neighbours are taken in no particular order;
      the scores and the entries pushed do not depend on it. */
  method Expand(weight: Weights, h: int -> real, start: int, end: int, e: Entry, visited: set<int>,
                gScores: map<int, real>, queue: seq<Entry>)
    returns (gScores': map<int, real>, queue': seq<Entry>)
    requires EntryOk(weight, h, start, e) && e.node in visited
    requires forall x :: x in queue ==> EntryOk(weight, h, start, x)
    requires visited <= Nodes(weight) && end !in visited && start in gScores
    requires forall v :: v in gScores ==> v in visited || InQueue(queue, v)
    requires forall u, v :: u in visited && u != e.node && IsEdge(weight, u, v) ==> v in visited || v in gScores
    ensures Searching(weight, h, start, end, queue', visited, gScores')
    ensures |queue'| >= |queue| && queue'[..|queue|] == queue
    ensures forall v :: Improves(weight, e, visited, gScores, v) ==>
              v in gScores' && gScores'[v] == e.g + weight[e.node][v] && InQueue(queue'[|queue|..], v)
    ensures forall v :: !Improves(weight, e, visited, gScores, v) ==>
              (v in gScores' <==> v in gScores) && (v in gScores ==> gScores'[v] == gScores[v])
    ensures forall x :: x in queue'[|queue|..] ==>
              && Improves(weight, e, visited, gScores, x.node)
              && x.path == e.path + [x.node] && x.g == e.g + weight[e.node][x.node]
              && x.node in gScores' && gScores'[x.node] == x.g
  {
    gScores' := gScores;
    queue' := queue;
    var todo := if e.node in weight then weight[e.node].Keys else {};
    assert queue[|queue|..] == [];
    while todo != {}
      invariant forall v :: v in todo ==> IsEdge(weight, e.node, v)
      invariant Relaxed(weight, h, start, e, visited, gScores, queue, todo, gScores', queue')
      decreases |todo|
    {
      ghost var some := Pick(todo);
      var neighbour :| neighbour in todo;
      gScores', queue' := Relax(weight, h, start, e, visited, gScores, queue, todo, neighbour, gScores', queue');
      todo := todo - {neighbour};
    }
    forall v | InQueue(queue, v)
      ensures InQueue(queue', v)
    {
      var x :| x in queue && x.node == v;
      assert x in queue'[..|queue|];
    }
  }

  /** One turn of the main loop: pop the least entry; return its path when
      it is for `end`; skip it when its node is visited; otherwise mark the
      node visited (and expanded) and expand it. The state is kept, and the
      turn makes progress: a new visited node, or a shorter queue. */
  method Step(weight: Weights, h: int -> real, start: int, end: int, queue: seq<Entry>,
              visited: set<int>, gScores: map<int, real>, ghost expanded: seq<int>)
    returns (found: Option<seq<int>>, queue': seq<Entry>, visited': set<int>, gScores': map<int, real>,
             ghost expanded': seq<int>)
    requires queue != [] && Searching(weight, h, start, end, queue, visited, gScores)
    requires Distinct(expanded) && forall n :: n in expanded <==> n in visited
    ensures found.Some? ==> PathFromTo(weight, found.value, start, end)
    ensures start == end && queue == [Entry(h(start), 0.0, start, [start])] ==> found == Some([start])
    ensures Distinct(expanded') && (forall n :: n in expanded' <==> n in visited')
    ensures visited <= visited' <= Nodes(weight) && end !in visited'
    ensures found.None? ==>
              && Searching(weight, h, start, end, queue', visited', gScores')
              && (visited' == visited ==> |queue'| < |queue|)
  {
    var e, rest := Pop(queue);
    if e.node == end {
      found := Some(e.path);
      queue', visited', gScores', expanded' := rest, visited, gScores, expanded;
      return;
    }
    found := None;
    PopKeeps(weight, h, start, end, queue, visited, gScores, e, rest);
    if e.node in visited {
      queue', visited', gScores', expanded' := rest, visited, gScores, expanded;
      return;
    }
    visited' := visited + {e.node};
    expanded' := expanded + [e.node];
    gScores', queue' := Expand(weight, h, start, end, e, visited', gScores, rest);
  }

  /** astar(start, end): None when either end has no outgoing edges (is not a
      key of `weight`); otherwise the path of the first entry for `end` taken
      from the queue, or None once the queue is empty. A returned path is a
      path of the graph from start to end; None means end is unreachable.
      `expanded` lists the nodes expanded, each once, never `end`. */
  method Astar(weight: Weights, h: int -> real, start: int, end: int)
    returns (path: Option<seq<int>>, ghost expanded: seq<int>)
    ensures start !in weight || end !in weight ==> path.None?
    ensures path.Some? ==> PathFromTo(weight, path.value, start, end)
    ensures start in weight && end in weight ==> (path.Some? <==> Reachable(weight, start, end))
    ensures start == end && start in weight ==> path == Some([start])
    ensures Distinct(expanded) && forall n :: n in expanded ==> n in Nodes(weight) && n != end
  {
    expanded := [];
    if start !in weight || end !in weight {
      return None, expanded;
    }
    var queue := [Entry(h(start), 0.0, start, [start])];
    var visited: set<int> := {};
    var gScores: map<int, real> := map[start := 0.0];
    assert InQueue(queue, start) by {
      assert queue[0] in queue;
    }
    ghost var nodes := Nodes(weight);
    while queue != []
      invariant Searching(weight, h, start, end, queue, visited, gScores)
      invariant Distinct(expanded) && forall n :: n in expanded <==> n in visited
      invariant start == end ==> queue == [Entry(h(start), 0.0, start, [start])]
      decreases |nodes - visited|, |queue|
    {
      var found;
      ghost var before := visited;
      found, queue, visited, gScores, expanded := Step(weight, h, start, end, queue, visited, gScores, expanded);
      if found.Some? {
        return found, expanded;
      }
      if visited != before {
        FewerLeft(nodes, before, visited);
      }
    }
    ClosedSetBlocks(weight, visited, start, end);
    return None, expanded;
  }
}
