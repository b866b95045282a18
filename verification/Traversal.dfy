/** The three breadth-first walks of a directory tree: FindFiles with a queue of
    directories and FindFilesParallel layer by layer (files.cpp), and walk_files
    (src/files.rs). The tree is finite and free of links. */
module Traversal {
  import opened Wrappers

  type Path = seq<string>

  datatype Kind = Regular | Directory | Unsupported

  /** A directory entry as the file system reports it. `size` is None where file_size
      fails, as it may for directories; `statusFails` where status does. */
  datatype Node = Node(name: string, kind: Kind, size: Option<nat>, time: int, statusFails: bool, children: seq<Node>)

  datatype Located = At(path: Path, node: Node)

  // ---- What one folder contributes ----

  predicate IsFolder(n: Node) {
    !n.statusFails && n.kind == Directory
  }

  /** DirItemToFileInfo returns without announcing when the size cannot be read. */
  predicate IsAnnounced(n: Node) {
    !n.statusFails && (n.kind == Directory || n.kind == Regular) && n.size.Some?
  }

  function Select(path: Path, nodes: seq<Node>, which: Node -> bool): (r: seq<Located>)
    ensures forall x <- r :: which(x.node) && x.path == path + [x.node.name]
    ensures |r| <= |nodes|
  {
    if nodes == [] then []
    else (if which(nodes[0]) then [At(path + [nodes[0].name], nodes[0])] else []) + Select(path, nodes[1..], which)
  }

  function Folders(d: Located): seq<Located> {
    Select(d.path, d.node.children, IsFolder)
  }

  function Announced(d: Located): seq<Located> {
    Select(d.path, d.node.children, IsAnnounced)
  }

  function AllFolders(ds: seq<Located>): seq<Located> {
    if ds == [] then [] else Folders(ds[0]) + AllFolders(ds[1..])
  }

  function AllAnnounced(ds: seq<Located>): seq<Located> {
    if ds == [] then [] else Announced(ds[0]) + AllAnnounced(ds[1..])
  }

  lemma {:induction false} AllFoldersAppend(a: seq<Located>, b: seq<Located>)
    ensures AllFolders(a + b) == AllFolders(a) + AllFolders(b)
  {
    if a == [] {
      assert a + b == b;
    } else {
      assert (a + b)[1..] == a[1..] + b;
      AllFoldersAppend(a[1..], b);
    }
  }

  lemma {:induction false} AllAnnouncedAppend(a: seq<Located>, b: seq<Located>)
    ensures AllAnnounced(a + b) == AllAnnounced(a) + AllAnnounced(b)
  {
    if a == [] {
      assert a + b == b;
    } else {
      assert (a + b)[1..] == a[1..] + b;
      AllAnnouncedAppend(a[1..], b);
    }
  }

  // ---- Termination: nodes in unexplored subtrees ----

  function Weight(n: Node): nat
    decreases n, 1
  {
    1 + WeightAll(n.children)
  }

  function WeightAll(nodes: seq<Node>): nat
    decreases nodes, 0
  {
    if nodes == [] then 0 else Weight(nodes[0]) + WeightAll(nodes[1..])
  }

  function Unexplored(ds: seq<Located>): nat {
    if ds == [] then 0 else Weight(ds[0].node) + Unexplored(ds[1..])
  }

  lemma {:induction false} UnexploredAppend(a: seq<Located>, b: seq<Located>)
    ensures Unexplored(a + b) == Unexplored(a) + Unexplored(b)
  {
    if a == [] {
      assert a + b == b;
    } else {
      assert (a + b)[1..] == a[1..] + b;
      UnexploredAppend(a[1..], b);
    }
  }

  lemma {:induction false} SelectedWeight(path: Path, nodes: seq<Node>, which: Node -> bool)
    ensures Unexplored(Select(path, nodes, which)) <= WeightAll(nodes)
  {
    if nodes != [] {
      SelectedWeight(path, nodes[1..], which);
      var head := if which(nodes[0]) then [At(path + [nodes[0].name], nodes[0])] else [];
      UnexploredAppend(head, Select(path, nodes[1..], which));
    }
  }

  lemma FoldersAreLighter(d: Located)
    ensures Unexplored(Folders(d)) < Weight(d.node)
  {
    SelectedWeight(d.path, d.node.children, IsFolder);
  }

  lemma {:induction false} LayersGetLighter(ds: seq<Located>)
    ensures Unexplored(AllFolders(ds)) + |ds| <= Unexplored(ds)
  {
    if ds != [] {
      FoldersAreLighter(ds[0]);
      LayersGetLighter(ds[1..]);
      UnexploredAppend(Folders(ds[0]), AllFolders(ds[1..]));
    }
  }

  lemma QueueGetsLighter(queue: seq<Located>)
    requires queue != []
    ensures Unexplored(queue[1..] + Folders(queue[0])) < Unexplored(queue)
  {
    FoldersAreLighter(queue[0]);
    UnexploredAppend(queue[1..], Folders(queue[0]));
  }

  // ---- Three descriptions of the order in which directories are visited ----

  /** The queue of FindFiles: take from the front, add subdirectories at the back. */
  function Queued(queue: seq<Located>): seq<Located>
    decreases Unexplored(queue)
  {
    if queue == [] then []
    else
      QueueGetsLighter(queue);
      [queue[0]] + Queued(queue[1..] + Folders(queue[0]))
  }

  /** The layers of FindFilesParallel, one after the other. */
  function Layered(layer: seq<Located>): seq<Located>
    decreases Unexplored(layer)
  {
    if layer == [] then []
    else
      LayersGetLighter(layer);
      layer + Layered(AllFolders(layer))
  }

  /** The directories exactly `depth` levels below `d`, from left to right. */
  function AtDepth(d: Located, depth: nat): seq<Located>
    decreases depth, 0
  {
    if depth == 0 then [d] else AllAtDepth(Folders(d), depth - 1)
  }

  function AllAtDepth(ds: seq<Located>, depth: nat): seq<Located>
    decreases depth, 1, |ds|
  {
    if ds == [] then [] else AtDepth(ds[0], depth) + AllAtDepth(ds[1..], depth)
  }

  /** Level order, by definition: depth 0, then depth 1, and so on below `height`. */
  function LevelOrder(ds: seq<Located>, from: nat, height: nat): seq<Located>
    requires from <= height
    decreases height - from
  {
    if from == height then [] else AllAtDepth(ds, from) + LevelOrder(ds, from + 1, height)
  }

  lemma {:induction false} QueuedSplit(a: seq<Located>, b: seq<Located>)
    ensures Queued(a + b) == a + Queued(b + AllFolders(a))
    decreases |a|
  {
    if a == [] {
      assert a + b == b && b + AllFolders(a) == b && a + Queued(b) == Queued(b);
    } else {
      QueuedSplit(a[1..], b + Folders(a[0]));
      Rotate(a, b, Folders(a[0]), AllFolders(a[1..]), Queued(b + AllFolders(a)));
    }
  }

  lemma Rotate(a: seq<Located>, b: seq<Located>, c: seq<Located>, d: seq<Located>, e: seq<Located>)
    requires a != []
    ensures (a + b)[0] == a[0] && (a + b)[1..] + c == a[1..] + (b + c)
    ensures (b + c) + d == b + (c + d)
    ensures [a[0]] + (a[1..] + e) == a + e
  {
  }

  /** The layered search visits the directories in exactly the order of the queue. */
  lemma {:induction false} LayeredIsQueued(layer: seq<Located>)
    ensures Layered(layer) == Queued(layer)
    decreases Unexplored(layer)
  {
    if layer != [] {
      LayersGetLighter(layer);
      LayeredIsQueued(AllFolders(layer));
      QueuedSplit(layer, []);
      assert layer + [] == layer && [] + AllFolders(layer) == AllFolders(layer);
    }
  }

  lemma {:induction false} AllAtDepthAppend(a: seq<Located>, b: seq<Located>, depth: nat)
    ensures AllAtDepth(a + b, depth) == AllAtDepth(a, depth) + AllAtDepth(b, depth)
  {
    if a == [] {
      assert a + b == b;
    } else {
      assert (a + b)[1..] == a[1..] + b;
      AllAtDepthAppend(a[1..], b, depth);
    }
  }

  lemma {:induction false} DeeperIsNextLayer(ds: seq<Located>, depth: nat)
    ensures AllAtDepth(ds, depth + 1) == AllAtDepth(AllFolders(ds), depth)
  {
    if ds != [] {
      DeeperIsNextLayer(ds[1..], depth);
      AllAtDepthAppend(Folders(ds[0]), AllFolders(ds[1..]), depth);
    }
  }

  lemma {:induction false} DepthZero(ds: seq<Located>)
    ensures AllAtDepth(ds, 0) == ds
  {
    if ds != [] {
      DepthZero(ds[1..]);
    }
  }

  lemma {:induction false} NextLayerLevels(ds: seq<Located>, from: nat, height: nat)
    requires from <= height
    ensures LevelOrder(ds, from + 1, height + 1) == LevelOrder(AllFolders(ds), from, height)
    decreases height - from
  {
    if from < height {
      DeeperIsNextLayer(ds, from);
      NextLayerLevels(ds, from + 1, height);
    }
  }

  /** Both are the level order of the tree, whatever bound on its height is used. */
  lemma {:induction false} QueuedIsLevelOrder(ds: seq<Located>, height: nat)
    requires height >= Unexplored(ds)
    ensures Queued(ds) == LevelOrder(ds, 0, height)
    decreases height
  {
    if ds == [] {
      NothingAtAnyDepth(0, height);
    } else {
      LayersGetLighter(ds);
      QueuedIsLevelOrder(AllFolders(ds), height - 1);
      LayeredIsQueued(ds);
      LayeredIsQueued(AllFolders(ds));
      NextLayerLevels(ds, 0, height - 1);
      DepthZero(ds);
    }
  }

  lemma {:induction false} NothingAtAnyDepth(from: nat, height: nat)
    requires from <= height
    ensures LevelOrder([], from, height) == []
    decreases height - from
  {
    if from < height {
      NothingAtAnyDepth(from + 1, height);
    }
  }

  /** Everything in the queue gets visited, and so do the folders of what is visited. */
  lemma QueueIsVisited(queue: seq<Located>)
    ensures Queued(queue) == queue + Queued(AllFolders(queue))
    ensures forall d <- queue :: d in Queued(queue)
  {
    QueuedSplit(queue, []);
    assert queue + [] == queue && [] + AllFolders(queue) == AllFolders(queue);
  }

  lemma {:induction false} FoldersAreVisited(queue: seq<Located>, d: Located)
    requires d in Queued(queue)
    ensures forall f <- Folders(d) :: f in Queued(queue)
    decreases Unexplored(queue)
  {
    QueueGetsLighter(queue);
    var next := queue[1..] + Folders(queue[0]);
    if d == queue[0] {
      QueueIsVisited(next);
    } else {
      FoldersAreVisited(next, d);
    }
  }

  // ---- Paths identify entries ----

  predicate DistinctNames(nodes: seq<Node>) {
    forall i, j :: 0 <= i < j < |nodes| ==> nodes[i].name != nodes[j].name
  }

  /** No folder holds two entries of one name. */
  predicate WellNamed(n: Node)
    decreases n, 1
  {
    DistinctNames(n.children) && AllWellNamed(n.children)
  }

  predicate AllWellNamed(nodes: seq<Node>)
    decreases nodes, 0
  {
    nodes == [] || (WellNamed(nodes[0]) && AllWellNamed(nodes[1..]))
  }

  predicate DistinctPaths(xs: seq<Located>) {
    forall i, j :: 0 <= i < j < |xs| ==> xs[i].path != xs[j].path
  }

  function Parent(p: Path): Path
    requires p != []
  {
    p[..|p| - 1]
  }

  predicate HasPath(xs: seq<Located>, p: Path) {
    exists i :: 0 <= i < |xs| && xs[i].path == p
  }

  lemma {:induction false} SelectedAreNamed(path: Path, nodes: seq<Node>, which: Node -> bool)
    requires DistinctNames(nodes) && AllWellNamed(nodes)
    ensures DistinctPaths(Select(path, nodes, which))
    ensures forall x <- Select(path, nodes, which) :: WellNamed(x.node) && x.node in nodes
  {
    if nodes != [] {
      SelectedAreNamed(path, nodes[1..], which);
      var tail := Select(path, nodes[1..], which);
      forall x <- tail ensures x.path != path + [nodes[0].name] {
        var k :| 0 <= k < |nodes[1..]| && nodes[1..][k] == x.node;
        assert nodes[k + 1] == x.node;
        assert x.path[|path|] == x.node.name;
      }
    }
  }

  lemma ChildParent(path: Path, name: string)
    ensures Parent(path + [name]) == path
  {
  }

  /** The walk so far: no path twice, and each entry but the root found in a folder that
      has already been processed. */
  predicate VisitInv(root: Located, done: seq<Located>, queue: seq<Located>) {
    DistinctPaths(done + queue) && AllGrounded(root, done, done + queue)
  }

  predicate Grounded(root: Located, done: seq<Located>, d: Located) {
    WellNamed(d.node) && (d == root || (|d.path| > |root.path| && HasPath(done, Parent(d.path))))
  }

  predicate AllGrounded(root: Located, done: seq<Located>, xs: seq<Located>) {
    forall d <- xs :: Grounded(root, done, d)
  }

  lemma HeadIsUnvisited(done: seq<Located>, queue: seq<Located>)
    requires DistinctPaths(done + queue) && queue != []
    ensures !HasPath(done, queue[0].path)
  {
    forall i | 0 <= i < |done| ensures done[i].path != queue[0].path {
      assert (done + queue)[i] == done[i] && (done + queue)[|done|] == queue[0];
    }
  }

  lemma NewPathsAreNew(root: Located, done: seq<Located>, queue: seq<Located>)
    requires VisitInv(root, done, queue) && queue != []
    ensures forall e <- done + queue, f <- Folders(queue[0]) :: e.path != f.path
  {
    var d := queue[0];
    HeadIsUnvisited(done, queue);
    assert d in done + queue;
    forall e <- done + queue, f <- Folders(d) ensures e.path != f.path {
      ChildParent(d.path, f.node.name);
    }
  }

  lemma StillHasPath(done: seq<Located>, more: seq<Located>, p: Path)
    requires HasPath(done, p) || HasPath(more, p)
    ensures HasPath(done + more, p)
  {
    if HasPath(done, p) {
      var i :| 0 <= i < |done| && done[i].path == p;
      assert (done + more)[i] == done[i];
    } else {
      var i :| 0 <= i < |more| && more[i].path == p;
      assert (done + more)[|done| + i] == more[i];
    }
  }

  lemma FoundAreGrounded(root: Located, done: seq<Located>, d: Located)
    requires WellNamed(d.node) && |d.path| >= |root.path|
    ensures AllGrounded(root, done + [d], Folders(d)) && DistinctPaths(Folders(d))
  {
    SelectedAreNamed(d.path, d.node.children, IsFolder);
    assert [d][0] == d;
    StillHasPath(done, [d], d.path);
    forall f <- Folders(d) ensures Grounded(root, done + [d], f) {
      ChildParent(d.path, f.node.name);
    }
  }

  lemma StillGrounded(root: Located, done: seq<Located>, d: Located, xs: seq<Located>)
    requires AllGrounded(root, done, xs)
    ensures AllGrounded(root, done + [d], xs)
  {
    forall e <- xs ensures Grounded(root, done + [d], e) {
      if e != root {
        StillHasPath(done, [d], Parent(e.path));
      }
    }
  }

  lemma VisitStep(root: Located, done: seq<Located>, queue: seq<Located>)
    requires VisitInv(root, done, queue) && queue != []
    ensures VisitInv(root, done + [queue[0]], queue[1..] + Folders(queue[0]))
  {
    var d, known, found := queue[0], done + queue, Folders(queue[0]);
    assert d in known;
    NewPathsAreNew(root, done, queue);
    hide DistinctPaths, WellNamed, HasPath;
    FoundAreGrounded(root, done, d);
    StillGrounded(root, done, d, known);
    DistinctJoin(known, found);
    assert (done + [d]) + (queue[1..] + found) == known + found;
  }

  lemma DistinctJoin(a: seq<Located>, b: seq<Located>)
    requires DistinctPaths(a) && DistinctPaths(b)
    requires forall x <- a, y <- b :: x.path != y.path
    ensures DistinctPaths(a + b)
  {
  }

  lemma Regroup(a: seq<Located>, d: Located, b: seq<Located>)
    ensures a + ([d] + b) == (a + [d]) + b
  {
  }

  lemma {:induction false} VisitedOnce(root: Located, done: seq<Located>, queue: seq<Located>)
    requires VisitInv(root, done, queue)
    ensures DistinctPaths(done + Queued(queue))
    ensures forall d <- done + Queued(queue) :: WellNamed(d.node) && (d == root || |d.path| > |root.path|)
    decreases Unexplored(queue)
  {
    if queue != [] {
      var next := queue[1..] + Folders(queue[0]);
      QueueGetsLighter(queue);
      VisitStep(root, done, queue);
      VisitedOnce(root, done + [queue[0]], next);
      Regroup(done, queue[0], Queued(next));
    }
  }

  lemma DirectoriesAreDistinct(root: Located)
    requires WellNamed(root.node)
    ensures DistinctPaths(Queued([root]))
    ensures forall d <- Queued([root]) :: WellNamed(d.node) && (d == root || |d.path| > |root.path|)
  {
    assert [] + [root] == [root];
    VisitedOnce(root, [], [root]);
    assert [] + Queued([root]) == Queued([root]);
  }

  lemma {:induction false} AnnouncedIn(ds: seq<Located>, x: Located)
    ensures x in AllAnnounced(ds) <==> exists d :: d in ds && x in Announced(d)
  {
    if ds != [] {
      AnnouncedIn(ds[1..], x);
    }
  }

  lemma {:induction false} AnnouncedAreDistinct(ds: seq<Located>)
    requires DistinctPaths(ds) && forall d <- ds :: WellNamed(d.node)
    ensures DistinctPaths(AllAnnounced(ds))
    ensures forall x <- AllAnnounced(ds) :: x.path != [] && HasPath(ds, Parent(x.path))
  {
    if ds != [] {
      var d := ds[0];
      AnnouncedAreDistinct(ds[1..]);
      SelectedAreNamed(d.path, d.node.children, IsAnnounced);
      forall x <- Announced(d) ensures x.path != [] && Parent(x.path) == d.path {
        ChildParent(d.path, x.node.name);
      }
      forall y <- AllAnnounced(ds[1..]) ensures Parent(y.path) != d.path && HasPath(ds, Parent(y.path)) {
        var i :| 0 <= i < |ds[1..]| && ds[1..][i].path == Parent(y.path);
        assert ds[i + 1].path == Parent(y.path);
      }
      DistinctJoin(Announced(d), AllAnnounced(ds[1..]));
    }
  }
}
