/** What the walks announce: ids, records, and the order of parents and children. */
module FindFiles {
  import opened Traversal
  import opened Wrappers

  /** Ticks of the file clock in a second. */
  const TICKS: nat := 10_000_000

  datatype Record = Record(id: nat, path: Path, kind: Kind, size: nat, seconds: int)

  /** time_point_cast to whole seconds, which truncates towards zero. */
  function Seconds(time: int): (s: int)
    ensures time >= 0 ==> s * TICKS <= time < (s + 1) * TICKS
    ensures time <= 0 ==> (s - 1) * TICKS < time <= s * TICKS
  {
    if time >= 0 then time / TICKS else -((-time) / TICKS)
  }

  function ToRecord(id: nat, x: Located): Record
    requires IsAnnounced(x.node)
  {
    Record(id, x.path, x.node.kind, x.node.size.value, Seconds(x.node.time))
  }

  predicate AllSized(xs: seq<Located>) {
    forall x <- xs :: IsAnnounced(x.node)
  }

  /** Consecutive ids from the counter's value on. */
  function Numbered(counter: nat, xs: seq<Located>): (r: seq<Record>)
    requires AllSized(xs)
    ensures |r| == |xs|
    ensures forall i :: 0 <= i < |xs| ==> r[i] == ToRecord(counter + 1 + i, xs[i])
  {
    seq(|xs|, i requires 0 <= i < |xs| => ToRecord(counter + 1 + i, xs[i]))
  }

  /** Every record tells the path, kind and size of its entry, and its time without the
      fraction of a second, rounded towards zero. */
  lemma RecordTellsEntry(counter: nat, xs: seq<Located>, i: nat)
    requires AllSized(xs) && i < |xs|
    ensures var r, n := Numbered(counter, xs)[i], xs[i].node;
            && r.id == counter + 1 + i && r.path == xs[i].path && r.kind == n.kind && Some(r.size) == n.size
            && (n.time >= 0 ==> r.seconds * TICKS <= n.time < r.seconds * TICKS + TICKS)
            && (n.time <= 0 ==> r.seconds * TICKS - TICKS < n.time <= r.seconds * TICKS)
  {
    assert Numbered(counter, xs)[i] == ToRecord(counter + 1 + i, xs[i]);
  }

  // ---- What is announced ----

  /** `x` is somewhere below a folder at `path` with these entries, reached through
      directories whose status can be read. */
  predicate Below(path: Path, nodes: seq<Node>, x: Located)
    decreases nodes
  {
    nodes != [] &&
    (|| x == At(path + [nodes[0].name], nodes[0])
     || (nodes[0].kind == Directory && !nodes[0].statusFails && Below(path + [nodes[0].name], nodes[0].children, x))
     || Below(path, nodes[1..], x))
  }

  lemma {:induction false} BelowChild(path: Path, nodes: seq<Node>, n: Node, x: Located)
    requires n in nodes && (x == At(path + [n.name], n) || (IsFolder(n) && Below(path + [n.name], n.children, x)))
    ensures Below(path, nodes, x)
    decreases |nodes|
  {
    if n != nodes[0] {
      BelowChild(path, nodes[1..], n, x);
    }
  }

  lemma {:induction false} SelectsExactly(path: Path, nodes: seq<Node>, which: Node -> bool, x: Located)
    ensures x in Select(path, nodes, which) <==> x.node in nodes && which(x.node) && x.path == path + [x.node.name]
  {
    if nodes != [] {
      SelectsExactly(path, nodes[1..], which, x);
    }
  }

  /** What is below a folder is one of its entries, or below one of its folders. */
  lemma {:induction false} BelowStep(path: Path, nodes: seq<Node>, x: Located) returns (n: Node)
    requires Below(path, nodes, x)
    ensures n in nodes && (x == At(path + [n.name], n) || (IsFolder(n) && Below(path + [n.name], n.children, x)))
    decreases |nodes|
  {
    n := nodes[0];
    if x != At(path + [n.name], n) && !(IsFolder(n) && Below(path + [n.name], n.children, x)) {
      n := BelowStep(path, nodes[1..], x);
    }
  }

  lemma {:induction false} BelowIsVisited(queue: seq<Located>, d: Located, x: Located)
    requires d in Queued(queue) && Below(d.path, d.node.children, x)
    ensures exists e :: e in Queued(queue) && x.node in e.node.children && x.path == e.path + [x.node.name]
    decreases d.node
  {
    var n := BelowStep(d.path, d.node.children, x);
    if x == At(d.path + [n.name], n) {
      assert d in Queued(queue);
    } else {
      var f := At(d.path + [n.name], n);
      SelectsExactly(d.path, d.node.children, IsFolder, f);
      FoldersAreVisited(queue, d);
      ChildIsSmaller(d.node, n);
      BelowIsVisited(queue, f, x);
    }
  }

  lemma ChildIsSmaller(d: Node, n: Node)
    requires n in d.children
    ensures n < d
  {
  }

  ghost predicate BelowSome(queue: seq<Located>, x: Located) {
    exists d :: d in queue && Below(d.path, d.node.children, x)
  }

  lemma {:induction false} VisitedIsBelow(queue: seq<Located>, e: Located, x: Located)
    requires e in Queued(queue) && x.node in e.node.children && x.path == e.path + [x.node.name]
    ensures BelowSome(queue, x)
    decreases Unexplored(queue)
  {
    if e == queue[0] {
      BelowChild(e.path, e.node.children, x.node, x);
    } else {
      var next := queue[1..] + Folders(queue[0]);
      QueueGetsLighter(queue);
      VisitedIsBelow(next, e, x);
      var d :| d in next && Below(d.path, d.node.children, x);
      if d in Folders(queue[0]) {
        SelectsExactly(queue[0].path, queue[0].node.children, IsFolder, d);
        BelowChild(queue[0].path, queue[0].node.children, d.node, x);
      }
    }
  }

  /** FindFiles announces exactly the files and directories, with a status and a size that
      can be read, that are somewhere below the root, and the root itself if it has a name
      to be announced by. */
  lemma FoundExactly(root: Located, x: Located)
    requires IsFolder(root.node)
    ensures x in Found(root) <==>
              && !x.node.statusFails && x.node.kind != Unsupported && x.node.size.Some?
              && (Below(root.path, root.node.children, x) || (x == root && root.path != []))
  {
    var ds := Queued([root]);
    QueueIsVisited([root]);
    AnnouncedIn(ds, x);
    if x in AllAnnounced(ds) {
      var e :| e in ds && x in Announced(e);
      SelectsExactly(e.path, e.node.children, IsAnnounced, x);
      VisitedIsBelow([root], e, x);
    }
    if IsAnnounced(x.node) && Below(root.path, root.node.children, x) {
      BelowIsVisited([root], root, x);
      var e :| e in ds && x.node in e.node.children && x.path == e.path + [x.node.name];
      SelectsExactly(e.path, e.node.children, IsAnnounced, x);
    }
  }

  // ---- Parents before children ----

  predicate ListsFolder(xs: seq<Located>, p: Path) {
    exists i :: 0 <= i < |xs| && xs[i].path == p && xs[i].node.kind == Directory
  }

  /** Every entry but those directly below the base follows its own directory. */
  predicate ParentsFirst(xs: seq<Located>) {
    forall i :: 0 <= i < |xs| ==>
      xs[i].path != [] && (Parent(xs[i].path) == [] || ListsFolder(xs[..i], Parent(xs[i].path)))
  }

  /** FindFiles on a root with a stem, which it announces first, or without one. */
  function RootOf(node: Node, hasStem: bool): Located {
    At(if hasStem then [node.name] else [], node)
  }

  function RootEntry(root: Located): (r: seq<Located>)
    ensures |r| <= 1 && AllSized(r)
  {
    if root.path != [] && root.node.size.Some? && IsAnnounced(root.node) then [root] else []
  }

  /** The announcements of FindFiles, in order. */
  function Found(root: Located): seq<Located> {
    RootEntry(root) + AllAnnounced(Queued([root]))
  }

  /** Every visited directory that has anything to announce was announced itself. */
  predicate FoldersAreSized(ds: seq<Located>) {
    forall d <- ds :: Announced(d) != [] && d.path != [] ==> d.node.size.Some?
  }

  lemma {:induction false} FoldersInQueue(queue: seq<Located>, d: Located)
    requires d in Queued(queue)
    requires forall q <- queue :: IsFolder(q.node)
    ensures IsFolder(d.node)
    decreases Unexplored(queue)
  {
    if d != queue[0] {
      QueueGetsLighter(queue);
      FoldersInQueue(queue[1..] + Folders(queue[0]), d);
    }
  }

  lemma ListedLater(xs: seq<Located>, more: seq<Located>, p: Path)
    requires ListsFolder(xs, p)
    ensures ListsFolder(xs + more, p)
  {
    var i :| 0 <= i < |xs| && xs[i].path == p && xs[i].node.kind == Directory;
    assert (xs + more)[i] == xs[i];
  }

  lemma ListedMember(xs: seq<Located>, x: Located)
    requires x in xs && x.node.kind == Directory
    ensures ListsFolder(xs, x.path)
  {
  }

  lemma ParentsFirstAppend(xs: seq<Located>, more: seq<Located>)
    requires ParentsFirst(xs)
    requires forall x <- more :: x.path != [] && (Parent(x.path) == [] || ListsFolder(xs, Parent(x.path)))
    ensures ParentsFirst(xs + more)
  {
    forall i | 0 <= i < |xs + more|
      ensures (xs + more)[i].path != []
      ensures var p := Parent((xs + more)[i].path); p == [] || ListsFolder((xs + more)[..i], p)
    {
      if i < |xs| {
        assert (xs + more)[..i] == xs[..i];
      } else {
        assert (xs + more)[..i] == xs + more[..i - |xs|];
        var p := Parent(more[i - |xs|].path);
        if p != [] {
          ListedLater(xs, more[..i - |xs|], p);
        }
      }
    }
  }

  lemma {:induction false} SelectIn(path: Path, nodes: seq<Node>, a: Node -> bool, b: Node -> bool, x: Located)
    requires x in Select(path, nodes, a) && b(x.node)
    ensures x in Select(path, nodes, b)
  {
    if nodes != [] && x in Select(path, nodes[1..], a) {
      SelectIn(path, nodes[1..], a, b, x);
    }
  }

  predicate Listed(out: seq<Located>, d: Located) {
    Announced(d) != [] && d.path != [] ==> ListsFolder(out, d.path)
  }

  lemma AnnouncedFollow(out: seq<Located>, d: Located)
    requires ParentsFirst(out) && Listed(out, d)
    ensures ParentsFirst(out + Announced(d))
  {
    forall x <- Announced(d) ensures x.path != [] && (Parent(x.path) == [] || ListsFolder(out, Parent(x.path))) {
      ChildParent(d.path, x.node.name);
    }
    ParentsFirstAppend(out, Announced(d));
  }

  lemma FoldersGetListed(out: seq<Located>, d: Located)
    requires forall f <- Folders(d) :: Announced(f) != [] && f.path != [] ==> f.node.size.Some?
    ensures forall f <- Folders(d) :: Listed(out + Announced(d), f)
  {
    forall f <- Folders(d) ensures Listed(out + Announced(d), f) {
      if Announced(f) != [] && f.path != [] {
        SelectIn(d.path, d.node.children, IsFolder, IsAnnounced, f);
        assert f in out + Announced(d);
        ListedMember(out + Announced(d), f);
      }
    }
  }

  lemma QueueStaysListed(out: seq<Located>, queue: seq<Located>)
    requires queue != [] && forall d <- queue :: Listed(out, d)
    requires forall f <- Folders(queue[0]) :: Announced(f) != [] && f.path != [] ==> f.node.size.Some?
    ensures forall e <- queue[1..] + Folders(queue[0]) :: Listed(out + Announced(queue[0]), e)
  {
    var d := queue[0];
    FoldersGetListed(out, d);
    forall e <- queue[1..] ensures Listed(out + Announced(d), e) {
      assert e in queue;
      if Announced(e) != [] && e.path != [] {
        ListedLater(out, Announced(d), e.path);
      }
    }
  }

  lemma {:induction false} WalkLists(out: seq<Located>, queue: seq<Located>)
    requires ParentsFirst(out) && (forall d <- queue :: Listed(out, d))
    requires FoldersAreSized(Queued(queue))
    ensures ParentsFirst(out + AllAnnounced(Queued(queue)))
    decreases Unexplored(queue)
  {
    if queue == [] {
      assert out + [] == out;
    } else {
      hide Listed, ParentsFirst;
      var d, next := queue[0], queue[1..] + Folders(queue[0]);
      QueueGetsLighter(queue);
      QueueIsVisited(next);
      assert forall e <- next :: e in Queued(queue);
      AnnouncedFollow(out, d);
      QueueStaysListed(out, queue);
      WalkLists(out + Announced(d), next);
      Reassociate(out, Announced(d), AllAnnounced(Queued(next)));
    }
  }

  lemma SizedWalkLists(root: Located)
    requires FoldersAreSized(Queued([root])) && IsFolder(root.node) && |root.path| <= 1
    ensures ParentsFirst(Found(root))
  {
    QueueIsVisited([root]);
    assert Parent([root.node.name]) == [];
    assert ParentsFirst(RootEntry(root)) by {
      if root.path != [] {
        assert Parent(root.path) == [];
      }
    }
    if Announced(root) != [] && root.path != [] {
      ListedMember(RootEntry(root), root);
    }
    WalkLists(RootEntry(root), [root]);
  }

  /** A listed folder of the walk is one of the directories it visited. */
  lemma ListedWasVisited(root: Located, x: Located)
    requires x in Found(root) && x.node.kind == Directory && IsFolder(root.node)
    ensures x in Queued([root]) && x.node.size.Some?
  {
    QueueIsVisited([root]);
    if x in AllAnnounced(Queued([root])) {
      AnnouncedIn(Queued([root]), x);
      var d :| d in Queued([root]) && x in Announced(d);
      SelectIn(d.path, d.node.children, IsAnnounced, IsFolder, x);
      FoldersAreVisited([root], d);
    }
  }

  lemma SamePathSameFolder(ds: seq<Located>, x: Located, y: Located)
    requires DistinctPaths(ds) && x in ds && y in ds && x.path == y.path
    ensures x == y
  {
  }

  lemma UnsizedFolderBreaks(root: Located, d: Located)
    requires WellNamed(root.node) && IsFolder(root.node)
    requires d in Queued([root]) && Announced(d) != [] && d.path != [] && d.node.size.None?
    ensures !ParentsFirst(Found(root))
  {
    var xs, x := Found(root), Announced(d)[0];
    assert x in Announced(d);
    AnnouncedIn(Queued([root]), x);
    assert x in xs;
    var i :| 0 <= i < |xs| && xs[i] == x;
    ChildParent(d.path, x.node.name);
    if ListsFolder(xs[..i], d.path) {
      var j :| 0 <= j < i && xs[..i][j].path == d.path && xs[..i][j].node.kind == Directory;
      var y := xs[j];
      assert y in xs;
      ListedWasVisited(root, y);
      DirectoriesAreDistinct(root);
      SamePathSameFolder(Queued([root]), y, d);
      assert false;
    }
  }

  lemma {:induction false} FolderOfFolder(queue: seq<Located>, d: Located)
    requires d in Queued(queue)
    ensures d in queue || exists e :: e in Queued(queue) && d in Folders(e)
    decreases Unexplored(queue)
  {
    if d !in queue {
      var next := queue[1..] + Folders(queue[0]);
      QueueGetsLighter(queue);
      FolderOfFolder(next, d);
      QueueIsVisited(queue);
      if d in next {
        assert queue[0] in Queued(queue) && d in Folders(queue[0]);
      }
    }
  }

  lemma EntriesApart(e: Located, x: Located, y: Located)
    requires WellNamed(e.node) && x.node in e.node.children && y.node in e.node.children && x.node != y.node
    requires x.path == e.path + [x.node.name] && y.path == e.path + [y.node.name]
    ensures x.path != y.path
  {
    assert x.path[|e.path|] == x.node.name && y.path[|e.path|] == y.node.name;
  }

  /** A directory without a size is not announced, and nothing else by its path is. */
  lemma UnsizedIsNotFound(root: Located, d: Located, x: Located)
    requires WellNamed(root.node) && IsFolder(root.node) && |root.path| <= 1
    requires d in Queued([root]) && d.path != [] && d.node.size.None? && x in Found(root)
    ensures x.path != d.path
  {
    var ds := Queued([root]);
    DirectoriesAreDistinct(root);
    if x in AllAnnounced(ds) {
      AnnouncedIn(ds, x);
      var e :| e in ds && x in Announced(e);
      SelectsExactly(e.path, e.node.children, IsAnnounced, x);
      FolderOfFolder([root], d);
      if d != root {
        var g :| g in ds && d in Folders(g);
        SelectsExactly(g.path, g.node.children, IsFolder, d);
        ChildParent(e.path, x.node.name);
        ChildParent(g.path, d.node.name);
        if e.path == g.path {
          SamePathSameFolder(ds, e, g);
          EntriesApart(e, x, d);
        }
      }
    }
  }

  /** Every announced entry follows its directory exactly when every directory with
      something to announce reports a size: DirItemToFileInfo announces nothing for a
      directory whose file_size fails, while its contents are announced all the same. */
  lemma ParentsFirstExactly(node: Node, hasStem: bool)
    requires WellNamed(node) && IsFolder(node)
    ensures var root := RootOf(node, hasStem);
            ParentsFirst(Found(root)) <==> FoldersAreSized(Queued([root]))
  {
    var root := RootOf(node, hasStem);
    if FoldersAreSized(Queued([root])) {
      SizedWalkLists(root);
    } else {
      var d :| d in Queued([root]) && Announced(d) != [] && d.path != [] && d.node.size.None?;
      UnsizedFolderBreaks(root, d);
    }
  }

  function File(name: string, size: nat): Node {
    Node(name, Regular, Some(size), 0, false, [])
  }

  /** A directory a whose size cannot be read and a file f in it: f is announced, a is not. */
  function UnsizedTree(): Node {
    Node("", Directory, Some(0), 0, false, [Node("a", Directory, None, 0, false, [File("f", 1)])])
  }

  lemma UnsizedTreeFails()
    ensures WellNamed(UnsizedTree()) && IsFolder(UnsizedTree())
    ensures !ParentsFirst(Found(RootOf(UnsizedTree(), false)))
    ensures !FoldersAreSized(Queued([RootOf(UnsizedTree(), false)]))
  {
    var root := RootOf(UnsizedTree(), false);
    var a := UnsizedTree().children[0];
    var folder := At(["a"], a);
    UnsizedFolders(root, a, folder);
    hide Folders, Announced;
    QueueIsVisited([root]);
    FoldersAreVisited([root], root);
    assert folder in Folders(root);
    ParentsFirstExactly(UnsizedTree(), false);
  }

  lemma UnsizedFolders(root: Located, a: Node, folder: Located)
    requires root == At([], UnsizedTree()) && a == UnsizedTree().children[0] && folder == At(["a"], a)
    ensures WellNamed(UnsizedTree())
    ensures Folders(root) == [folder] && Announced(folder) == [At(["a"] + ["f"], a.children[0])]
  {
    assert UnsizedTree().children[1..] == [] && a.children[1..] == [];
    assert root.path + [a.name] == ["a"];
  }

  /** No two announcements are for the same path. */
  lemma FoundPathsDistinct(root: Located)
    requires WellNamed(root.node)
    ensures DistinctPaths(Found(root))
  {
    var ds := Queued([root]);
    DirectoriesAreDistinct(root);
    AnnouncedAreDistinct(ds);
    forall x <- RootEntry(root), y <- AllAnnounced(ds) ensures x.path != y.path {
      var i :| 0 <= i < |ds| && ds[i].path == Parent(y.path);
      assert ds[i] in ds;
    }
    DistinctJoin(RootEntry(root), AllAnnounced(ds));
  }

  // ---- The walk of src/files.rs ----

  predicate Any(n: Node) {
    true
  }

  /** walk_files touches every entry of a folder, whatever its kind. */
  function Touched(d: Located): seq<Located> {
    Select(d.path, d.node.children, Any)
  }

  function AllTouched(ds: seq<Located>): seq<Located> {
    if ds == [] then [] else Touched(ds[0]) + AllTouched(ds[1..])
  }

  predicate AnnouncesAll(d: Located) {
    forall n <- d.node.children :: IsAnnounced(n)
  }

  lemma {:induction false} SelectAny(path: Path, nodes: seq<Node>)
    ensures |Select(path, nodes, Any)| == |nodes|
    ensures (forall n <- nodes :: IsAnnounced(n)) <==> Select(path, nodes, Any) == Select(path, nodes, IsAnnounced)
  {
    if nodes != [] {
      SelectAny(path, nodes[1..]);
      assert nodes == [nodes[0]] + nodes[1..];
      var head := [At(path + [nodes[0].name], nodes[0])];
      var any, some := Select(path, nodes[1..], Any), Select(path, nodes[1..], IsAnnounced);
      assert (head + any)[1..] == any && (head + some)[1..] == some;
      if !IsAnnounced(nodes[0]) {
        assert |Select(path, nodes, IsAnnounced)| < |nodes|;
      }
    }
  }

  lemma SplitEqual(a: seq<Located>, b: seq<Located>, c: seq<Located>, d: seq<Located>)
    requires |a| == |c|
    ensures a + b == c + d <==> a == c && b == d
  {
    if a + b == c + d {
      assert a == (a + b)[..|a|] == c;
      assert b == (a + b)[|a|..] == d;
    }
  }

  lemma {:induction false} AnnouncedAtMostTouched(ds: seq<Located>)
    ensures |AllAnnounced(ds)| <= |AllTouched(ds)|
    ensures AllTouched(ds) == AllAnnounced(ds) <==> forall d <- ds :: AnnouncesAll(d)
  {
    if ds != [] {
      var d := ds[0];
      AnnouncedAtMostTouched(ds[1..]);
      SelectAny(d.path, d.node.children);
      assert AnnouncesAll(d) <==> Touched(d) == Announced(d);
      assert (forall e <- ds :: AnnouncesAll(e)) <==> AnnouncesAll(d) && forall e <- ds[1..] :: AnnouncesAll(e) by {
        assert ds == [d] + ds[1..];
      }
      if |Touched(d)| == |Announced(d)| {
        SplitEqual(Touched(d), AllTouched(ds[1..]), Announced(d), AllAnnounced(ds[1..]));
      } else {
        assert |Announced(d)| < |Touched(d)|;
        assert |AllAnnounced(ds)| < |AllTouched(ds)|;
      }
    }
  }

  /** The two walks report the same entries in the same order, but for the root entry,
      exactly on trees in which every entry met can be announced. */
  lemma WalksAgreeExactly(root: Located)
    ensures AllTouched(Queued([root])) == AllAnnounced(Queued([root])) <==>
              forall d <- Queued([root]) :: AnnouncesAll(d)
  {
    AnnouncedAtMostTouched(Queued([root]));
  }
}
