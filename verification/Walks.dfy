/** The loops of files.cpp and src/files.rs, with the counter they bump and the callback
    they feed, proved against the orders of Traversal and the lists of FindFiles.

    Tasks of one layer run side by side: RunTasks lets them announce in any interleaving,
    one entry at a time. */
module Walks {
  import opened Traversal
  import opened FindFiles
  import opened Wrappers

  // ---- Tasks of one layer running side by side ----

  function Concat(parts: seq<seq<Located>>): seq<Located> {
    if parts == [] then [] else parts[0] + Concat(parts[1..])
  }

  lemma {:induction false} TakeHead(parts: seq<seq<Located>>, k: nat)
    requires k < |parts| && parts[k] != []
    ensures var rest := parts[k := parts[k][1..]];
            && |Concat(rest)| + 1 == |Concat(parts)|
            && multiset(Concat(parts)) == multiset{parts[k][0]} + multiset(Concat(rest))
            && AllSized(Concat(parts)) == (IsAnnounced(parts[k][0].node) && AllSized(Concat(rest)))
  {
    var rest := parts[k := parts[k][1..]];
    if k == 0 {
      assert parts[0] == [parts[0][0]] + rest[0];
      assert Concat(parts) == [parts[0][0]] + Concat(rest);
    } else {
      assert rest[1..] == parts[1..][k - 1 := parts[k][1..]];
      TakeHead(parts[1..], k - 1);
    }
  }

  function Outputs(layer: seq<Located>): (r: seq<seq<Located>>)
    ensures |r| == |layer|
  {
    seq(|layer|, i requires 0 <= i < |layer| => Announced(layer[i]))
  }

  lemma {:induction false} OutputsConcat(layer: seq<Located>)
    ensures Concat(Outputs(layer)) == AllAnnounced(layer)
    ensures AllSized(AllAnnounced(layer))
  {
    if layer != [] {
      assert Outputs(layer)[1..] == Outputs(layer[1..]);
      OutputsConcat(layer[1..]);
    }
  }

  lemma {:induction false} NothingLeft(parts: seq<seq<Located>>)
    requires Concat(parts) != []
    ensures exists k :: 0 <= k < |parts| && parts[k] != []
  {
    if parts[0] == [] {
      NothingLeft(parts[1..]);
      var k :| 0 <= k < |parts[1..]| && parts[1..][k] != [];
      assert parts[k + 1] != [];
    }
  }

  /** `items` have been announced since the counter was `counter` and the callback had
      received `before`. */
  ghost predicate Extends(counter: nat, before: seq<Record>, items: seq<Located>, fileId: nat, announced: seq<Record>) {
    AllSized(items) && fileId == counter + |items| && announced == before + Numbered(counter, items)
  }

  lemma NothingYet(counter: nat, before: seq<Record>)
    ensures Extends(counter, before, [], counter, before)
  {
    assert before + Numbered(counter, []) == before;
  }

  lemma NumberedAppend(counter: nat, a: seq<Located>, b: seq<Located>)
    requires AllSized(a) && AllSized(b)
    ensures AllSized(a + b)
    ensures Numbered(counter, a + b) == Numbered(counter, a) + Numbered(counter + |a|, b)
  {
  }

  lemma AndMore(counter: nat, before: seq<Record>, items: seq<Located>, id1: nat, announced1: seq<Record>,
                more: seq<Located>, id2: nat, announced2: seq<Record>)
    requires Extends(counter, before, items, id1, announced1) && Extends(id1, announced1, more, id2, announced2)
    ensures Extends(counter, before, items + more, id2, announced2)
  {
    NumberedAppend(counter, items, more);
    hide Numbered;
    assert before + (Numbered(counter, items) + Numbered(id1, more)) ==
           (before + Numbered(counter, items)) + Numbered(id1, more);
  }

  predicate NoStatusFails(ds: seq<Located>) {
    forall d <- ds :: forall n <- d.node.children :: !n.statusFails
  }

  lemma {:induction false} SelectAppend(path: Path, nodes: seq<Node>, more: seq<Node>, which: Node -> bool)
    ensures Select(path, nodes + more, which) == Select(path, nodes, which) + Select(path, more, which)
  {
    if nodes == [] {
      assert nodes + more == more;
    } else {
      var both := nodes + more;
      assert both[0] == nodes[0] && both[1..] == nodes[1..] + more;
      SelectAppend(path, nodes[1..], more, which);
      var head := if which(nodes[0]) then [At(path + [nodes[0].name], nodes[0])] else [];
      assert Select(path, both, which) == head + Select(path, both[1..], which);
      assert Select(path, nodes, which) == head + Select(path, nodes[1..], which);
      Reassociate(head, Select(path, nodes[1..], which), Select(path, more, which));
    }
  }

  lemma SelectNext(path: Path, nodes: seq<Node>, k: nat, which: Node -> bool)
    requires k < |nodes|
    ensures Select(path, nodes[..k + 1], which) ==
            Select(path, nodes[..k], which) + if which(nodes[k]) then [At(path + [nodes[k].name], nodes[k])] else []
  {
    assert nodes[..k + 1] == nodes[..k] + [nodes[k]];
    SelectAppend(path, nodes[..k], [nodes[k]], which);
    assert [nodes[k]][1..] == [];
  }

  class Walk {
    /** The static counter of files.cpp. */
    var fileId: nat
    /** The records passed to the callback. */
    var announced: seq<Record>

    constructor ()
      ensures fileId == 0 && announced == []
    {
      fileId, announced := 0, [];
    }

    method DirItemToFileInfo(x: Located)
      requires !x.node.statusFails && x.node.kind != Unsupported
      modifies this
      ensures Extends(old(fileId), old(announced), if x.node.size.Some? then [x] else [], fileId, announced)
    {
      if x.node.size.None? {
        NothingYet(fileId, announced);
        return;
      }
      fileId := fileId + 1;
      announced := announced + [ToRecord(fileId, x)];
    }

    method ProcessFolder(d: Located) returns (directories: seq<Located>, success: bool)
      modifies this
      ensures directories == Folders(d)
      ensures Extends(old(fileId), old(announced), Announced(d), fileId, announced)
      ensures success <==> forall n <- d.node.children :: !n.statusFails
    {
      hide Extends;
      success, directories := true, [];
      var nodes := d.node.children;
      ghost var seen: seq<Located> := [];
      NothingYet(fileId, announced);
      for k := 0 to |nodes|
        invariant directories == Select(d.path, nodes[..k], IsFolder)
        invariant seen == Select(d.path, nodes[..k], IsAnnounced)
        invariant Extends(old(fileId), old(announced), seen, fileId, announced)
        invariant success <==> forall n <- nodes[..k] :: !n.statusFails
      {
        SelectNext(d.path, nodes, k, IsFolder);
        SelectNext(d.path, nodes, k, IsAnnounced);
        var n, x := nodes[k], At(d.path + [nodes[k].name], nodes[k]);
        assert nodes[..k + 1] == nodes[..k] + [n];
        ghost var id, records := fileId, announced;
        NothingYet(id, records);
        if n.statusFails {
          success := false;
        } else if n.kind == Directory {
          directories := directories + [x];
          DirItemToFileInfo(x);
        } else if n.kind == Regular {
          DirItemToFileInfo(x);
        }
        AndMore(old(fileId), old(announced), seen, id, records, if IsAnnounced(n) then [x] else [], fileId, announced);
        seen := seen + if IsAnnounced(n) then [x] else [];
      }
      assert nodes[..|nodes|] == nodes;
    }

    method FindFiles(node: Node, hasStem: bool) returns (result: bool)
      modifies this
      ensures IsFolder(node) ==>
                Extends(old(fileId), old(announced), Found(RootOf(node, hasStem)), fileId, announced)
      ensures IsFolder(node) ==> (result <==> NoStatusFails(Queued([RootOf(node, hasStem)])))
      ensures !IsFolder(node) ==> !result && fileId == old(fileId) && announced == old(announced)
    {
      if !IsFolder(node) {
        return false;
      }
      hide Extends, NoStatusFails, AllAnnounced, Folders, Announced;
      var root := RootOf(node, hasStem);
      NothingYet(fileId, announced);
      if hasStem {
        DirItemToFileInfo(root);
      }
      ghost var items, done := RootEntry(root), [];
      var unexplored := [root];
      result := true;
      VisitNothing(Queued(unexplored));
      while unexplored != []
        invariant done + Queued(unexplored) == Queued([root])
        invariant items == RootEntry(root) + AllAnnounced(done)
        invariant Extends(old(fileId), old(announced), items, fileId, announced)
        invariant result <==> NoStatusFails(done)
        decreases Unexplored(unexplored)
      {
        var current := unexplored[0];
        QueueGetsLighter(unexplored);
        ghost var later := Queued(unexplored[1..] + Folders(current));
        ghost var id, records := fileId, announced;
        var directories, success := ProcessFolder(current);
        unexplored := unexplored[1..] + directories;
        if !success {
          result := false;
        }
        VisitOne(RootEntry(root), done, current, later);
        AndMore(old(fileId), old(announced), items, id, records, Announced(current), fileId, announced);
        items, done := items + Announced(current), done + [current];
      }
      VisitedAll(done);
    }

    /** One layer: every task emits its own entries in order, the tasks in any order. */
    method RunTasks(layer: seq<Located>) returns (ghost items: seq<Located>)
      modifies this
      ensures Extends(old(fileId), old(announced), items, fileId, announced)
      ensures multiset(items) == multiset(AllAnnounced(layer))
    {
      hide Extends;
      var parts := Outputs(layer);
      items := [];
      OutputsConcat(layer);
      NothingYet(fileId, announced);
      assert Balanced(items, parts, layer);
      while exists k :: 0 <= k < |parts| && parts[k] != []
        invariant AllSized(Concat(parts))
        invariant Extends(old(fileId), old(announced), items, fileId, announced)
        invariant Balanced(items, parts, layer)
        decreases |Concat(parts)|
      {
        var k :| 0 <= k < |parts| && parts[k] != [];
        var x := parts[k][0];
        EmitOne(items, parts, layer, k);
        ghost var id, records := fileId, announced;
        DirItemToFileInfo(x);
        AndMore(old(fileId), old(announced), items, id, records, [x], fileId, announced);
        items := items + [x];
        parts := parts[k := parts[k][1..]];
      }
      AllEmitted(items, parts, layer);
    }

    method FindFilesParallel(node: Node, hasStem: bool)
      returns (success: bool, visited: seq<Located>, ghost items: seq<Located>)
      requires IsFolder(node)
      modifies this
      ensures visited == Queued([RootOf(node, hasStem)])
      ensures Extends(old(fileId), old(announced), items, fileId, announced)
      ensures multiset(items) == multiset(AllAnnounced(visited))
      ensures success <==> NoStatusFails(visited)
    {
      hide Extends, NoStatusFails, AllAnnounced, AllFolders, Queued;
      var root := RootOf(node, hasStem);
      success, visited, items := true, [], [];
      var layer := [root];
      NothingYet(fileId, announced);
      VisitNothing(Layered(layer));
      while layer != []
        invariant visited + Layered(layer) == Layered([root])
        invariant Extends(old(fileId), old(announced), items, fileId, announced)
        invariant multiset(items) == multiset(AllAnnounced(visited))
        invariant success <==> NoStatusFails(visited)
        decreases Unexplored(layer)
      {
        LayersGetLighter(layer);
        ghost var id, records := fileId, announced;
        ghost var more := RunTasks(layer);
        AndMore(old(fileId), old(announced), items, id, records, more, fileId, announced);
        VisitLayer(visited, layer, Layered(AllFolders(layer)), items, more);
        items := items + more;
        var directories, ok := CollectFolders(layer);
        success := success && ok;
        visited := visited + layer;
        layer := directories;
      }
      VisitedAll(visited);
      LayeredIsQueued([root]);
    }
  }

  lemma VisitNothing(order: seq<Located>)
    ensures [] + order == order && AllAnnounced([]) == [] && NoStatusFails([])
    ensures forall xs: seq<Located> :: xs + [] == xs
  {
  }

  lemma VisitedAll(done: seq<Located>)
    ensures Queued([]) == Layered([]) == [] && done + [] == done
  {
  }

  lemma NoStatusFailsAppend(a: seq<Located>, b: seq<Located>)
    ensures NoStatusFails(a + b) <==> NoStatusFails(a) && NoStatusFails(b)
  {
    assert forall e <- a :: e in a + b;
    assert forall e <- b :: e in a + b;
  }

  lemma MultisetAppend(a: seq<Located>, b: seq<Located>, c: seq<Located>, d: seq<Located>)
    requires multiset(a) == multiset(c) && multiset(b) == multiset(d)
    ensures multiset(a + b) == multiset(c + d)
  {
  }

  lemma VisitLayer(visited: seq<Located>, layer: seq<Located>, later: seq<Located>, items: seq<Located>, more: seq<Located>)
    requires multiset(items) == multiset(AllAnnounced(visited)) && multiset(more) == multiset(AllAnnounced(layer))
    ensures multiset(items + more) == multiset(AllAnnounced(visited + layer))
    ensures visited + (layer + later) == (visited + layer) + later
    ensures NoStatusFails(visited + layer) <==> NoStatusFails(visited) && NoStatusFails(layer)
  {
    hide NoStatusFails, AllAnnounced;
    AllAnnouncedAppend(visited, layer);
    NoStatusFailsAppend(visited, layer);
    MultisetAppend(items, more, AllAnnounced(visited), AllAnnounced(layer));
    Reassociate(visited, layer, later);
  }

  /** What has been emitted and what the tasks still hold make up the layer's entries. */
  predicate Balanced(items: seq<Located>, parts: seq<seq<Located>>, layer: seq<Located>) {
    multiset(items) + multiset(Concat(parts)) == multiset(AllAnnounced(layer))
  }

  lemma EmitOne(items: seq<Located>, parts: seq<seq<Located>>, layer: seq<Located>, k: nat)
    requires k < |parts| && parts[k] != [] && AllSized(Concat(parts)) && Balanced(items, parts, layer)
    ensures IsAnnounced(parts[k][0].node)
    ensures var rest := parts[k := parts[k][1..]];
            AllSized(Concat(rest)) && |Concat(rest)| < |Concat(parts)| && Balanced(items + [parts[k][0]], rest, layer)
  {
    TakeHead(parts, k);
  }

  lemma AllEmitted(items: seq<Located>, parts: seq<seq<Located>>, layer: seq<Located>)
    requires Balanced(items, parts, layer) && forall k :: 0 <= k < |parts| ==> parts[k] == []
    ensures multiset(items) == multiset(AllAnnounced(layer))
  {
    if Concat(parts) != [] {
      NothingLeft(parts);
    }
  }

  /** The results of a layer's tasks, collected in the order the tasks were started. */
  method CollectFolders(layer: seq<Located>) returns (directories: seq<Located>, success: bool)
    ensures directories == AllFolders(layer)
    ensures success <==> NoStatusFails(layer)
  {
    directories, success := [], true;
    for i := 0 to |layer|
      invariant directories == AllFolders(layer[..i])
      invariant success <==> NoStatusFails(layer[..i])
    {
      assert layer[..i + 1] == layer[..i] + [layer[i]];
      AllFoldersAppend(layer[..i], [layer[i]]);
      assert AllFolders([layer[i]]) == Folders(layer[i]);
      directories := directories + Folders(layer[i]);
      success := success && forall n <- layer[i].node.children :: !n.statusFails;
    }
    assert layer[..|layer|] == layer;
  }

  lemma VisitOne(head: seq<Located>, done: seq<Located>, d: Located, later: seq<Located>)
    ensures head + AllAnnounced(done + [d]) == (head + AllAnnounced(done)) + Announced(d)
    ensures done + ([d] + later) == (done + [d]) + later
    ensures NoStatusFails(done + [d]) <==> NoStatusFails(done) && forall n <- d.node.children :: !n.statusFails
  {
    AllAnnouncedAppend(done, [d]);
    assert AllAnnounced([d]) == Announced(d);
    Reassociate(head, AllAnnounced(done), Announced(d));
    Reassociate(done, [d], later);
    assert forall e <- done + [d] :: e in done || e == d;
    assert d in done + [d] && forall e <- done :: e in done + [d];
  }

  /** src/files.rs: the entries of one folder, touched and queued. */
  method TouchFolder(d: Located, paths: seq<Located>, touched: seq<Located>)
      returns (paths': seq<Located>, touched': seq<Located>)
    ensures paths' == paths + Folders(d) && touched' == touched + Touched(d)
  {
    paths', touched' := paths, touched;
    var nodes := d.node.children;
    for k := 0 to |nodes|
      invariant touched' == touched + Select(d.path, nodes[..k], Any)
      invariant paths' == paths + Select(d.path, nodes[..k], IsFolder)
    {
      SelectNext(d.path, nodes, k, Any);
      SelectNext(d.path, nodes, k, IsFolder);
      var x := At(d.path + [nodes[k].name], nodes[k]);
      touched' := touched' + [x];
      if IsFolder(nodes[k]) {
        paths' := paths' + [x];
      }
    }
    assert nodes[..|nodes|] == nodes;
  }

  /** src/files.rs: the queue again, with every entry touched. */
  method WalkFiles(root: Located) returns (touched: seq<Located>)
    ensures touched == AllTouched(Queued([root]))
  {
    hide AllTouched, Folders, Touched;
    touched := [];
    var paths := [root];
    ghost var done: seq<Located> := [];
    TouchedNothing();
    VisitNothing(Queued([root]));
    while paths != []
      invariant done + Queued(paths) == Queued([root])
      invariant touched == AllTouched(done)
      decreases Unexplored(paths)
    {
      var current := paths[0];
      QueueGetsLighter(paths);
      Reassociate(done, [current], Queued(paths[1..] + Folders(current)));
      TouchedAppend(done, current);
      paths, touched := TouchFolder(current, paths[1..], touched);
      done := done + [current];
    }
    VisitedAll(done);
  }

  lemma TouchedNothing()
    ensures AllTouched([]) == []
  {
  }

  lemma {:induction false} TouchedAppend(done: seq<Located>, d: Located)
    ensures AllTouched(done + [d]) == AllTouched(done) + Touched(d)
  {
    if done == [] {
      assert [d][1..] == [] && done + [d] == [d];
    } else {
      assert (done + [d])[1..] == done[1..] + [d];
      TouchedAppend(done[1..], d);
      Reassociate(Touched(done[0]), AllTouched(done[1..]), Touched(d));
    }
  }
}
