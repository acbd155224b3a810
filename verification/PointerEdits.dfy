/**
The in-memory pointer edits.  The original is never written: neither method may
modify anything that existed before it was called.
*/
module PointerEdits {
  import opened Common
  import opened JsonTree
  import opened Pointers

  /** `c` holds `d`, except that the member at `p` is whatever `child` is. */
  ghost predicate Linked(c: Content<Value>, d: Content<Tree>, p: Place, child: Value, nodes: set<Node>)
    reads nodes
  {
    && At(d, p).Some? && At(c, p) == Some(child)
    && match d
       case Fields(m) =>
         c.Fields? && c.m.Keys == m.Keys && forall k :: k in m && k != p.key ==> Represents(c.m[k], m[k], nodes)
       case Items(s) =>
         c.Items? && |c.s| == |s| && forall i :: 0 <= i < |s| && i != p.i ==> Represents(c.s[i], s[i], nodes)
  }

  /** The cloned containers along `path`: each links to the next one, and none is one of the old `nodes`. */
  ghost predicate Spine(spine: seq<Node>, trees: seq<Tree>, path: seq<string>, nodes: set<Node>)
    reads spine, nodes
  {
    && |spine| == |trees| == |path| + 1
    && (forall j :: 0 <= j < |spine| ==> spine[j] !in nodes && trees[j].Branch?)
    && (forall j, k :: 0 <= j < k < |spine| ==> spine[j] != spine[k])
    && (forall j :: 0 <= j < |path| ==> Link(spine, trees, path, nodes, j))
  }

  ghost predicate Link(spine: seq<Node>, trees: seq<Tree>, path: seq<string>, nodes: set<Node>, j: nat)
    requires |spine| == |trees| == |path| + 1 && j < |path|
    reads spine, nodes
  {
    && trees[j].Branch?
    && var p := PlaceOf(trees[j].content, path[j]);
       At(trees[j].content, p) == Some(trees[j + 1])
       && Linked(spine[j].content, trees[j].content, p, Ref(spine[j + 1]), nodes)
  }

  function NodesOf(spine: seq<Node>): set<Node> {
    set n | n in spine
  }

  lemma LinkHolds(c: Content<Value>, d: Content<Tree>, p: Place, child: Value, t: Tree, nodes: set<Node>, more: set<Node>)
    requires Linked(c, d, p, child, nodes) && nodes <= more && Represents(child, t, more)
    ensures Put(d, p, t).Some? && Holds(c, Put(d, p, t).value, more)
  {
    match d
    case Fields(m) =>
      forall k | k in m && k != p.key ensures Represents(c.m[k], m[k], more) {
        RepresentsMore(c.m[k], m[k], nodes, more);
      }
    case Items(s) =>
      forall i | 0 <= i < |s| && i != p.i ensures Represents(c.s[i], s[i], more) {
        RepresentsMore(c.s[i], s[i], nodes, more);
      }
  }

  /** The clones together are the original with the value at the end of the path replaced. */
  lemma {:induction false} SpineRepresents(spine: seq<Node>, trees: seq<Tree>, path: seq<string>, nodes: set<Node>,
                                           u: Tree, j: nat)
    requires Spine(spine, trees, path, nodes) && j <= |path|
    requires u.Branch? && Holds(spine[|path|].content, u.content, nodes)
    ensures Walk(trees[j], path[j..]) == Some(trees[|path|])
    ensures Represents(Ref(spine[j]), Replaced(trees[j], path[j..], u), nodes + NodesOf(spine))
    decreases |path| - j
  {
    hide Linked, PlaceOf, At, Put, Holds;
    var all := nodes + NodesOf(spine);
    if j == |path| {
      HoldsMore(spine[j].content, u.content, nodes, all);
      assert path[j..] == [];
    } else {
      SpineRepresents(spine, trees, path, nodes, u, j + 1);
      assert Link(spine, trees, path, nodes, j);
      assert path[j..][0] == path[j] && path[j..][1..] == path[j + 1..];
      LinkHolds(spine[j].content, trees[j].content, PlaceOf(trees[j].content, path[j]), Ref(spine[j + 1]),
                Replaced(trees[j + 1], path[j + 1..], u), nodes, all);
    }
  }

  lemma {:induction false} ReplacedBySame(t: Tree, path: seq<string>)
    requires Walk(t, path).Some?
    ensures Replaced(t, path, Walk(t, path).value) == t
    decreases |path|
  {
    hide PlaceOf;
    if path != [] {
      var p := PlaceOf(t.content, path[0]);
      ReplacedBySame(At(t.content, p).value, path[1..]);
      PutSame(t.content, p);
    }
  }

  lemma PutSame(c: Content<Tree>, p: Place)
    requires At(c, p).Some?
    ensures Put(c, p, At(c, p).value) == Some(c)
  {
    match c
    case Fields(m) => assert m[p.key := m[p.key]] == m;
    case Items(s) => assert s[p.i := s[p.i]] == s;
  }

  /** Clones of a failed edit are still the original value. */
  lemma SpineUnchanged(spine: seq<Node>, trees: seq<Tree>, path: seq<string>, nodes: set<Node>)
    requires Spine(spine, trees, path, nodes)
    requires Holds(spine[|path|].content, trees[|path|].content, nodes)
    ensures Represents(Ref(spine[0]), trees[0], nodes + NodesOf(spine))
    ensures Walk(trees[0], path) == Some(trees[|path|])
  {
    hide Link, Holds, Walk, Replaced;
    SpineRepresents(spine, trees, path, nodes, trees[|path|], 0);
    assert path[0..] == path;
    ReplacedBySame(trees[0], path);
  }

  /** The link from a container to the clone of its child. */
  lemma PutLinks(c: Content<Value>, d: Content<Tree>, nodes: set<Node>, p: Place, child: Value)
    requires Holds(c, d, nodes) && At(d, p).Some?
    ensures Put(c, p, child).Some? && Linked(Put(c, p, child).value, d, p, child, nodes)
  {
  }

  lemma EditLeaf(t: Tree, path: seq<string>, parent: Tree, edit: (Content<Tree>, Place) -> Option<Content<Tree>>)
    requires path != [] && Walk(t, Front(path)) == Some(parent) && parent.Branch?
    ensures EditAt(t, path, edit) ==
      match edit(parent.content, PlaceOf(parent.content, Last(path)))
      case None => None
      case Some(c) => Some(Replaced(t, Front(path), Branch(c)))
  {
  }

  /** What the descent has reached after following `path` from the clone of the root. */
  ghost predicate Descended(spine: seq<Node>, trees: seq<Tree>, path: seq<string>, nodes: set<Node>, t: Tree)
    reads spine, nodes
  {
    && Spine(spine, trees, path, nodes) && trees[0] == t
    && Holds(spine[|path|].content, trees[|path|].content, nodes)
  }

  /** One step down: the child is cloned, and the clone takes its place. */
  method Descend(current: Node, segment: string, ghost spine: seq<Node>, ghost trees: seq<Tree>, ghost path: seq<string>,
                 ghost nodes: set<Node>, ghost t: Tree)
    returns (child: Node?, ghost spine': seq<Node>, ghost trees': seq<Tree>)
    requires Descended(spine, trees, path, nodes, t) && current == spine[|path|]
    modifies current
    ensures child == null ==>
      && Descended(spine, trees, path, nodes, t)
      && (Walk(t, path + [segment]) == None || !Walk(t, path + [segment]).value.Branch?)
    ensures child != null ==>
      && fresh(child) && spine' == spine + [child]
      && Descended(spine', trees', path + [segment], nodes, t)
  {
    hide Linked, Put, PlaceOf, At, Holds;
    spine', trees' := spine, trees;
    var c := current.content;
    var p := PlaceOf(c, segment);
    ghost var d := trees[|path|].content;
    HoldsPlaces(c, d, nodes, p);
    SpineUnchanged(spine, trees, path, nodes);
    WalkStep(t, path, segment);
    var there: Option<Value> := At(c, p);
    if there.None? || there.value.Scalar? {
      return null, spine, trees;
    }
    ghost var below := At(d, p).value;
    child := new Node(there.value.node.content);
    PutLinks(c, d, nodes, p, Ref(child));
    current.content := Put(c, p, Ref(child)).value;
    spine', trees' := spine + [child], trees + [below];
    forall j | 0 <= j < |path| ensures Link(spine', trees', path + [segment], nodes, j) {
      assert old(Link(spine, trees, path, nodes, j));
    }
  }

  /** The whole path down: containers are cloned one by one until a step cannot be taken. */
  method CloneAlong(root: Node, path: seq<string>, ghost nodes: set<Node>, ghost t: Tree)
    returns (next: Node, current: Node?, ghost spine: seq<Node>, ghost trees: seq<Tree>)
    requires Represents(Ref(root), t, nodes)
    ensures |spine| > 0 && next == spine[0] && fresh(NodesOf(spine))
    ensures current == null ==>
      && Represents(Ref(next), t, nodes + NodesOf(spine))
      && exists n :: 0 < n <= |path| && (Walk(t, path[..n]) == None || !Walk(t, path[..n]).value.Branch?)
    ensures current != null ==> Descended(spine, trees, path, nodes, t) && current == spine[|path|]
  {
    next := new Node(root.content);
    current := next;
    spine, trees := [next], [t];
    assert path[..0] == [];
    for i := 0 to |path|
      invariant |spine| == i + 1 && next == spine[0] && fresh(NodesOf(spine))
      invariant Descended(spine, trees, path[..i], nodes, t) && current == spine[i]
    {
      assert path[..i + 1] == path[..i] + [path[i]];
      assert current in NodesOf(spine);
      var child;
      ghost var spine', trees';
      child, spine', trees' := Descend(current, path[i], spine, trees, path[..i], nodes, t);
      if child == null {
        SpineUnchanged(spine, trees, path[..i], nodes);
        assert Walk(t, path[..i + 1]) == None || !Walk(t, path[..i + 1]).value.Branch?;
        return next, null, spine, trees;
      }
      assert NodesOf(spine') == NodesOf(spine) + {child};
      spine, trees, current := spine', trees', child;
    }
    assert path[..|path|] == path;
  }

  /** A path that cannot be followed down to its last container cannot be edited. */
  lemma CannotEdit(t: Tree, path: seq<string>, n: nat, edit: (Content<Tree>, Place) -> Option<Content<Tree>>)
    requires path != [] && n <= |path| - 1
    requires Walk(t, path[..n]) == None || !Walk(t, path[..n]).value.Branch?
    ensures EditAt(t, path, edit) == None
  {
    var front := Front(path);
    assert front[..n] == path[..n] && front[..|front|] == front;
    if Walk(t, front[..n]) == None {
      WalkStops(t, front, n);
    } else if n < |front| {
      assert front[..n + 1] == front[..n] + [front[n]];
      WalkStep(t, front[..n], front[n]);
      WalkStops(t, front, n + 1);
    }
  }

  /** Writing the last container turns the clones into the edited value. */
  lemma EditedSpine(spine: seq<Node>, trees: seq<Tree>, path: seq<string>, nodes: set<Node>, t: Tree, c: Content<Tree>)
    requires path != [] && Spine(spine, trees, Front(path), nodes) && trees[0] == t
    requires Holds(spine[|path| - 1].content, c, nodes)
    ensures Walk(t, Front(path)) == Some(trees[|path| - 1])
    ensures Represents(Ref(spine[0]), Replaced(t, Front(path), Branch(c)), nodes + NodesOf(spine))
  {
    hide Link, Holds, Walk, Replaced;
    SpineRepresents(spine, trees, Front(path), nodes, Branch(c), 0);
    assert Front(path)[0..] == Front(path);
  }

  /**
  Sets the value at a path.  Nothing that existed before is written; on success
  the result is the edited value, on failure a copy of the original.
  */
  method SetValueAtPointer(root: Node, path: seq<string>, value: Value, ghost t: Tree, ghost tv: Tree, ghost nodes: set<Node>)
    returns (next: Node?, ok: bool, ghost all: set<Node>)
    requires Represents(Ref(root), t, nodes) && Represents(value, tv, nodes)
    ensures Represents(Ref(root), t, nodes)
    ensures path == [] ==> next == null && !ok
    ensures ok == SetAt(t, path, tv).Some?
    ensures nodes <= all && fresh(all - nodes)
    ensures path != [] ==>
      && next != null && fresh(next)
      && Represents(Ref(next), if ok then SetAt(t, path, tv).value else t, all)
  {
    hide Walk, Replaced, Linked, Holds, At, PlaceOf;
    all := nodes;
    if |path| == 0 {
      return null, false, all;
    }
    ghost var edit := (c, p) => Put(c, p, tv);
    var current;
    ghost var spine, trees;
    next, current, spine, trees := CloneAlong(root, Front(path), nodes, t);
    all := nodes + NodesOf(spine);
    if current == null {
      ghost var n :| 0 < n <= |Front(path)|
                     && (Walk(t, Front(path)[..n]) == None || !Walk(t, Front(path)[..n]).value.Branch?);
      assert Front(path)[..n] == path[..n];
      CannotEdit(t, path, n, edit);
      return next, false, all;
    }
    SpineUnchanged(spine, trees, Front(path), nodes);
    ghost var d := trees[|path| - 1].content;
    var c := current.content;
    var p := PlaceOf(c, Last(path));
    HoldsPlaces(c, d, nodes, p);
    HoldsPut(c, d, nodes, p, value, tv);
    EditLeaf(t, path, trees[|path| - 1], edit);
    var changed := Put(c, p, value);
    if changed.None? {
      return next, false, all;
    }
    label Unwritten:
    current.content := changed.value;
    ghost var d' := Put(d, p, tv).value;
    forall j | 0 <= j < |path| - 1 ensures Link(spine, trees, Front(path), nodes, j) {
      assert old@Unwritten(Link(spine, trees, Front(path), nodes, j));
    }
    EditedSpine(spine, trees, path, nodes, t, d');
    return next, true, all;
  }

  lemma LinkPlaces(c: Content<Value>, d: Content<Tree>, p: Place, child: Value, nodes: set<Node>, segment: string)
    requires Linked(c, d, p, child, nodes)
    ensures PlaceOf(c, segment) == PlaceOf(d, segment)
  {
  }

  lemma Relink(c: Content<Value>, d: Content<Tree>, p: Place, child: Value, nodes: set<Node>, other: Value)
    requires Linked(c, d, p, child, nodes)
    ensures Put(c, p, other).Some? && Linked(Put(c, p, other).value, d, p, other, nodes)
  {
  }

  /** Walks down from the root again and stores `value` in the container that holds the last step. */
  method ReplacePointerParent(root: Node, path: seq<string>, value: Value,
                              ghost spine: seq<Node>, ghost trees: seq<Tree>, ghost nodes: set<Node>)
    returns (ok: bool)
    requires path != [] && Spine(spine, trees, path, nodes) && root == spine[0]
    modifies spine[|path| - 1]
    ensures ok
    ensures Put(old(spine[|path| - 1].content), PlaceOf(trees[|path| - 1].content, Last(path)), value)
         == Some(spine[|path| - 1].content)
  {
    hide PlaceOf, At, Put, Linked;
    var current := root;
    for i := 0 to |path| - 1
      invariant current == spine[i]
      invariant Spine(spine, trees, path, nodes) && spine[|path| - 1].content == old(spine[|path| - 1].content)
    {
      assert Link(spine, trees, path, nodes, i);
      LinkAt(spine[i].content, trees[i].content, PlaceOf(trees[i].content, path[i]), Ref(spine[i + 1]), nodes);
      LinkPlaces(spine[i].content, trees[i].content, PlaceOf(trees[i].content, path[i]), Ref(spine[i + 1]), nodes, path[i]);
      var child := At(current.content, PlaceOf(current.content, path[i]));
      if child.None? || child.value.Scalar? {
        return false;
      }
      current := child.value.node;
    }
    ghost var n := |path| - 1;
    assert Link(spine, trees, path, nodes, n);
    LinkPlaces(spine[n].content, trees[n].content, PlaceOf(trees[n].content, path[n]), Ref(spine[n + 1]), nodes, path[n]);
    Relink(spine[n].content, trees[n].content, PlaceOf(trees[n].content, path[n]), Ref(spine[n + 1]), nodes, value);
    var changed := Put(current.content, PlaceOf(current.content, path[|path| - 1]), value);
    if changed.None? {
      return false;
    }
    current.content := changed.value;
    return true;
  }

  lemma LinkAt(c: Content<Value>, d: Content<Tree>, p: Place, child: Value, nodes: set<Node>)
    requires Linked(c, d, p, child, nodes)
    ensures At(c, p) == Some(child)
  {
  }

  /** The clones with the last one exchanged. */
  ghost function WithLast(spine: seq<Node>, n: nat, last: Node): seq<Node>
    requires |spine| == n + 1
  {
    spine[..n] + [last]
  }

  /**
  Puts a new container in the place of the last clone: the array a deletion
  leaves is a new one, and its parent is made to refer to it.
  */
  method ExchangeLast(root: Node, path: seq<string>, last: Node,
                      ghost spine: seq<Node>, ghost trees: seq<Tree>, ghost nodes: set<Node>)
    requires path != [] && Spine(spine, trees, path, nodes) && root == spine[0]
    requires last !in nodes && last !in spine
    modifies spine[|path| - 1]
    ensures Spine(WithLast(spine, |path|, last), trees, path, nodes)
  {
    hide Linked, PlaceOf, At, Put;
    ghost var n := |path| - 1;
    assert Link(spine, trees, path, nodes, n);
    Relink(spine[n].content, trees[n].content, PlaceOf(trees[n].content, path[n]), Ref(spine[n + 1]), nodes, Ref(last));
    LinkTree(spine, trees, path, nodes, n);
    label Before:
    var ok := ReplacePointerParent(root, path, Ref(last), spine, trees, nodes);
    ghost var spine' := WithLast(spine, |path|, last);
    forall j | 0 <= j < |path| ensures Link(spine', trees, path, nodes, j) {
      assert old@Before(Link(spine, trees, path, nodes, j));
    }
  }

  lemma LinkTree(spine: seq<Node>, trees: seq<Tree>, path: seq<string>, nodes: set<Node>, j: nat)
    requires |spine| == |trees| == |path| + 1 && j < |path| && Link(spine, trees, path, nodes, j)
    ensures At(trees[j].content, PlaceOf(trees[j].content, path[j])) == Some(trees[j + 1])
  {
  }

  /**
  Deletes the value at a path.  Nothing that existed before is written; on
  success the result is the edited value, on failure a copy of the original.
  */
  method DeleteValueAtPointer(root: Node, path: seq<string>, ghost t: Tree, ghost nodes: set<Node>)
    returns (next: Node, ok: bool, ghost all: set<Node>)
    requires Represents(Ref(root), t, nodes) && IsObject(t)
    ensures Represents(Ref(root), t, nodes)
    ensures path == [] ==> next == root && !ok
    ensures ok == DeleteAt(t, path).Some?
    ensures nodes <= all && fresh(all - nodes) && (path != [] ==> fresh(next))
    ensures Represents(Ref(next), if ok then DeleteAt(t, path).value else t, all)
  {
    hide Walk, Replaced, Linked, Holds, At, PlaceOf;
    all := nodes;
    if |path| == 0 {
      return root, false, all;
    }
    ghost var edit := (c, p) => Drop(c, p);
    var current;
    ghost var spine, trees;
    next, current, spine, trees := CloneAlong(root, Front(path), nodes, t);
    all := nodes + NodesOf(spine);
    assert next in NodesOf(spine);
    if current == null {
      ghost var n :| 0 < n <= |Front(path)|
                     && (Walk(t, Front(path)[..n]) == None || !Walk(t, Front(path)[..n]).value.Branch?);
      assert Front(path)[..n] == path[..n];
      CannotEdit(t, path, n, edit);
      return next, false, all;
    }
    SpineUnchanged(spine, trees, Front(path), nodes);
    ghost var d := trees[|path| - 1].content;
    var c := current.content;
    var p := PlaceOf(c, Last(path));
    HoldsPlaces(c, d, nodes, p);
    HoldsDrop(c, d, nodes, p);
    EditLeaf(t, path, trees[|path| - 1], edit);
    var changed := Drop(c, p);
    if changed.None? {
      return next, false, all;
    }
    ghost var d' := Drop(d, p).value;
    spine := StoreRest(next, current, path, changed.value, spine, trees, nodes, t, d');
    all := nodes + NodesOf(spine);
    EditedSpine(spine, trees, path, nodes, t, d');
    return next, true, all;
  }

  /** Stores what a deletion leaves: an object is written in place, an array makes room for a new one. */
  method StoreRest(root: Node, current: Node, path: seq<string>, rest: Content<Value>, ghost spine: seq<Node>,
                   ghost trees: seq<Tree>, ghost nodes: set<Node>, ghost t: Tree, ghost d: Content<Tree>)
    returns (ghost spine': seq<Node>)
    requires path != [] && IsObject(t) && Descended(spine, trees, Front(path), nodes, t)
    requires root == spine[0] && current == spine[|path| - 1]
    requires Holds(rest, d, nodes)
    modifies NodesOf(spine)
    ensures Spine(spine', trees, Front(path), nodes)
    ensures spine'[0] == root && fresh(NodesOf(spine') - NodesOf(spine))
    ensures Holds(spine'[|path| - 1].content, d, nodes)
  {
    hide Walk, Replaced, Linked, Holds, At, PlaceOf;
    assert current in NodesOf(spine);
    if current.content.Fields? {
      current.content := rest;
      forall j | 0 <= j < |path| - 1 ensures Link(spine, trees, Front(path), nodes, j) {
        assert old(Link(spine, trees, Front(path), nodes, j));
      }
      return spine;
    }
    ArrayBelowRoot(spine, trees, path, nodes, t, current.content);
    var updated := new Node(rest);
    assert spine[|path| - 2] in NodesOf(spine);
    ExchangeLast(root, Front(path), updated, spine, trees, nodes);
    return WithLast(spine, |path| - 1, updated);
  }

  /** The root is an object, so a path that ends in an array has a parent container. */
  lemma ArrayBelowRoot(spine: seq<Node>, trees: seq<Tree>, path: seq<string>, nodes: set<Node>, t: Tree, c: Content<Value>)
    requires path != [] && Descended(spine, trees, Front(path), nodes, t) && IsObject(t)
    requires c == spine[|path| - 1].content && c.Items?
    ensures Front(path) != []
  {
  }
}
