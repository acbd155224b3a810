/**
Normalisation of nulls on values in memory.  What is given is never written: an
object is cloned at its first change, and no method may modify anything that
existed before it was called.
*/
module NullEdits {
  import opened Common
  import opened JsonTree
  import opened Pointers
  import opened NullNormalization

  /** A value as decoded from text, in memory of its own; defaults are copied this way too. */
  method Decode(t: Tree) returns (v: Value, ghost made: set<Node>)
    ensures Represents(v, t, made) && fresh(made)
    decreases t, 1
  {
    match t
    case Branch(Fields(m)) =>
      var c;
      c, made := DecodeMembers(m);
      var node := new Node(Fields(c));
      made := made + {node};
      HoldsMore(Fields(c), t.content, made - {node}, made);
      v := Ref(node);
    case Branch(Items(s)) =>
      var c;
      c, made := DecodeItems(s);
      var node := new Node(Items(c));
      made := made + {node};
      HoldsMore(Items(c), t.content, made - {node}, made);
      v := Ref(node);
    case _ =>
      v, made := Scalar(t), {};
  }

  method DecodeMembers(m: map<string, Tree>) returns (c: map<string, Value>, ghost made: set<Node>)
    ensures Holds(Fields(c), Fields(m), made) && fresh(made)
    decreases Branch(Fields(m)), 0
  {
    c, made := map[], {};
    var todo := m.Keys;
    while todo != {}
      invariant todo <= m.Keys && c.Keys == m.Keys - todo && fresh(made)
      invariant forall k :: k in c ==> Represents(c[k], m[k], made)
      decreases |todo|
    {
      var key := Pick(todo);
      todo := todo - {key};
      var v;
      ghost var more;
      v, more := Decode(m[key]);
      forall k | k in c ensures Represents(c[k], m[k], made + more) {
        RepresentsMore(c[k], m[k], made, made + more);
      }
      RepresentsMore(v, m[key], more, made + more);
      c, made := c[key := v], made + more;
    }
  }

  method DecodeItems(s: seq<Tree>) returns (c: seq<Value>, ghost made: set<Node>)
    ensures Holds(Items(c), Items(s), made) && fresh(made)
    decreases Branch(Items(s)), 0
  {
    c, made := [], {};
    for i := 0 to |s|
      invariant |c| == i && fresh(made)
      invariant forall j :: 0 <= j < i ==> Represents(c[j], s[j], made)
    {
      var v;
      ghost var more;
      v, more := Decode(s[i]);
      forall j | 0 <= j < i ensures Represents(c[j], s[j], made + more) {
        RepresentsMore(c[j], s[j], made, made + more);
      }
      RepresentsMore(v, s[i], more, made + more);
      c, made := c + [v], made + more;
    }
  }

  predicate IsNullishValue(v: Value) {
    v == Scalar(Null) || v == Scalar(Text("null"))
  }

  lemma NullishAlike(v: Value, t: Tree, nodes: set<Node>)
    requires Represents(v, t, nodes)
    ensures IsNullishValue(v) <==> IsNullish(t)
  {
  }

  /** What the walk over the members leaves: untouched memory, and a clone unless nothing changed. */
  ghost predicate Walked(node: Node, obj: map<string, Tree>, next: Node, changed: bool, visited: map<string, Tree>,
                         nodes: set<Node>, all: set<Node>)
    reads all, next
  {
    && (if changed then next !in all else next == node && visited == obj && next in nodes)
    && Holds(next.content, Fields(visited), all)
  }

  /** What becomes of one member; `next` says with what it is replaced. */
  method ChangeMember(parse: Parser, s: Tree, key: string, v: Value, ghost t: Tree, ghost nodes: set<Node>)
    returns (remove: bool, next: Option<Value>, ghost all: set<Node>)
    requires IsObject(s) && HasObject(s, "properties") && Represents(v, t, nodes)
    ensures nodes <= all && fresh(all - nodes)
    ensures remove == DeclaredChange(parse, s, key, t).Remove?
    ensures next.Some? <==> DeclaredChange(parse, s, key, t).Replace?
    ensures next.Some? ==> Represents(next.value, DeclaredChange(parse, s, key, t).v, all)
    decreases s, 0, 0
  {
    hide Normalized;
    NullishAlike(v, t, nodes);
    remove, next, all := false, None, nodes;
    var properties := s.content.m["properties"].content.m;
    if !(key in properties && IsObject(properties[key])) {
      return;
    }
    var schema := properties[key];
    if IsNullishValue(v) {
      if !IsRequired(s, key) {
        remove := true;
        return;
      }
      if Field(schema, "default").Some? {
        var copy;
        ghost var made;
        copy, made := Decode(Field(schema, "default").value);
        all := nodes + made;
        RepresentsMore(copy, Field(schema, "default").value, made, all);
        next := Some(copy);
        return;
      }
    }
    var normalized, changed;
    normalized, changed, all := NormalizeValue(parse, schema, v, false, t, nodes);
    if changed {
      next := Some(normalized);
    }
  }

  /** The one change of a member, written to a clone. */
  method WriteMember(next0: Node, changed0: bool, key: string, replacement: Option<Value>,
                     ghost obj: map<string, Tree>, ghost visited: map<string, Tree>, ghost t: Tree,
                     ghost node: Node, ghost nodes: set<Node>, ghost all: set<Node>)
    returns (next: Node, ghost visited': map<string, Tree>)
    requires Walked(node, obj, next0, changed0, visited, nodes, all) && nodes <= all && key in visited
    requires replacement.Some? ==> Represents(replacement.value, t, all)
    modifies if changed0 then {next0} else {}
    ensures if changed0 then next == next0 else fresh(next)
    ensures visited' == if replacement.Some? then visited[key := t] else visited - {key}
    ensures Walked(node, obj, next, true, visited', nodes, all)
  {
    next := next0;
    if !changed0 {
      next := new Node(next0.content);
    }
    if replacement.Some? {
      HoldsPut(next.content, Fields(visited), all, Key(key), replacement.value, t);
      next.content := Fields(next.content.m[key := replacement.value]);
      visited' := visited[key := t];
    } else {
      HoldsDrop(next.content, Fields(visited), all, Key(key));
      next.content := Fields(next.content.m - {key});
      visited' := visited - {key};
    }
  }

  /** More memory around them does not disturb the objects at hand. */
  lemma WalkedMore(node: Node, obj: map<string, Tree>, next: Node, changed: bool, visited: map<string, Tree>,
                   nodes: set<Node>, all: set<Node>, more: set<Node>)
    requires Walked(node, obj, next, changed, visited, nodes, all) && all <= more && (changed ==> next !in more)
    ensures Walked(node, obj, next, changed, visited, nodes, more)
  {
    HoldsMore(next.content, Fields(visited), all, more);
  }

  lemma MemberOf(c: Content<Value>, obj: map<string, Tree>, nodes: set<Node>, all: set<Node>, key: string)
    requires Holds(c, Fields(obj), nodes) && nodes <= all && key in obj
    ensures c.Fields? && key in c.m && Represents(c.m[key], obj[key], all)
  {
    RepresentsMore(c.m[key], obj[key], nodes, all);
  }

  method VisitMembers(parse: Parser, s: Tree, node: Node, ghost obj: map<string, Tree>, ghost nodes: set<Node>)
    returns (next: Node, changed: bool, ghost visited: map<string, Tree>, ghost all: set<Node>)
    requires IsObject(s) && HasObject(s, "properties")
    requires node in nodes && Holds(node.content, Fields(obj), nodes)
    ensures Visited(parse, s, obj, {}, visited, changed)
    ensures nodes <= all && fresh(all - nodes) && (changed ==> fresh(next))
    ensures Walked(node, obj, next, changed, visited, nodes, all)
    decreases s, 0, 1
  {
    hide Visited, DeclaredChange, Holds, Represents, Walked;
    next, changed, visited, all := node, false, obj, nodes;
    StartsWalked(node, obj, nodes);
    var todo := node.content.m.Keys;
    VisitNone(parse, s, obj);
    while todo != {}
      invariant todo <= obj.Keys && Visited(parse, s, obj, todo, visited, changed)
      invariant nodes <= all && fresh(all - nodes) && (changed ==> fresh(next) && next !in all)
      invariant Walked(node, obj, next, changed, visited, nodes, all)
      decreases |todo|
    {
      var key := Pick(todo);
      ghost var todo0, before := todo, all;
      todo := todo - {key};
      MemberOf(node.content, obj, nodes, all, key);
      var currentValue := node.content.m[key];
      var remove, replacement;
      remove, replacement, all := ChangeMember(parse, s, key, currentValue, obj[key], all);
      WalkedMore(node, obj, next, changed, visited, nodes, before, all);
      ghost var change := DeclaredChange(parse, s, key, obj[key]);
      VisitOne(parse, s, obj, todo0, visited, changed, key,
               match change case Keep => visited case Remove => visited - {key} case Replace(t) => visited[key := t]);
      if remove || replacement.Some? {
        TodoPresent(parse, s, obj, todo0, visited, changed, key);
        next, visited := WriteMember(next, changed, key, if remove then None else replacement,
                                     obj, visited, if change.Replace? then change.v else Null, node, nodes, all);
        changed := true;
      }
    }
  }

  lemma StartsWalked(node: Node, obj: map<string, Tree>, nodes: set<Node>)
    requires node in nodes && Holds(node.content, Fields(obj), nodes)
    ensures node.content.Fields? && node.content.m.Keys == obj.Keys
    ensures Walked(node, obj, node, false, obj, nodes, nodes)
  {
  }

  lemma TodoPresent(parse: Parser, s: Tree, obj: map<string, Tree>, todo: set<string>, visited: map<string, Tree>,
                    changed: bool, key: string)
    requires IsObject(s) && HasObject(s, "properties")
    requires Visited(parse, s, obj, todo, visited, changed) && key in todo
    ensures key in visited
  {
    hide DeclaredChange;
  }

  /** The second loop: undeclared nulls go from what the first one left. */
  method SweepExtras(s: Tree, next0: Node, changed0: bool, ghost node: Node, ghost obj: map<string, Tree>,
                     ghost visited: map<string, Tree>, ghost nodes: set<Node>, ghost all: set<Node>)
    returns (next: Node, changed: bool, ghost swept: map<string, Tree>)
    requires IsObject(s) && HasObject(s, "properties") && ForbidsExtras(s)
    requires Walked(node, obj, next0, changed0, visited, nodes, all) && nodes <= all
    modifies if changed0 then {next0} else {}
    ensures Swept(s, false, visited, {}, swept, changed0, changed)
    ensures if changed0 then next == next0 else changed ==> fresh(next)
    ensures Walked(node, obj, next, changed, swept, nodes, all)
  {
    hide Holds, Represents, IsExtraNull, Swept, Walked;
    var knownKeys := s.content.m["properties"].content.m.Keys;
    next, changed, swept := next0, changed0, visited;
    WalkedKeys(node, obj, next, changed, visited, nodes, all);
    var ranged := next.content.m;
    var todo := ranged.Keys;
    SweepNone(s, visited, changed0);
    while todo != {}
      invariant todo <= visited.Keys
      invariant Swept(s, false, visited, todo, swept, changed0, changed)
      invariant if changed0 then next == next0 && changed else changed ==> fresh(next)
      invariant Walked(node, obj, next, changed, swept, nodes, all)
      decreases |todo|
    {
      var key := Pick(todo);
      ghost var todo0 := todo;
      todo := todo - {key};
      SweepOne(s, visited, todo0, swept, changed0, changed, key);
      if key in knownKeys || !IsNullishValue(ranged[key]) {
        continue;
      }
      next, swept := WriteMember(next, changed, key, None, obj, swept, Null, node, nodes, all);
      changed := true;
    }
  }

  lemma WalkedKeys(node: Node, obj: map<string, Tree>, next: Node, changed: bool, visited: map<string, Tree>,
                   nodes: set<Node>, all: set<Node>)
    requires Walked(node, obj, next, changed, visited, nodes, all)
    ensures next.content.Fields? && next.content.m.Keys == visited.Keys
    ensures forall key :: key in visited ==> (IsNullishValue(next.content.m[key]) <==> IsNullish(visited[key]))
  {
    forall key | key in visited ensures IsNullishValue(next.content.m[key]) <==> IsNullish(visited[key]) {
      NullishAlike(next.content.m[key], visited[key], all);
    }
  }

  lemma SweepNone(s: Tree, visited: map<string, Tree>, changed: bool)
    requires IsObject(s) && HasObject(s, "properties")
    ensures Swept(s, false, visited, visited.Keys, visited, changed, changed)
  {
  }

  lemma SweepOne(s: Tree, visited: map<string, Tree>, todo: set<string>, swept: map<string, Tree>, changed0: bool,
                 changed: bool, key: string)
    requires IsObject(s) && HasObject(s, "properties") && ForbidsExtras(s)
    requires Swept(s, false, visited, todo, swept, changed0, changed) && key in todo && todo <= visited.Keys
    ensures key in swept
    ensures if key !in s.content.m["properties"].content.m && IsNullish(visited[key])
            then Swept(s, false, visited, todo - {key}, swept - {key}, changed0, true)
            else Swept(s, false, visited, todo - {key}, swept, changed0, changed)
  {
  }

  method NormalizeObject(parse: Parser, s: Tree, node: Node, isRoot: bool, ghost obj: map<string, Tree>, ghost nodes: set<Node>)
    returns (next: Node, changed: bool, ghost all: set<Node>)
    requires IsObject(s) && HasObject(s, "properties")
    requires node in nodes && Holds(node.content, Fields(obj), nodes)
    ensures nodes <= all && fresh(all - nodes)
    ensures changed <==> NormalizedObject(parse, s, obj, isRoot).Some?
    ensures if changed then fresh(next) else next == node
    ensures changed ==> Represents(Ref(next), NormalizedObject(parse, s, obj, isRoot).value, all)
    decreases s, 0, 2
  {
    hide Visited, Swept, NormalizedObject, Holds, Walked;
    ghost var visited, final, changed0;
    next, changed, visited, all := VisitMembers(parse, s, node, obj, nodes);
    final, changed0 := visited, changed;
    if !isRoot && ForbidsExtras(s) {
      next, changed, final := SweepExtras(s, next, changed, node, obj, visited, nodes, all);
    } else {
      NothingSwept(s, isRoot, visited, changed);
    }
    Together(parse, s, obj, isRoot, visited, changed0, final, changed);
    if changed {
      WalkedValue(node, obj, next, final, nodes, all);
      all := all + {next};
    } else {
      NothingWalked(node, obj, next, final, nodes, all);
    }
  }

  lemma NothingSwept(s: Tree, isRoot: bool, visited: map<string, Tree>, changed: bool)
    requires IsObject(s) && HasObject(s, "properties") && (isRoot || !ForbidsExtras(s))
    ensures Swept(s, isRoot, visited, {}, visited, changed, changed)
  {
  }

  lemma WalkedValue(node: Node, obj: map<string, Tree>, next: Node, final: map<string, Tree>, nodes: set<Node>, all: set<Node>)
    requires Walked(node, obj, next, true, final, nodes, all)
    ensures Represents(Ref(next), Branch(Fields(final)), all + {next})
  {
    HoldsMore(next.content, Fields(final), all, all + {next});
  }

  lemma NothingWalked(node: Node, obj: map<string, Tree>, next: Node, final: map<string, Tree>, nodes: set<Node>, all: set<Node>)
    requires Walked(node, obj, next, false, final, nodes, all)
    ensures next == node
  {
  }

  method NormalizeItems(parse: Parser, items: Tree, node: Node, ghost vs: seq<Tree>, ghost nodes: set<Node>)
    returns (next: Node, changed: bool, ghost all: set<Node>)
    requires IsObject(items)
    requires node in nodes && Holds(node.content, Items(vs), nodes)
    ensures nodes <= all && fresh(all - nodes)
    ensures changed <==> NormalizedItems(parse, items, vs).Some?
    ensures if changed then fresh(next) else next == node
    ensures changed ==> Represents(Ref(next), NormalizedItems(parse, items, vs).value, all)
    decreases items, 3, 0
  {
    hide Normalized, Represents;
    var arr := node.content.s;
    var clone := new Node(Items(arr));
    changed, all := false, nodes;
    for i := 0 to |arr|
      invariant node.content == Items(arr) && Holds(node.content, Items(vs), nodes)
      invariant nodes <= all && fresh(all - nodes) && fresh(clone) && clone !in all
      invariant clone.content.Items? && |clone.content.s| == |arr|
      invariant forall j :: 0 <= j < i ==> Represents(clone.content.s[j], NormalizedItem(parse, items, vs[j]), all)
      invariant forall j :: i <= j < |vs| ==> clone.content.s[j] == arr[j]
      invariant changed <==> exists j :: 0 <= j < i && Normalized(parse, items, vs[j], false).Some?
    {
      ghost var before := all;
      RepresentsMore(arr[i], vs[i], nodes, all);
      var normalized, itemChanged;
      normalized, itemChanged, all := NormalizeValue(parse, items, arr[i], false, vs[i], all);
      forall j | 0 <= j < i ensures Represents(clone.content.s[j], NormalizedItem(parse, items, vs[j]), all) {
        RepresentsMore(clone.content.s[j], NormalizedItem(parse, items, vs[j]), before, all);
      }
      if itemChanged {
        clone.content := Items(clone.content.s[i := normalized]);
        changed := true;
      } else {
        RepresentsMore(arr[i], vs[i], before, all);
      }
    }
    if !changed {
      return node, false, all;
    }
    next := clone;
    ItemsValue(parse, items, vs, clone, all);
    all := all + {clone};
  }

  lemma ItemsValue(parse: Parser, items: Tree, vs: seq<Tree>, clone: Node, all: set<Node>)
    requires IsObject(items) && NormalizedItems(parse, items, vs).Some?
    requires clone.content.Items? && |clone.content.s| == |vs|
    requires forall j :: 0 <= j < |vs| ==> Represents(clone.content.s[j], NormalizedItem(parse, items, vs[j]), all)
    ensures Represents(Ref(clone), NormalizedItems(parse, items, vs).value, all + {clone})
  {
    hide Normalized, NormalizedItem;
    var t := NormalizedItems(parse, items, vs).value;
    assert t.content.Items? && |t.content.s| == |vs|;
    assert Holds(clone.content, t.content, all);
    HoldsMore(clone.content, t.content, all, all + {clone});
  }

  method NormalizeAnyOfLike(parse: Parser, branches: seq<Tree>, v: Value, isRoot: bool, ghost t: Tree, ghost nodes: set<Node>)
    returns (r: Value, changed: bool, ghost all: set<Node>)
    requires Represents(v, t, nodes)
    ensures nodes <= all && fresh(all - nodes)
    ensures changed <==> LastChanged(parse, branches, t, isRoot).Some?
    ensures if changed then (v.Ref? ==> r.Ref? && fresh(r.node)) else r == v
    ensures changed ==> Represents(r, LastChanged(parse, branches, t, isRoot).value, all)
    decreases branches, 1, 0
  {
    hide Normalized, Represents;
    r, changed, all := v, false, nodes;
    for i := 0 to |branches|
      invariant nodes <= all && fresh(all - nodes)
      invariant changed <==> LastChanged(parse, branches[..i], t, isRoot).Some?
      invariant if changed then (v.Ref? ==> r.Ref? && fresh(r.node)) else r == v
      invariant changed ==> Represents(r, LastChanged(parse, branches[..i], t, isRoot).value, all)
    {
      assert branches[..i + 1][..i] == branches[..i];
      if !IsObject(branches[i]) {
        continue;
      }
      ghost var before := all;
      RepresentsMore(v, t, nodes, all);
      var normalized, branchChanged;
      normalized, branchChanged, all := NormalizeValue(parse, branches[i], v, isRoot, t, all);
      if branchChanged {
        r, changed := normalized, true;
      } else if changed {
        RepresentsMore(r, LastChanged(parse, branches[..i], t, isRoot).value, before, all);
      }
    }
    assert branches[..|branches|] == branches;
  }

  method NormalizeAllOf(parse: Parser, branches: seq<Tree>, v: Value, isRoot: bool, ghost t: Tree, ghost nodes: set<Node>)
    returns (r: Value, changed: bool, ghost all: set<Node>)
    requires Represents(v, t, nodes)
    ensures nodes <= all && fresh(all - nodes)
    ensures changed <==> InTurn(parse, branches, t, isRoot).Some?
    ensures if changed then (v.Ref? ==> r.Ref? && fresh(r.node)) else r == v
    ensures changed ==> Represents(r, InTurn(parse, branches, t, isRoot).value, all)
    decreases branches, 1, 0
  {
    hide Normalized, Represents;
    r, changed, all := v, false, nodes;
    ghost var at := t;
    for i := 0 to |branches|
      invariant nodes <= all && fresh(all - nodes)
      invariant changed <==> InTurn(parse, branches[..i], t, isRoot).Some?
      invariant at == if changed then InTurn(parse, branches[..i], t, isRoot).value else t
      invariant if changed then (v.Ref? ==> r.Ref? && fresh(r.node)) else r == v
      invariant Represents(r, at, all)
    {
      assert branches[..i + 1][..i] == branches[..i];
      if !IsObject(branches[i]) {
        continue;
      }
      ghost var before := all;
      var normalized, branchChanged;
      normalized, branchChanged, all := NormalizeValue(parse, branches[i], r, isRoot, at, all);
      if branchChanged {
        r, changed := normalized, true;
        at := Normalized(parse, branches[i], at, isRoot).value;
      } else {
        RepresentsMore(r, at, before, all);
      }
    }
    assert branches[..|branches|] == branches;
  }

  /**
  The whole walk.  It writes nothing that existed before, so what it was given
  is what it was, however its parts are shared; the result is the normalised
  value, and the same reference exactly when nothing changed.
  */
  method NormalizeValue(parse: Parser, s: Tree, v: Value, isRoot: bool, ghost t: Tree, ghost nodes: set<Node>)
    returns (r: Value, changed: bool, ghost all: set<Node>)
    requires IsObject(s) && Represents(v, t, nodes)
    ensures Represents(v, t, nodes)
    ensures nodes <= all && fresh(all - nodes)
    ensures changed <==> Normalized(parse, s, t, isRoot).Some?
    ensures if changed then (v.Ref? ==> r.Ref? && fresh(r.node)) else r == v
    ensures Represents(r, if changed then Normalized(parse, s, t, isRoot).value else t, all)
    decreases s, 1, 0
  {
    hide NormalizedItems, NormalizedObject, LastChanged, InTurn;
    r, changed, all := v, false, nodes;
    if v == Scalar(Null) {
      return;
    }
    if HasBranches(s, "anyOf") {
      r, changed, all := NormalizeAnyOfLike(parse, s.content.m["anyOf"].content.s, v, isRoot, t, nodes);
      RepresentsMore(v, t, nodes, all);
      return;
    }
    if HasBranches(s, "oneOf") {
      r, changed, all := NormalizeAnyOfLike(parse, s.content.m["oneOf"].content.s, v, isRoot, t, nodes);
      RepresentsMore(v, t, nodes, all);
      return;
    }
    if HasBranches(s, "allOf") {
      r, changed, all := NormalizeAllOf(parse, s.content.m["allOf"].content.s, v, isRoot, t, nodes);
      RepresentsMore(v, t, nodes, all);
      return;
    }
    var schemaType := TypeOf(s);
    if IsNumeric(schemaType) && v.Scalar? && v.t.Text? {
      var parsed := parse(v.t.s, schemaType);
      if parsed.Some? {
        ghost var made;
        r, made := Decode(parsed.value);
        changed, all := true, nodes + made;
        RepresentsMore(r, parsed.value, made, all);
        return;
      }
    }
    if (schemaType != "" && schemaType != "object") || v.Scalar? {
      return;
    }
    if HasObject(s, "items") {
      if v.node.content.Items? {
        var clone;
        clone, changed, all := NormalizeItems(parse, s.content.m["items"], v.node, t.content.s, nodes);
        r := Ref(clone);
        RepresentsMore(v, t, nodes, all);
      }
      return;
    }
    if v.node.content.Fields? && HasObject(s, "properties") {
      var clone;
      clone, changed, all := NormalizeObject(parse, s, v.node, isRoot, t.content.m, nodes);
      r := Ref(clone);
      RepresentsMore(v, t, nodes, all);
    }
  }
}
