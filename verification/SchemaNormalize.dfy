/**
Rewriting of JSON Schemas for providers that refuse a list of types: such a
list becomes `anyOf`, and a bare array type gets `items`.
*/
module SchemaNormalize {
  import opened Common
  import opened JsonTree

  const EMPTY_SCHEMA := Branch(Fields(map[]))

  const ARRAY := Text("array")

  predicate HasTypeList(m: map<string, Tree>) {
    "type" in m && IsArray(m["type"])
  }

  /** One alternative of a list of types. */
  function Variant(t: Tree): Tree {
    if t == ARRAY then Branch(Fields(map["type" := t, "items" := EMPTY_SCHEMA])) else Branch(Fields(map["type" := t]))
  }

  function Variants(types: seq<Tree>): seq<Tree> {
    Map(Variant, types)
  }

  /** What happens to a node once its children are done. */
  function Finish(m: map<string, Tree>): map<string, Tree> {
    if HasTypeList(m) then (m - {"type"})["anyOf" := Branch(Items(Variants(m["type"].content.s)))]
    else if "type" in m && m["type"] == ARRAY && "items" !in m then m["items" := EMPTY_SCHEMA]
    else m
  }

  /** Every object below is a node, whatever keyword it belongs to; arrays are looked into one level deep. */
  function Rewritten(t: Tree): Tree
    decreases t, 0
  {
    match t
    case Branch(Fields(m)) => Branch(Fields(Finish(map key | key in m :: Rewritten(m[key]))))
    case Branch(Items(s)) => Branch(Items(seq(|s|, i requires 0 <= i < |s| => RewrittenItem(s[i]))))
    case _ => t
  }

  function RewrittenItem(t: Tree): Tree
    decreases t, 1
  {
    if IsObject(t) then Rewritten(t) else t
  }

  function RewrittenMembers(m: map<string, Tree>): map<string, Tree> {
    map key | key in m :: Rewritten(m[key])
  }

  // ----------------------------------------------------------------- the code

  /** The children of one node, in whatever order the map gives them. */
  method NormalizeChildren(node: map<string, Tree>) returns (next: map<string, Tree>)
    ensures next == RewrittenMembers(node)
    decreases Branch(Fields(node)), 0
  {
    next := node;
    var todo := node.Keys;
    while todo != {}
      invariant todo <= node.Keys == next.Keys
      invariant forall key :: key in next ==> next[key] == if key in todo then node[key] else Rewritten(node[key])
      decreases |todo|
    {
      var key := Pick(todo);
      todo := todo - {key};
      var child := node[key];
      if IsObject(child) {
        var normalized := NormalizeNode(child.content.m);
        next := next[key := Branch(Fields(normalized))];
      } else if IsArray(child) {
        var items := NormalizeItems(child.content.s);
        next := next[key := Branch(Items(items))];
      }
    }
  }

  method NormalizeItems(items: seq<Tree>) returns (next: seq<Tree>)
    ensures Branch(Items(next)) == Rewritten(Branch(Items(items)))
    decreases Branch(Items(items)), 0
  {
    next := items;
    for i := 0 to |items|
      invariant |next| == |items|
      invariant forall j :: 0 <= j < |items| ==> next[j] == if j < i then RewrittenItem(items[j]) else items[j]
    {
      if IsObject(items[i]) {
        var normalized := NormalizeNode(items[i].content.m);
        next := next[i := Branch(Fields(normalized))];
      }
    }
    assert next == Rewritten(Branch(Items(items))).content.s;
  }

  method NormalizeNode(node: map<string, Tree>) returns (next: map<string, Tree>)
    ensures next == Finish(RewrittenMembers(node))
    ensures Branch(Fields(next)) == Rewritten(Branch(Fields(node)))
    decreases Branch(Fields(node)), 1
  {
    next := NormalizeChildren(node);
    if !("type" in next && IsArray(next["type"])) {
      if "type" in next && next["type"] == ARRAY {
        if "items" !in next {
          next := next["items" := EMPTY_SCHEMA];
        }
      }
      return;
    }
    var typeArr := next["type"].content.s;
    var anyOf: seq<Tree> := [];
    for i := 0 to |typeArr|
      invariant anyOf == Variants(typeArr[..i])
    {
      assert typeArr[..i + 1] == typeArr[..i] + [typeArr[i]];
      MapAppend(Variant, typeArr[..i], typeArr[i]);
      var variant := map["type" := typeArr[i]];
      if typeArr[i] == ARRAY {
        variant := variant["items" := EMPTY_SCHEMA];
      }
      anyOf := anyOf + [Branch(Fields(variant))];
    }
    assert typeArr[..|typeArr|] == typeArr;
    next := next - {"type"};
    next := next["anyOf" := Branch(Items(anyOf))];
  }

  // -------------------------------------------------------- node by node

  /** Rewriting keeps objects objects, arrays arrays, and leaves scalars alone. */
  lemma RewrittenKind(t: Tree)
    ensures IsArray(Rewritten(t)) <==> IsArray(t)
    ensures IsObject(Rewritten(t)) <==> IsObject(t)
    ensures !t.Branch? ==> Rewritten(t) == t
  {
    hide Finish;
  }

  /** An object whose `type`, if any, is an object itself is rewritten member by member. */
  lemma MembersRewritten(k: Tree)
    requires IsObject(k) && ("type" in k.content.m ==> !IsArray(k.content.m["type"]) && k.content.m["type"] != ARRAY)
    ensures IsObject(Rewritten(k)) && Rewritten(k).content.m == RewrittenMembers(k.content.m)
  {
    if "type" in k.content.m {
      RewrittenKind(k.content.m["type"]);
    }
  }

  lemma NamesUnchanged(types: seq<Tree>)
    requires forall i :: 0 <= i < |types| ==> types[i].Text?
    ensures Rewritten(Branch(Items(types))) == Branch(Items(types))
  {
    var rewritten := Rewritten(Branch(Items(types))).content.s;
    assert forall i :: 0 <= i < |types| ==> rewritten[i] == RewrittenItem(types[i]) == types[i];
    assert rewritten == types;
  }

  /** The members of a rewritten node with a list of types. */
  lemma ListedMembers(s: Tree)
    requires IsObject(s) && HasTypeList(s.content.m)
    ensures IsObject(Rewritten(s))
    ensures var m, m' := s.content.m, Rewritten(s).content.m;
            && m' == Finish(RewrittenMembers(m))
            && m'.Keys == m.Keys - {"type"} + {"anyOf"}
            && (forall key :: key in m && key != "type" && key != "anyOf" ==> m'[key] == Rewritten(m[key]))
            && IsArray(Rewritten(m["type"]))
            && m'["anyOf"] == Branch(Items(Variants(Rewritten(m["type"]).content.s)))
            && !HasTypeList(m')
  {
    RewrittenKind(s.content.m["type"]);
  }

  /** The members of a rewritten node without a list of types. */
  lemma PlainMembers(t: Tree)
    requires IsObject(t) && !HasTypeList(t.content.m)
    ensures IsObject(Rewritten(t))
    ensures var m, m' := t.content.m, Rewritten(t).content.m;
            && (forall key :: key in m ==> key in m' && m'[key] == Rewritten(m[key]))
            && (forall key :: key in m' && key !in m ==> m'[key] == EMPTY_SCHEMA)
            && !HasTypeList(m') && ("type" in m' && m'["type"] == ARRAY ==> "items" in m')
  {
    var m := t.content.m;
    if "type" in m {
      RewrittenKind(m["type"]);
    }
    assert Rewritten(t).content.m == Finish(RewrittenMembers(m));
  }

  // ------------------------------------------------------------ what is left

  /** Nothing left to do: no visited node has a list of types, and every array type has `items`. */
  predicate Settled(t: Tree)
    decreases t
  {
    match t
    case Branch(Fields(m)) =>
      && !HasTypeList(m) && ("type" in m && m["type"] == ARRAY ==> "items" in m)
      && forall key :: key in m ==> Settled(m[key])
    case Branch(Items(s)) => forall i :: 0 <= i < |s| && IsObject(s[i]) ==> Settled(s[i])
    case _ => true
  }

  /** Exactly the settled schemas are left alone. */
  lemma {:induction false} SettledIffUnchanged(t: Tree)
    ensures Settled(t) <==> Rewritten(t) == t
    decreases t
  {
    match t
    case Branch(Fields(m)) =>
      forall key | key in m ensures Settled(m[key]) <==> Rewritten(m[key]) == m[key] {
        SettledIffUnchanged(m[key]);
      }
      UnchangedNode(m);
    case Branch(Items(s)) =>
      forall i | 0 <= i < |s| && IsObject(s[i]) ensures Settled(s[i]) <==> Rewritten(s[i]) == s[i] {
        SettledIffUnchanged(s[i]);
      }
      UnchangedItems(s);
    case _ =>
  }

  lemma UnchangedNode(m: map<string, Tree>)
    ensures Rewritten(Branch(Fields(m))) == Branch(Fields(m)) <==>
      && !HasTypeList(m) && ("type" in m && m["type"] == ARRAY ==> "items" in m)
      && forall key :: key in m ==> Rewritten(m[key]) == m[key]
  {
    var rm := RewrittenMembers(m);
    assert Rewritten(Branch(Fields(m))) == Branch(Fields(Finish(rm)));
    if "type" in m {
      RewrittenKind(m["type"]);
    }
    if forall key :: key in m ==> Rewritten(m[key]) == m[key] {
      assert rm == m;
    }
    if Finish(rm) == m {
      assert "type" in m ==> !IsArray(m["type"]);
      forall key | key in m ensures Rewritten(m[key]) == m[key] {
        assert rm[key] == Rewritten(m[key]);
      }
    }
  }

  lemma UnchangedItems(s: seq<Tree>)
    ensures Rewritten(Branch(Items(s))) == Branch(Items(s)) <==>
      forall i :: 0 <= i < |s| && IsObject(s[i]) ==> Rewritten(s[i]) == s[i]
  {
    var rs := Rewritten(Branch(Items(s))).content.s;
    assert forall i :: 0 <= i < |s| ==> rs[i] == RewrittenItem(s[i]);
    if forall i :: 0 <= i < |s| && IsObject(s[i]) ==> Rewritten(s[i]) == s[i] {
      assert rs == s;
    }
  }

  /** No list of types that is used holds another list. */
  predicate FlatTypes(t: Tree)
    decreases t
  {
    match t
    case Branch(Fields(m)) =>
      && (HasTypeList(m) ==> forall i :: 0 <= i < |m["type"].content.s| ==> !IsArray(m["type"].content.s[i]))
      && forall key :: key in m && !(key == "anyOf" && HasTypeList(m)) ==> FlatTypes(m[key])
    case Branch(Items(s)) => forall i :: 0 <= i < |s| && IsObject(s[i]) ==> FlatTypes(s[i])
    case _ => true
  }

  lemma VariantSettled(t: Tree)
    ensures Settled(Variant(t)) <==> !IsArray(t) && Settled(t)
  {
    assert Settled(EMPTY_SCHEMA);
    var m := Variant(t).content.m;
    assert m["type"] == t;
  }

  lemma {:induction false} ItemsSettle(s: seq<Tree>)
    requires forall i :: 0 <= i < |s| && IsObject(s[i]) ==> (Settled(Rewritten(s[i])) <==> FlatTypes(s[i]))
    ensures Settled(Rewritten(Branch(Items(s)))) <==> FlatTypes(Branch(Items(s)))
    ensures Settled(Branch(Items(Variants(Rewritten(Branch(Items(s))).content.s)))) <==>
      (forall i :: 0 <= i < |s| ==> !IsArray(s[i])) && FlatTypes(Branch(Items(s)))
  {
    hide Variant, Finish;
    var rs := Rewritten(Branch(Items(s))).content.s;
    forall i | 0 <= i < |s|
      ensures rs[i] == RewrittenItem(s[i]) && (IsObject(rs[i]) <==> IsObject(s[i])) && (IsArray(rs[i]) <==> IsArray(s[i]))
      ensures !s[i].Branch? ==> Settled(rs[i])
      ensures Variants(rs)[i] == Variant(rs[i]) && IsObject(Variant(rs[i]))
      ensures Settled(Variant(rs[i])) <==> !IsArray(rs[i]) && Settled(rs[i])
    {
      RewrittenKind(s[i]);
      VariantSettled(rs[i]);
      VariantIsObject(rs[i]);
    }
  }

  lemma VariantIsObject(t: Tree)
    ensures IsObject(Variant(t))
  {
  }

  /**
  Afterwards every visited node is settled exactly when no list of types holds
  another list.
  */
  lemma {:induction false} SettledIffFlat(t: Tree)
    ensures Settled(Rewritten(t)) <==> FlatTypes(t)
    decreases t
  {
    match t
    case Branch(Fields(m)) =>
      forall key | key in m ensures Settled(Rewritten(m[key])) <==> FlatTypes(m[key]) {
        SettledIffFlat(m[key]);
      }
      if HasTypeList(m) {
        var types := m["type"].content.s;
        forall i | 0 <= i < |types| && IsObject(types[i]) ensures Settled(Rewritten(types[i])) <==> FlatTypes(types[i]) {
          SettledIffFlat(types[i]);
        }
        ItemsSettle(types);
        ListedNodeSettles(t);
      } else {
        PlainNodeSettles(t);
      }
    case Branch(Items(s)) =>
      forall i | 0 <= i < |s| && IsObject(s[i]) ensures Settled(Rewritten(s[i])) <==> FlatTypes(s[i]) {
        SettledIffFlat(s[i]);
      }
      ItemsSettle(s);
    case _ =>
  }

  lemma EmptySettled()
    ensures Settled(EMPTY_SCHEMA)
  {
  }

  lemma PlainNodeSettles(t: Tree)
    requires IsObject(t) && !HasTypeList(t.content.m)
    requires forall key :: key in t.content.m ==> (Settled(Rewritten(t.content.m[key])) <==> FlatTypes(t.content.m[key]))
    ensures Settled(Rewritten(t)) <==> FlatTypes(t)
  {
    hide Rewritten, Finish;
    PlainMembers(t);
    EmptySettled();
    var m, m' := t.content.m, Rewritten(t).content.m;
    if Settled(Rewritten(t)) {
      assert forall key :: key in m ==> Settled(m'[key]);
    }
    if FlatTypes(t) {
      assert forall key :: key in m ==> FlatTypes(m[key]);
      assert forall key :: key in m' ==> Settled(m'[key]);
    }
  }

  lemma ListedNodeSettles(t: Tree)
    requires IsObject(t) && HasTypeList(t.content.m)
    requires forall key :: key in t.content.m ==> (Settled(Rewritten(t.content.m[key])) <==> FlatTypes(t.content.m[key]))
    requires IsArray(Rewritten(t.content.m["type"]))
    requires Settled(Branch(Items(Variants(Rewritten(t.content.m["type"]).content.s)))) <==>
      (forall i :: 0 <= i < |t.content.m["type"].content.s| ==> !IsArray(t.content.m["type"].content.s[i]))
      && FlatTypes(t.content.m["type"])
    ensures Settled(Rewritten(t)) <==> FlatTypes(t)
  {
    hide Rewritten, Finish, Variants;
    ListedMembers(t);
    var m, m' := t.content.m, Rewritten(t).content.m;
    assert forall key :: key in m' ==> key == "anyOf" || (key in m && key != "type");
    assert forall key :: key in m && key != "type" && key != "anyOf" ==> key in m';
  }

  /** A second pass changes nothing exactly when no list of types holds another list. */
  lemma NormalizeTwice(t: Tree)
    ensures Rewritten(Rewritten(t)) == Rewritten(t) <==> FlatTypes(t)
  {
    hide Rewritten, Settled, FlatTypes;
    SettledIffUnchanged(Rewritten(t));
    SettledIffFlat(t);
  }

  const NESTED := Branch(Fields(map["type" := Branch(Items([Branch(Items([Text("string")]))]))]))

  /** A list of types that holds a list: the second pass rewrites what the first one made. */
  lemma SecondPassCanChange()
    ensures Rewritten(Rewritten(NESTED)) != Rewritten(NESTED)
  {
    hide Rewritten;
    var types := NESTED.content.m["type"].content.s;
    assert IsArray(types[0]) && !FlatTypes(NESTED);
    NormalizeTwice(NESTED);
  }
}
