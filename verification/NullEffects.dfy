/**
What normalisation does to a value, told from its schema: which members of an
object go, which take a default, and which are normalised under a schema of
their own; and how alternatives, combinations and arrays are treated.
*/
module NullEffects {
  import opened Common
  import opened JsonTree
  import opened NullNormalization

  /** The value after normalisation, changed or not. */
  function After(parse: Parser, s: Tree, v: Tree, isRoot: bool): Tree
    requires IsObject(s)
  {
    match Normalized(parse, s, v, isRoot)
    case Some(n) => n
    case None => v
  }

  /** `m` is a schema for objects with these properties: no alternatives, no items, no other type. */
  predicate DescribesObject(m: map<string, Tree>, properties: map<string, Tree>) {
    && "properties" in m && m["properties"] == Branch(Fields(properties))
    && (forall key :: key in ["anyOf", "oneOf", "allOf"] && key in m ==> !IsArray(m[key]))
    && ("items" in m ==> !IsObject(m["items"]))
    && ("type" in m ==> !m["type"].Text? || m["type"].s in ["", "object"])
  }

  predicate Listed(m: map<string, Tree>, name: string) {
    "required" in m && IsArray(m["required"]) && Text(name) in m["required"].content.s
  }

  /** The null a model sends: the literal, or the word. */
  predicate Blank(v: Tree) {
    v == Null || v == Text("null")
  }

  /** A declared member that need not be there. */
  predicate Optional(m: map<string, Tree>, properties: map<string, Tree>, key: string) {
    key in properties && IsObject(properties[key]) && !Listed(m, key)
  }

  /** A member no property declares, in a nested object that allows none. */
  predicate Forbidden(m: map<string, Tree>, properties: map<string, Tree>, isRoot: bool, key: string) {
    !isRoot && key !in properties && "additionalProperties" in m && m["additionalProperties"] == Bool(false)
  }

  lemma ObjectCase(parse: Parser, m: map<string, Tree>, properties: map<string, Tree>, obj: map<string, Tree>, isRoot: bool)
    requires DescribesObject(m, properties)
    ensures HasObject(Branch(Fields(m)), "properties")
    ensures Normalized(parse, Branch(Fields(m)), Branch(Fields(obj)), isRoot)
         == NormalizedObject(parse, Branch(Fields(m)), obj, isRoot)
  {
    hide NormalizedObject, LastChanged, InTurn, NormalizedItems;
    var s := Branch(Fields(m));
    assert forall key :: key in ["anyOf", "oneOf", "allOf"] ==> !HasBranches(s, key);
  }

  /** One member before and after. */
  ghost predicate Settled(parse: Parser, m: map<string, Tree>, properties: map<string, Tree>, isRoot: bool, key: string,
                          v: Tree, after: Option<Tree>)
  {
    && (after.None? <==> Blank(v) && (Optional(m, properties, key) || Forbidden(m, properties, isRoot, key)))
    && (after.Some? ==>
          if key in properties && IsObject(properties[key]) then
            if Blank(v) && "default" in properties[key].content.m then after.value == properties[key].content.m["default"]
            else after.value == After(parse, properties[key], v, false)
          else after.value == v)
  }

  lemma ChangeSettles(parse: Parser, m: map<string, Tree>, properties: map<string, Tree>, isRoot: bool, key: string, v: Tree)
    requires DescribesObject(m, properties)
    ensures var change := MemberChange(parse, Branch(Fields(m)), isRoot, key, v);
            Settled(parse, m, properties, isRoot, key, v,
                    match change case Remove => None case Replace(w) => Some(w) case Keep => Some(v))
  {
    hide Normalized;
  }

  /**
  Member by member, for every schema of an object and every object: exactly the
  null members that are optional, or that a nested object forbids, are missing
  afterwards; a required null with a default has the default; every other
  declared member is what its own schema makes of it, and every undeclared one
  is as it was.  Nothing else appears.
  */
  lemma MembersAfterwards(parse: Parser, m: map<string, Tree>, properties: map<string, Tree>, obj: map<string, Tree>,
                          isRoot: bool)
    requires DescribesObject(m, properties)
    ensures var after := After(parse, Branch(Fields(m)), Branch(Fields(obj)), isRoot);
            && IsObject(after)
            && after.content.m.Keys <= obj.Keys
            && forall key :: key in obj ==>
                 Settled(parse, m, properties, isRoot, key, obj[key],
                         if key in after.content.m then Some(after.content.m[key]) else None)
  {
    hide MemberChange, Settled, Normalized;
    var s := Branch(Fields(m));
    ObjectCase(parse, m, properties, obj, isRoot);
    var after := After(parse, s, Branch(Fields(obj)), isRoot);
    if ChangesSome(parse, s, obj, isRoot) {
      assert after == Branch(Fields(NewMembers(parse, s, obj, isRoot)));
    }
    forall key | key in obj
      ensures Settled(parse, m, properties, isRoot, key, obj[key],
                      if key in after.content.m then Some(after.content.m[key]) else None)
    {
      ChangeSettles(parse, m, properties, isRoot, key, obj[key]);
    }
  }

  // ------------------------------------------------------------------- arrays

  /** `m` is a schema with a schema for its items, and no alternatives or other type. */
  predicate DescribesArray(m: map<string, Tree>, items: Tree) {
    && "items" in m && m["items"] == items && IsObject(items)
    && (forall key :: key in ["anyOf", "oneOf", "allOf"] && key in m ==> !IsArray(m[key]))
    && ("type" in m ==> !m["type"].Text? || m["type"].s in ["", "object"])
  }

  /** Every element of an array is what the schema of its items makes of it, in its place. */
  lemma ElementsAfterwards(parse: Parser, m: map<string, Tree>, items: Tree, vs: seq<Tree>, isRoot: bool)
    requires DescribesArray(m, items)
    ensures var after := After(parse, Branch(Fields(m)), Branch(Items(vs)), isRoot);
            && IsArray(after)
            && |after.content.s| == |vs|
            && forall i :: 0 <= i < |vs| ==> after.content.s[i] == After(parse, items, vs[i], false)
  {
    hide LastChanged, InTurn, NormalizedObject;
    var s := Branch(Fields(m));
    assert forall key :: key in ["anyOf", "oneOf", "allOf"] ==> !HasBranches(s, key);
    assert Normalized(parse, s, Branch(Items(vs)), isRoot) == NormalizedItems(parse, items, vs);
  }

  // ------------------------------------------------ alternatives, combinations

  /** `r` comes from branch `i`, and no later branch changes the value. */
  ghost predicate ComesFrom(parse: Parser, branches: seq<Tree>, v: Tree, isRoot: bool, r: Option<Tree>, i: nat) {
    && i < |branches| && IsObject(branches[i])
    && r == Normalized(parse, branches[i], v, isRoot)
    && forall j :: i < j < |branches| && IsObject(branches[j]) ==> Normalized(parse, branches[j], v, isRoot).None?
  }

  lemma {:induction false} LastDecides(parse: Parser, branches: seq<Tree>, v: Tree, isRoot: bool)
    ensures var r := LastChanged(parse, branches, v, isRoot);
            if r.Some? then exists i :: ComesFrom(parse, branches, v, isRoot, r, i)
            else forall i :: 0 <= i < |branches| && IsObject(branches[i]) ==> Normalized(parse, branches[i], v, isRoot).None?
    decreases |branches|
  {
    hide Normalized;
    if branches != [] {
      var n := |branches| - 1;
      var front, last, r := branches[..n], branches[n], LastChanged(parse, branches, v, isRoot);
      LastDecides(parse, front, v, isRoot);
      if IsObject(last) && Normalized(parse, last, v, isRoot).Some? {
        assert ComesFrom(parse, branches, v, isRoot, r, n);
      } else if r.Some? {
        var i :| ComesFrom(parse, front, v, isRoot, r, i);
        assert ComesFrom(parse, branches, v, isRoot, r, i);
      } else {
        assert forall i :: 0 <= i < n ==> branches[i] == front[i];
      }
    }
  }

  /**
  Under `anyOf`, or under `oneOf` where there is no `anyOf`, each alternative is
  tried on the value as it is: it changes exactly when one of them changes it,
  and then the last one that does decides.
  */
  lemma AlternativesAfterwards(parse: Parser, m: map<string, Tree>, word: string, branches: seq<Tree>, v: Tree, isRoot: bool)
    requires word == "anyOf" || (word == "oneOf" && ("anyOf" in m ==> !IsArray(m["anyOf"])))
    requires word in m && m[word] == Branch(Items(branches)) && v != Null
    ensures var r := Normalized(parse, Branch(Fields(m)), v, isRoot);
            if r.Some? then exists i :: ComesFrom(parse, branches, v, isRoot, r, i)
            else forall i :: 0 <= i < |branches| && IsObject(branches[i]) ==> Normalized(parse, branches[i], v, isRoot).None?
  {
    hide LastChanged, InTurn, NormalizedObject, NormalizedItems;
    LastDecides(parse, branches, v, isRoot);
    assert HasBranches(Branch(Fields(m)), word);
    assert Normalized(parse, Branch(Fields(m)), v, isRoot) == LastChanged(parse, branches, v, isRoot);
  }

  /** One branch of a combination. */
  function Through(parse: Parser, branch: Tree, v: Tree, isRoot: bool): Tree {
    if IsObject(branch) then After(parse, branch, v, isRoot) else v
  }

  /** The values a combination goes through, one branch after another. */
  ghost predicate Chain(parse: Parser, branches: seq<Tree>, v: Tree, isRoot: bool, vs: seq<Tree>) {
    && |vs| == |branches| + 1 && vs[0] == v
    && forall i :: 0 <= i < |branches| ==> vs[i + 1] == Through(parse, branches[i], vs[i], isRoot)
  }

  lemma {:induction false} TurnsChain(parse: Parser, branches: seq<Tree>, v: Tree, isRoot: bool) returns (vs: seq<Tree>)
    ensures Chain(parse, branches, v, isRoot, vs)
    ensures var r := InTurn(parse, branches, v, isRoot);
            && vs[|branches|] == (if r.Some? then r.value else v)
            && (r.Some? <==> exists i :: 0 <= i < |branches| && IsObject(branches[i])
                                    && Normalized(parse, branches[i], vs[i], isRoot).Some?)
    decreases |branches|
  {
    hide Normalized;
    if branches == [] {
      vs := [v];
    } else {
      var n := |branches| - 1;
      var front, last := branches[..n], branches[n];
      var before := TurnsChain(parse, front, v, isRoot);
      vs := before + [Through(parse, last, before[n], isRoot)];
      assert forall i :: 0 <= i < n ==> branches[i] == front[i];
      assert forall i :: 0 <= i <= n ==> vs[i] == before[i];
    }
  }

  /** Under `allOf` every branch is applied in turn, each to what the ones before it left. */
  lemma CombinationAfterwards(parse: Parser, m: map<string, Tree>, branches: seq<Tree>, v: Tree, isRoot: bool)
    returns (vs: seq<Tree>)
    requires forall key :: key in ["anyOf", "oneOf"] && key in m ==> !IsArray(m[key])
    requires "allOf" in m && m["allOf"] == Branch(Items(branches)) && v != Null
    ensures Chain(parse, branches, v, isRoot, vs)
    ensures After(parse, Branch(Fields(m)), v, isRoot) == vs[|branches|]
    ensures Normalized(parse, Branch(Fields(m)), v, isRoot).Some?
       <==> exists i :: 0 <= i < |branches| && IsObject(branches[i]) && Normalized(parse, branches[i], vs[i], isRoot).Some?
  {
    hide LastChanged, InTurn, NormalizedObject, NormalizedItems, Chain;
    vs := TurnsChain(parse, branches, v, isRoot);
    assert forall key :: key in ["anyOf", "oneOf"] ==> !HasBranches(Branch(Fields(m)), key);
    assert Normalized(parse, Branch(Fields(m)), v, isRoot) == InTurn(parse, branches, v, isRoot);
  }

  /**
  Without alternatives or combinations: a text under a number type becomes the
  number it holds, if it holds one; any other value under a type that is not an
  object's stays as it is, and so does every null under every schema.
  */
  lemma ScalarsAfterwards(parse: Parser, m: map<string, Tree>, v: Tree, isRoot: bool)
    requires forall key :: key in ["anyOf", "oneOf", "allOf"] && key in m ==> !IsArray(m[key])
    requires "type" in m && m["type"].Text? && m["type"].s != "" && m["type"].s != "object"
    ensures After(parse, Branch(Fields(m)), v, isRoot)
         == if v.Text? && m["type"].s in ["number", "integer"] && parse(v.s, m["type"].s).Some?
            then parse(v.s, m["type"].s).value else v
  {
    hide LastChanged, InTurn, NormalizedObject, NormalizedItems;
    assert forall key :: key in ["anyOf", "oneOf", "allOf"] ==> !HasBranches(Branch(Fields(m)), key);
  }

  lemma NullStays(parse: Parser, s: Tree, isRoot: bool)
    requires IsObject(s)
    ensures After(parse, s, Null, isRoot) == Null
  {
  }
}
