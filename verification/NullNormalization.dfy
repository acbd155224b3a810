/**
Normalisation of nulls in tool arguments: optional ones go, required ones take
their default, nested values follow their schemas.
*/
module NullNormalization {
  import opened Common
  import opened JsonTree

  /** Reading a value of a type from a string, if the string holds one. */
  type Parser = (string, string) -> Option<Tree>

  // ------------------------------------------------------------------ schemas

  function Field(s: Tree, key: string): Option<Tree>
    requires IsObject(s)
  {
    if key in s.content.m then Some(s.content.m[key]) else None
  }

  predicate HasBranches(s: Tree, key: string)
    requires IsObject(s)
  {
    key in s.content.m && IsArray(s.content.m[key])
  }

  function TypeOf(s: Tree): string
    requires IsObject(s)
  {
    match Field(s, "type")
    case Some(Text(name)) => name
    case _ => ""
  }

  predicate HasObject(s: Tree, key: string)
    requires IsObject(s)
  {
    key in s.content.m && IsObject(s.content.m[key])
  }

  predicate IsRequired(s: Tree, name: string)
    requires IsObject(s)
  {
    && "required" in s.content.m && IsArray(s.content.m["required"])
    && Text(name) in s.content.m["required"].content.s
  }

  predicate ForbidsExtras(s: Tree)
    requires IsObject(s)
  {
    Field(s, "additionalProperties") == Some(Bool(false))
  }

  predicate IsNullish(v: Tree) {
    v.Null? || v == Text("null")
  }

  predicate IsNumeric(name: string) {
    name == "number" || name == "integer"
  }

  // ------------------------------------------------------------ specification

  /** What normalisation does to one member of an object. */
  datatype Change = Keep | Remove | Replace(v: Tree)

  /** The normalised value, or None when nothing changes. */
  function Normalized(parse: Parser, s: Tree, v: Tree, isRoot: bool): Option<Tree>
    requires IsObject(s)
    decreases s, 1, 0
  {
    if v.Null? then None
    else if HasBranches(s, "anyOf") then LastChanged(parse, s.content.m["anyOf"].content.s, v, isRoot)
    else if HasBranches(s, "oneOf") then LastChanged(parse, s.content.m["oneOf"].content.s, v, isRoot)
    else if HasBranches(s, "allOf") then InTurn(parse, s.content.m["allOf"].content.s, v, isRoot)
    else if IsNumeric(TypeOf(s)) && v.Text? && parse(v.s, TypeOf(s)).Some? then parse(v.s, TypeOf(s))
    else if TypeOf(s) != "" && TypeOf(s) != "object" then None
    else if HasObject(s, "items") then
      if IsArray(v) then NormalizedItems(parse, s.content.m["items"], v.content.s) else None
    else if IsObject(v) && HasObject(s, "properties") then NormalizedObject(parse, s, v.content.m, isRoot)
    else None
  }

  /** Of several alternatives, the last one that changes the value decides. */
  function LastChanged(parse: Parser, branches: seq<Tree>, v: Tree, isRoot: bool): Option<Tree>
    decreases branches, 0, 0
  {
    if branches == [] then None
    else
      var last := branches[|branches| - 1];
      var changed := if IsObject(last) then Normalized(parse, last, v, isRoot) else None;
      if changed.Some? then changed else LastChanged(parse, branches[..|branches| - 1], v, isRoot)
  }

  /** Each branch in turn, on what the ones before it left. */
  function InTurn(parse: Parser, branches: seq<Tree>, v: Tree, isRoot: bool): Option<Tree>
    decreases branches, 0, 0
  {
    if branches == [] then None
    else
      var before := InTurn(parse, branches[..|branches| - 1], v, isRoot);
      var last := branches[|branches| - 1];
      var changed := if IsObject(last) then Normalized(parse, last, if before.Some? then before.value else v, isRoot) else None;
      if changed.Some? then changed else before
  }

  /** One element of an array. */
  function NormalizedItem(parse: Parser, items: Tree, v: Tree): Tree
    requires IsObject(items)
    decreases items, 2, 0
  {
    match Normalized(parse, items, v, false)
    case Some(next) => next
    case None => v
  }

  function NormalizedItems(parse: Parser, items: Tree, vs: seq<Tree>): Option<Tree>
    requires IsObject(items)
    decreases items, 3, 0
  {
    if exists i :: 0 <= i < |vs| && Normalized(parse, items, vs[i], false).Some? then
      Some(Branch(Items(seq(|vs|, i requires 0 <= i < |vs| => NormalizedItem(parse, items, vs[i])))))
    else None
  }

  /** A declared member: an optional null goes, a required one takes the default if there is one. */
  function DeclaredChange(parse: Parser, s: Tree, key: string, v: Tree): Change
    requires IsObject(s) && HasObject(s, "properties")
    decreases s, 0, 0
  {
    var properties := s.content.m["properties"];
    if !(key in properties.content.m && IsObject(properties.content.m[key])) then Keep
    else
      var schema := properties.content.m[key];
      if IsNullish(v) && !IsRequired(s, key) then Remove
      else if IsNullish(v) && Field(schema, "default").Some? then Replace(Field(schema, "default").value)
      else
        match Normalized(parse, schema, v, false)
        case Some(next) => Replace(next)
        case None => Keep
  }

  /** An undeclared null member of a nested object that forbids extras. */
  predicate IsExtraNull(s: Tree, isRoot: bool, key: string, v: Tree)
    requires IsObject(s) && HasObject(s, "properties")
  {
    !isRoot && ForbidsExtras(s) && key !in s.content.m["properties"].content.m && IsNullish(v)
  }

  function MemberChange(parse: Parser, s: Tree, isRoot: bool, key: string, v: Tree): Change
    requires IsObject(s) && HasObject(s, "properties")
    decreases s, 0, 1
  {
    if IsExtraNull(s, isRoot, key, v) then Remove else DeclaredChange(parse, s, key, v)
  }

  predicate ChangesSome(parse: Parser, s: Tree, obj: map<string, Tree>, isRoot: bool)
    requires IsObject(s) && HasObject(s, "properties")
    decreases s, 0, 2
  {
    exists key :: key in obj && !MemberChange(parse, s, isRoot, key, obj[key]).Keep?
  }

  /** Key by key: no order of the members is involved. */
  function NewMembers(parse: Parser, s: Tree, obj: map<string, Tree>, isRoot: bool): map<string, Tree>
    requires IsObject(s) && HasObject(s, "properties")
    decreases s, 0, 2
  {
    map key | key in obj && !MemberChange(parse, s, isRoot, key, obj[key]).Remove? ::
      if MemberChange(parse, s, isRoot, key, obj[key]).Replace? then MemberChange(parse, s, isRoot, key, obj[key]).v
      else obj[key]
  }

  function NormalizedObject(parse: Parser, s: Tree, obj: map<string, Tree>, isRoot: bool): Option<Tree>
    requires IsObject(s) && HasObject(s, "properties")
    decreases s, 0, 3
  {
    if ChangesSome(parse, s, obj, isRoot) then Some(Branch(Fields(NewMembers(parse, s, obj, isRoot)))) else None
  }

  // ------------------------------------------------------- member by member

  /** The members after those outside `todo` have been visited. */
  ghost predicate Visited(parse: Parser, s: Tree, obj: map<string, Tree>, todo: set<string>,
                          next: map<string, Tree>, changed: bool)
    requires IsObject(s) && HasObject(s, "properties")
  {
    && todo <= obj.Keys
    && (forall key :: key in next <==>
          key in obj && (key in todo || !DeclaredChange(parse, s, key, obj[key]).Remove?))
    && (forall key :: key in next ==>
          next[key] == if key !in todo && DeclaredChange(parse, s, key, obj[key]).Replace?
                       then DeclaredChange(parse, s, key, obj[key]).v else obj[key])
    && (changed <==> exists key :: key in obj && key !in todo && !DeclaredChange(parse, s, key, obj[key]).Keep?)
  }

  /** Visiting one more member. */
  lemma VisitOne(parse: Parser, s: Tree, obj: map<string, Tree>, todo: set<string>, next: map<string, Tree>, changed: bool,
                 key: string, next': map<string, Tree>)
    requires IsObject(s) && HasObject(s, "properties")
    requires Visited(parse, s, obj, todo, next, changed) && key in todo
    requires next' == match DeclaredChange(parse, s, key, obj[key])
                      case Keep => next
                      case Remove => next - {key}
                      case Replace(v) => next[key := v]
    ensures Visited(parse, s, obj, todo - {key}, next', changed || !DeclaredChange(parse, s, key, obj[key]).Keep?)
  {
    hide DeclaredChange, IsObject, HasObject;
  }

  lemma VisitNone(parse: Parser, s: Tree, obj: map<string, Tree>)
    requires IsObject(s) && HasObject(s, "properties")
    ensures Visited(parse, s, obj, obj.Keys, obj, false)
  {
    hide DeclaredChange;
  }

  /** The members after the undeclared nulls outside `todo` have gone too. */
  ghost predicate Swept(s: Tree, isRoot: bool, visited: map<string, Tree>, todo: set<string>, next: map<string, Tree>,
                        changed0: bool, changed: bool)
    requires IsObject(s) && HasObject(s, "properties")
  {
    && (forall key :: key in next <==> key in visited && (key in todo || !IsExtraNull(s, isRoot, key, visited[key])))
    && (forall key :: key in next ==> next[key] == visited[key])
    && (changed <==> changed0 || exists key :: key in visited && key !in todo && IsExtraNull(s, isRoot, key, visited[key]))
  }

  /** An undeclared member is kept by the first pass. */
  lemma UndeclaredKept(parse: Parser, s: Tree, isRoot: bool, key: string, v: Tree)
    requires IsObject(s) && HasObject(s, "properties") && IsExtraNull(s, isRoot, key, v)
    ensures DeclaredChange(parse, s, key, v).Keep?
  {
    hide Normalized;
  }

  /** Both passes together are the key-by-key change. */
  lemma Together(parse: Parser, s: Tree, obj: map<string, Tree>, isRoot: bool, visited: map<string, Tree>, changed0: bool,
                 next: map<string, Tree>, changed: bool)
    requires IsObject(s) && HasObject(s, "properties")
    requires Visited(parse, s, obj, {}, visited, changed0)
    requires Swept(s, isRoot, visited, {}, next, changed0, changed)
    ensures (if changed then Some(Branch(Fields(next))) else None) == NormalizedObject(parse, s, obj, isRoot)
  {
    hide DeclaredChange, IsExtraNull;
    forall key | key in obj
      ensures key in next <==> !MemberChange(parse, s, isRoot, key, obj[key]).Remove?
      ensures key in next ==>
        next[key] == if MemberChange(parse, s, isRoot, key, obj[key]).Replace?
                     then MemberChange(parse, s, isRoot, key, obj[key]).v else obj[key]
      ensures MemberChange(parse, s, isRoot, key, obj[key]).Keep? <==>
        DeclaredChange(parse, s, key, obj[key]).Keep? && !IsExtraNull(s, isRoot, key, obj[key])
      ensures IsExtraNull(s, isRoot, key, obj[key]) <==> key in visited && IsExtraNull(s, isRoot, key, visited[key])
    {
      if IsExtraNull(s, isRoot, key, obj[key]) {
        UndeclaredKept(parse, s, isRoot, key, obj[key]);
      }
      if key in visited && IsExtraNull(s, isRoot, key, visited[key]) {
        ExtraWasUndeclared(parse, s, isRoot, key, obj[key], visited[key]);
      }
    }
    assert next == NewMembers(parse, s, obj, isRoot);
  }

  lemma ExtraWasUndeclared(parse: Parser, s: Tree, isRoot: bool, key: string, v: Tree, w: Tree)
    requires IsObject(s) && HasObject(s, "properties") && IsExtraNull(s, isRoot, key, w)
    requires w == if DeclaredChange(parse, s, key, v).Replace? then DeclaredChange(parse, s, key, v).v else v
    ensures IsExtraNull(s, isRoot, key, v)
  {
    hide Normalized;
  }

  // ------------------------------------------------------------ what it keeps

  /**
  `n` can come from `v` without inventing anything: at every depth an object has
  no key the original lacks and an array as many elements; only a null or a text
  gives way to another value, a default or what the text was read as.
  */
  predicate Under(n: Tree, v: Tree)
    decreases v
  {
    match v
    case Branch(Fields(m)) => IsObject(n) && forall key :: key in n.content.m ==> key in m && Under(n.content.m[key], m[key])
    case Branch(Items(s)) => IsArray(n) && |n.content.s| == |s| && forall i :: 0 <= i < |s| ==> Under(n.content.s[i], s[i])
    case Null => true
    case Text(_) => true
    case _ => n == v
  }

  lemma {:induction false} UnderItself(v: Tree)
    ensures Under(v, v)
    decreases v
  {
    match v
    case Branch(Fields(m)) =>
      forall key | key in m ensures Under(m[key], m[key]) {
        UnderItself(m[key]);
      }
    case Branch(Items(s)) =>
      forall i | 0 <= i < |s| ensures Under(s[i], s[i]) {
        UnderItself(s[i]);
      }
    case _ =>
  }

  lemma {:induction false} UnderUnder(n: Tree, m: Tree, v: Tree)
    requires Under(n, m) && Under(m, v)
    ensures Under(n, v)
    decreases v
  {
    match v
    case Branch(Fields(vs)) =>
      forall key | key in n.content.m ensures key in vs && Under(n.content.m[key], vs[key]) {
        UnderUnder(n.content.m[key], m.content.m[key], vs[key]);
      }
    case Branch(Items(s)) =>
      forall i | 0 <= i < |s| ensures Under(n.content.s[i], s[i]) {
        UnderUnder(n.content.s[i], m.content.s[i], s[i]);
      }
    case _ =>
  }

  /** Whatever the schema, normalisation invents no key and no element, at any depth. */
  lemma {:induction false} NothingInvented(parse: Parser, s: Tree, v: Tree, isRoot: bool)
    requires IsObject(s) && Normalized(parse, s, v, isRoot).Some?
    ensures Under(Normalized(parse, s, v, isRoot).value, v)
    decreases s, 1
  {
    hide LastChanged, InTurn, Under, NormalizedItems, NewMembers, ChangesSome;
    if HasBranches(s, "anyOf") {
      LastInvents(parse, s.content.m["anyOf"].content.s, v, isRoot);
    } else if HasBranches(s, "oneOf") {
      LastInvents(parse, s.content.m["oneOf"].content.s, v, isRoot);
    } else if HasBranches(s, "allOf") {
      TurnInvents(parse, s.content.m["allOf"].content.s, v, isRoot);
    } else if IsNumeric(TypeOf(s)) && v.Text? {
      TextGivesWay(Normalized(parse, s, v, isRoot).value, v);
    } else if HasObject(s, "items") && IsArray(v) {
      ItemsInvent(parse, s.content.m["items"], v.content.s);
    } else if HasObject(s, "properties") && IsObject(v) {
      ObjectInvents(parse, s, v.content.m, isRoot);
    }
  }

  lemma TextGivesWay(n: Tree, v: Tree)
    requires v.Text? || v.Null?
    ensures Under(n, v)
  {
  }

  lemma {:induction false} LastInvents(parse: Parser, branches: seq<Tree>, v: Tree, isRoot: bool)
    requires LastChanged(parse, branches, v, isRoot).Some?
    ensures Under(LastChanged(parse, branches, v, isRoot).value, v)
    decreases branches, 0
  {
    hide Normalized, Under;
    var last := branches[|branches| - 1];
    if IsObject(last) && Normalized(parse, last, v, isRoot).Some? {
      NothingInvented(parse, last, v, isRoot);
    } else {
      LastInvents(parse, branches[..|branches| - 1], v, isRoot);
    }
  }

  lemma {:induction false} TurnInvents(parse: Parser, branches: seq<Tree>, v: Tree, isRoot: bool)
    requires InTurn(parse, branches, v, isRoot).Some?
    ensures Under(InTurn(parse, branches, v, isRoot).value, v)
    decreases branches, 0
  {
    hide Normalized, Under;
    var front, last := branches[..|branches| - 1], branches[|branches| - 1];
    var before := InTurn(parse, front, v, isRoot);
    UnderItself(v);
    if before.Some? {
      TurnInvents(parse, front, v, isRoot);
    }
    var mid := if before.Some? then before.value else v;
    if IsObject(last) && Normalized(parse, last, mid, isRoot).Some? {
      NothingInvented(parse, last, mid, isRoot);
      UnderUnder(Normalized(parse, last, mid, isRoot).value, mid, v);
    }
  }

  lemma {:induction false} ItemsInvent(parse: Parser, items: Tree, vs: seq<Tree>)
    requires IsObject(items) && NormalizedItems(parse, items, vs).Some?
    ensures Under(NormalizedItems(parse, items, vs).value, Branch(Items(vs)))
    decreases items, 2
  {
    hide Normalized;
    var n := NormalizedItems(parse, items, vs).value;
    forall i | 0 <= i < |vs| ensures Under(n.content.s[i], vs[i]) {
      UnderItself(vs[i]);
      if Normalized(parse, items, vs[i], false).Some? {
        NothingInvented(parse, items, vs[i], false);
      }
    }
  }

  /** A parser that reads numbers, and no null. */
  ghost predicate ReadsNoNull(parse: Parser) {
    forall text, name :: parse(text, name).Some? && IsNumeric(name) ==> !IsNullish(parse(text, name).value)
  }

  /** No value normalises to a null. */
  lemma {:induction false} NoNullMade(parse: Parser, s: Tree, v: Tree, isRoot: bool)
    requires IsObject(s) && ReadsNoNull(parse) && Normalized(parse, s, v, isRoot).Some?
    ensures !IsNullish(Normalized(parse, s, v, isRoot).value)
    decreases s
  {
    hide LastChanged, InTurn;
    if HasBranches(s, "anyOf") {
      LastMakesNoNull(parse, s.content.m["anyOf"].content.s, v, isRoot);
    } else if HasBranches(s, "oneOf") {
      LastMakesNoNull(parse, s.content.m["oneOf"].content.s, v, isRoot);
    } else if HasBranches(s, "allOf") {
      TurnMakesNoNull(parse, s.content.m["allOf"].content.s, v, isRoot);
    }
  }

  lemma {:induction false} LastMakesNoNull(parse: Parser, branches: seq<Tree>, v: Tree, isRoot: bool)
    requires ReadsNoNull(parse) && LastChanged(parse, branches, v, isRoot).Some?
    ensures !IsNullish(LastChanged(parse, branches, v, isRoot).value)
    decreases branches
  {
    hide Normalized, ReadsNoNull;
    var last := branches[|branches| - 1];
    if IsObject(last) && Normalized(parse, last, v, isRoot).Some? {
      NoNullMade(parse, last, v, isRoot);
    } else {
      LastMakesNoNull(parse, branches[..|branches| - 1], v, isRoot);
    }
  }

  lemma {:induction false} TurnMakesNoNull(parse: Parser, branches: seq<Tree>, v: Tree, isRoot: bool)
    requires ReadsNoNull(parse) && InTurn(parse, branches, v, isRoot).Some?
    ensures !IsNullish(InTurn(parse, branches, v, isRoot).value)
    decreases branches
  {
    hide Normalized, ReadsNoNull;
    var front, last := branches[..|branches| - 1], branches[|branches| - 1];
    var before := InTurn(parse, front, v, isRoot);
    var mid := if before.Some? then before.value else v;
    if IsObject(last) && Normalized(parse, last, mid, isRoot).Some? {
      NoNullMade(parse, last, mid, isRoot);
    } else {
      TurnMakesNoNull(parse, front, v, isRoot);
    }
  }

  lemma NewMemberAt(parse: Parser, s: Tree, obj: map<string, Tree>, isRoot: bool, key: string)
    requires IsObject(s) && HasObject(s, "properties") && key in NewMembers(parse, s, obj, isRoot)
    ensures key in obj && !MemberChange(parse, s, isRoot, key, obj[key]).Remove?
    ensures NewMembers(parse, s, obj, isRoot)[key]
         == if MemberChange(parse, s, isRoot, key, obj[key]).Replace? then MemberChange(parse, s, isRoot, key, obj[key]).v
            else obj[key]
  {
    hide MemberChange;
  }

  lemma {:induction false} ChangeInvents(parse: Parser, s: Tree, key: string, v: Tree)
    requires IsObject(s) && HasObject(s, "properties") && DeclaredChange(parse, s, key, v).Replace?
    ensures Under(DeclaredChange(parse, s, key, v).v, v)
    decreases s, 0, 0
  {
    hide Normalized, Under;
    if IsNullish(v) {
      TextGivesWay(DeclaredChange(parse, s, key, v).v, v);
    } else {
      NothingInvented(parse, s.content.m["properties"].content.m[key], v, false);
    }
  }

  lemma {:induction false} ObjectInvents(parse: Parser, s: Tree, obj: map<string, Tree>, isRoot: bool)
    requires IsObject(s) && HasObject(s, "properties")
    ensures Under(Branch(Fields(NewMembers(parse, s, obj, isRoot))), Branch(Fields(obj)))
    decreases s, 0, 1
  {
    hide DeclaredChange, NewMembers;
    var m := NewMembers(parse, s, obj, isRoot);
    forall key | key in m ensures key in obj && Under(m[key], obj[key]) {
      NewMemberAt(parse, s, obj, isRoot, key);
      UnderItself(obj[key]);
      if MemberChange(parse, s, isRoot, key, obj[key]).Replace? {
        ChangeInvents(parse, s, key, obj[key]);
      }
    }
  }

  lemma DeclaredAfterwards(parse: Parser, s: Tree, key: string, v: Tree)
    requires IsObject(s) && HasObject(s, "properties") && ReadsNoNull(parse)
    ensures var properties, change := s.content.m["properties"].content.m, DeclaredChange(parse, s, key, v);
            && (key !in properties ==> change.Keep?)
            && (key in properties && IsObject(properties[key]) && !IsRequired(s, key) ==>
                  (change.Keep? ==> !IsNullish(v)) && (change.Replace? ==> !IsNullish(change.v)))
  {
    hide Normalized, ReadsNoNull;
    var properties := s.content.m["properties"].content.m;
    if key in properties && IsObject(properties[key]) && Normalized(parse, properties[key], v, false).Some? {
      NoNullMade(parse, properties[key], v, false);
    }
  }

  /**
  What an object looks like afterwards: no optional declared member is null, a
  nested object that forbids extras has no undeclared null, and undeclared
  members are otherwise untouched.
  */
  lemma ObjectAfterwards(parse: Parser, s: Tree, obj: map<string, Tree>, isRoot: bool, key: string)
    requires IsObject(s) && HasObject(s, "properties") && ReadsNoNull(parse)
    requires key in NewMembers(parse, s, obj, isRoot)
    ensures key in obj
    ensures var v, properties := NewMembers(parse, s, obj, isRoot)[key], s.content.m["properties"].content.m;
            && (key in properties && IsObject(properties[key]) && !IsRequired(s, key) ==> !IsNullish(v))
            && (key !in properties ==> v == obj[key] && (!isRoot && ForbidsExtras(s) ==> !IsNullish(v)))
  {
    hide DeclaredChange, ReadsNoNull, NewMembers;
    NewMemberAt(parse, s, obj, isRoot, key);
    DeclaredAfterwards(parse, s, key, obj[key]);
  }
}
