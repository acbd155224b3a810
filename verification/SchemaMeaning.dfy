/**
What a JSON Schema means (JSON Schema 2020-12, Core sections 8.2.3, 10 and 11,
Validation section 6.1.1), and what rewriting it does to that meaning.
*/
module SchemaMeaning {
  import opened Common
  import opened JsonTree
  import opened SchemaNormalize

  // ------------------------------------------------------------- subschemas

  /** Where a schema holds another one: under a keyword, in its list, under one of its names, or by reference. */
  datatype Sub = Own(key: string) | Nth(key: string, i: nat) | Named(key: string, name: string) | Target

  /** Keywords that hold one schema. */
  predicate HoldsSchema(key: string) {
    key in {"not", "if", "then", "else", "items", "contains", "additionalProperties", "propertyNames",
            "unevaluatedProperties", "unevaluatedItems"}
  }

  /** Keywords that hold a list of schemas. */
  predicate HoldsList(key: string) {
    key in {"anyOf", "allOf", "oneOf", "prefixItems"}
  }

  /** Keywords that hold schemas under names. */
  predicate HoldsMap(key: string) {
    key in {"properties", "patternProperties", "dependentSchemas"}
  }

  /** Keywords that by themselves say nothing about a value. */
  predicate SaysNothing(key: string) {
    key in {"$defs", "definitions", "default", "examples", "title", "description", "$comment", "contentSchema"}
  }

  predicate Has(m: map<string, Tree>, sub: Sub) {
    && !sub.Target? && sub.key in m
    && match sub
       case Own(key) => HoldsSchema(key)
       case Nth(key, i) => HoldsList(key) && IsArray(m[key]) && i < |m[key].content.s|
       case Named(key, name) => HoldsMap(key) && IsObject(m[key]) && name in m[key].content.m
       case Target => false
  }

  function At(m: map<string, Tree>, sub: Sub): Tree
    requires Has(m, sub)
  {
    match sub
    case Own(key) => m[key]
    case Nth(key, i) => m[key].content.s[i]
    case Named(key, name) => m[key].content.m[name]
  }

  // ---------------------------------------------------------------- meaning

  /**
  What a validator brings along: types, patterns, how many matches `contains`
  wants, how a reference spells a path into the document and a path an index,
  and what it makes of every keyword that holds no schema.
  */
  datatype Vocabulary = Vocabulary(
    hasType: (Tree, string) -> bool,
    matches: (string, string) -> bool,
    enough: (Option<Tree>, Option<Tree>, nat) -> bool,
    target: string -> Option<seq<string>>,
    index: string -> Option<nat>,
    other: (string, Tree, Tree) -> bool)

  /** A member or an element of the value at hand. */
  datatype Place = Name(name: string) | Position(i: nat)

  /**
  What one schema can ask of its subschemas: whether a value satisfies one, and
  whether one has evaluated a place of the value.
  */
  datatype View = View(reaches: bool, holds: (Sub, Tree) -> bool, covers: (Sub, Tree, Place) -> bool)

  predicate TypeAllows(vocabulary: Vocabulary, t: Tree, v: Tree) {
    match t
    case Text(name) => vocabulary.hasType(v, name)
    case Branch(Items(names)) => exists i :: 0 <= i < |names| && names[i].Text? && vocabulary.hasType(v, names[i].s)
    case _ => true
  }

  function Sibling(m: map<string, Tree>, key: string): Option<Tree> {
    if key in m then Some(m[key]) else None
  }

  function PrefixLength(m: map<string, Tree>): nat {
    if "prefixItems" in m && IsArray(m["prefixItems"]) then |m["prefixItems"].content.s| else 0
  }

  /** A member that neither `properties` nor `patternProperties` speaks of. */
  ghost predicate IsExtra(vocabulary: Vocabulary, m: map<string, Tree>, name: string) {
    && !("properties" in m && IsObject(m["properties"]) && name in m["properties"].content.m)
    && !("patternProperties" in m && IsObject(m["patternProperties"])
         && exists pattern :: pattern in m["patternProperties"].content.m && vocabulary.matches(pattern, name))
  }

  /** How many elements satisfy `contains`. */
  ghost function Matches(view: View, elements: seq<Tree>): nat {
    if elements == [] then 0 else
    Matches(view, elements[..|elements| - 1]) + (if view.holds(Own("contains"), elements[|elements| - 1]) then 1 else 0)
  }

  /** With `shadow`, a list of types makes the node's own `anyOf` count for nothing. */
  predicate Shadowed(m: map<string, Tree>, key: string, shadow: bool) {
    key == "anyOf" && shadow && HasTypeList(m)
  }

  /** Whether one keyword evaluates a place of the value, as `unevaluated...` beside it wants to know. */
  ghost predicate KeywordCovers(vocabulary: Vocabulary, shadow: bool, m: map<string, Tree>, key: string, v: Tree,
                                view: View, place: Place)
    requires key in m
  {
    var k := m[key];
    if key == "properties" then place.Name? && IsObject(k) && IsObject(v) && place.name in k.content.m && place.name in v.content.m
    else if key == "patternProperties" then
      place.Name? && IsObject(k) && exists pattern :: pattern in k.content.m && vocabulary.matches(pattern, place.name)
    else if key == "additionalProperties" then place.Name? && IsExtra(vocabulary, m, place.name)
    else if key == "unevaluatedProperties" then place.Name?
    else if key == "prefixItems" then place.Position? && place.i < PrefixLength(m)
    else if key == "items" || key == "unevaluatedItems" then place.Position?
    else if key == "contains" then
      place.Position? && IsArray(v) && place.i < |v.content.s| && view.holds(Own(key), v.content.s[place.i])
    else if key == "anyOf" || key == "allOf" || key == "oneOf" then
      && IsArray(k) && !Shadowed(m, key, shadow)
      && exists i :: 0 <= i < |k.content.s| && view.holds(Nth(key, i), v) && view.covers(Nth(key, i), v, place)
    else if key == "if" then
      if view.holds(Own("if"), v)
      then view.covers(Own("if"), v, place) || ("then" in m && view.covers(Own("then"), v, place))
      else "else" in m && view.covers(Own("else"), v, place)
    else if key == "dependentSchemas" then
      && IsObject(k) && IsObject(v)
      && exists name :: name in k.content.m && name in v.content.m && view.covers(Named(key, name), v, place)
    else key == "$ref" && view.reaches && view.covers(Target, v, place)
  }

  /** One keyword is present and evaluates the place. */
  ghost predicate CoversBy(vocabulary: Vocabulary, shadow: bool, m: map<string, Tree>, key: string, v: Tree,
                           view: View, place: Place)
  {
    key in m && KeywordCovers(vocabulary, shadow, m, key, v, view, place)
  }

  /** Some keyword evaluates the place. */
  ghost predicate Covered(vocabulary: Vocabulary, shadow: bool, m: map<string, Tree>, v: Tree, view: View, place: Place) {
    exists key :: CoversBy(vocabulary, shadow, m, key, v, view, place)
  }

  /** Some keyword beside `key` does. */
  ghost predicate CoveredBeside(vocabulary: Vocabulary, shadow: bool, m: map<string, Tree>, key: string, v: Tree,
                                view: View, place: Place)
  {
    exists other :: other != key && CoversBy(vocabulary, shadow, m, other, v, view, place)
  }

  ghost predicate KeywordHolds(vocabulary: Vocabulary, shadow: bool, m: map<string, Tree>, key: string, v: Tree, view: View)
    requires key in m
  {
    var k := m[key];
    if HoldsList(key) then ListHolds(m, key, v, shadow, view)
    else if HoldsMap(key) then MapHolds(vocabulary, k, key, v, view)
    else if HoldsSchema(key) then SchemaHolds(vocabulary, shadow, m, key, v, view)
    else if key == "type" then TypeAllows(vocabulary, k, v)
    else if key == "$ref" && view.reaches then view.holds(Target, v)
    else SaysNothing(key) || vocabulary.other(key, k, v)
  }

  ghost predicate ListHolds(m: map<string, Tree>, key: string, v: Tree, shadow: bool, view: View)
    requires key in m
  {
    IsArray(m[key]) && !Shadowed(m, key, shadow) ==>
      var n := |m[key].content.s|;
      if key == "anyOf" then exists i :: 0 <= i < n && view.holds(Nth(key, i), v)
      else if key == "allOf" then forall i :: 0 <= i < n ==> view.holds(Nth(key, i), v)
      else if key == "oneOf" then
        exists i :: 0 <= i < n && view.holds(Nth(key, i), v) && forall j :: 0 <= j < n && j != i ==> !view.holds(Nth(key, j), v)
      else IsArray(v) ==> forall i :: 0 <= i < n && i < |v.content.s| ==> view.holds(Nth(key, i), v.content.s[i])
  }

  ghost predicate MapHolds(vocabulary: Vocabulary, k: Tree, key: string, v: Tree, view: View) {
    IsObject(k) && IsObject(v) ==>
      forall name, at :: name in k.content.m && at in v.content.m ==>
        if key == "properties" then name == at ==> view.holds(Named(key, name), v.content.m[at])
        else if key == "patternProperties" then vocabulary.matches(name, at) ==> view.holds(Named(key, name), v.content.m[at])
        else name == at ==> view.holds(Named(key, name), v)
  }

  ghost predicate SchemaHolds(vocabulary: Vocabulary, shadow: bool, m: map<string, Tree>, key: string, v: Tree, view: View) {
    if key == "not" then !view.holds(Own(key), v)
    else if key == "if" then
      if view.holds(Own(key), v) then "then" in m ==> view.holds(Own("then"), v)
      else "else" in m ==> view.holds(Own("else"), v)
    else if key == "then" || key == "else" then true
    else if key == "items" then
      IsArray(v) ==> forall i :: PrefixLength(m) <= i < |v.content.s| ==> view.holds(Own(key), v.content.s[i])
    else if key == "contains" then
      IsArray(v) ==> vocabulary.enough(Sibling(m, "minContains"), Sibling(m, "maxContains"), Matches(view, v.content.s))
    else if key == "propertyNames" then
      IsObject(v) ==> forall name :: name in v.content.m ==> view.holds(Own(key), Text(name))
    else if key == "additionalProperties" then
      IsObject(v) ==>
        forall name :: name in v.content.m && IsExtra(vocabulary, m, name) ==> view.holds(Own(key), v.content.m[name])
    else if key == "unevaluatedProperties" then
      IsObject(v) ==>
        forall name :: name in v.content.m && !CoveredBeside(vocabulary, shadow, m, key, v, view, Name(name)) ==>
          view.holds(Own(key), v.content.m[name])
    else
      IsArray(v) ==>
        forall i :: 0 <= i < |v.content.s| && !CoveredBeside(vocabulary, shadow, m, key, v, view, Position(i)) ==>
          view.holds(Own(key), v.content.s[i])
  }

  /** Follows a path into a document. */
  function Locate(vocabulary: Vocabulary, t: Tree, path: seq<string>): Option<Tree>
    decreases |path|
  {
    if path == [] then Some(t) else
    match t
    case Branch(Fields(m)) => if path[0] in m then Locate(vocabulary, m[path[0]], path[1..]) else None
    case Branch(Items(s)) =>
      var i := vocabulary.index(path[0]);
      if i.Some? && i.value < |s| then Locate(vocabulary, s[i.value], path[1..]) else None
    case _ => None
  }

  /** A document read by a validator. */
  datatype Reading = Reading(vocabulary: Vocabulary, root: Tree, shadow: bool)

  /** The path a node's reference spells, if it is one into the document. */
  function Path(vocabulary: Vocabulary, m: map<string, Tree>): Option<seq<string>> {
    if "$ref" in m && m["$ref"].Text? then vocabulary.target(m["$ref"].s) else None
  }

  /** The schema a node refers to, as long as references may be followed. */
  function Reached(r: Reading, m: map<string, Tree>, n: nat): (t: Option<Tree>)
    ensures t.Some? ==> n > 0
  {
    var path := Path(r.vocabulary, m);
    if n > 0 && path.Some? then Locate(r.vocabulary, r.root, path.value) else None
  }

  /** Whether `v` satisfies `s` when no more than `n` references are followed one after another. */
  ghost predicate Valid(r: Reading, s: Tree, v: Tree, n: nat)
    decreases n, s, 1
  {
    match s
    case Bool(b) => b
    case Branch(Fields(m)) =>
      var view := ViewAt(r, s, n);
      forall key :: key in m ==> KeywordHolds(r.vocabulary, r.shadow, m, key, v, view)
    case _ => true
  }

  /** Whether `s` evaluates a place of `v`. */
  ghost predicate Covers(r: Reading, s: Tree, v: Tree, place: Place, n: nat)
    decreases n, s, 1
  {
    IsObject(s) && Covered(r.vocabulary, r.shadow, s.content.m, v, ViewAt(r, s, n), place)
  }

  ghost function ViewAt(r: Reading, s: Tree, n: nat): View
    requires IsObject(s)
    decreases n, s, 0
  {
    var m := s.content.m;
    var target := Reached(r, m, n);
    View(
      target.Some?,
      (sub: Sub, w: Tree) =>
        if sub.Target? then target.Some? && Valid(r, target.value, w, n - 1)
        else Has(m, sub) && Valid(r, At(m, sub), w, n),
      (sub: Sub, w: Tree, place: Place) =>
        if sub.Target? then target.Some? && Covers(r, target.value, w, place, n - 1)
        else Has(m, sub) && Covers(r, At(m, sub), w, place, n))
  }
}
