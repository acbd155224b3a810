/** What rewriting a schema does to the values it admits. */
module SchemaPreserved {
  import opened Common
  import opened JsonTree
  import opened SchemaNormalize
  import opened SchemaMeaning

  // ------------------------------------------------------------ congruence

  /** Keywords whose subschemas judge the value itself, and so can evaluate places of it. */
  predicate InPlace(key: string) {
    key in {"anyOf", "allOf", "oneOf", "if", "then", "else", "dependentSchemas"}
  }

  /** Two views answer alike, except about the subschemas of some keywords; `all` asks for elements too. */
  ghost predicate ViewsAgree(a: View, b: View, besides: set<string>, all: bool) {
    && a.reaches == b.reaches
    && (forall sub: Sub, w: Tree :: sub.Target? || sub.key !in besides ==> (a.holds(sub, w) <==> b.holds(sub, w)))
    && (forall sub: Sub, w: Tree, place: Place :: (sub.Target? || (sub.key !in besides && InPlace(sub.key))) && (all || place.Name?) ==>
          (a.covers(sub, w, place) <==> b.covers(sub, w, place)))
  }

  /** Two forms of one keyword hold subschemas in the same places, and the same data. */
  ghost predicate SameForm(m: map<string, Tree>, m': map<string, Tree>, key: string) {
    && key in m && key in m'
    && (IsArray(m[key]) <==> IsArray(m'[key]))
    && (IsObject(m[key]) <==> IsObject(m'[key]))
    && (HoldsList(key) && IsArray(m[key]) ==> |m[key].content.s| == |m'[key].content.s|)
    && (HoldsMap(key) && IsObject(m[key]) ==> m[key].content.m.Keys == m'[key].content.m.Keys)
    && (!HoldsList(key) && !HoldsMap(key) && !HoldsSchema(key) && !SaysNothing(key) ==> m'[key] == m[key])
  }

  /** What a keyword looks at beside itself is the same. */
  ghost predicate SameSiblings(vocabulary: Vocabulary, m: map<string, Tree>, m': map<string, Tree>) {
    && ("then" in m <==> "then" in m') && ("else" in m <==> "else" in m')
    && PrefixLength(m) == PrefixLength(m')
    && Sibling(m, "minContains") == Sibling(m', "minContains") && Sibling(m, "maxContains") == Sibling(m', "maxContains")
    && forall name :: IsExtra(vocabulary, m, name) <==> IsExtra(vocabulary, m', name)
  }

  lemma {:induction false} MatchesAgree(a: View, b: View, elements: seq<Tree>, besides: set<string>, all: bool)
    requires ViewsAgree(a, b, besides, all) && "contains" !in besides
    ensures Matches(a, elements) == Matches(b, elements)
  {
    if elements != [] {
      MatchesAgree(a, b, elements[..|elements| - 1], besides, all);
    }
  }

  /** What two forms of one keyword of a node are compared under. */
  ghost predicate Comparable(vocabulary: Vocabulary, m: map<string, Tree>, m': map<string, Tree>, key: string,
                             a: View, b: View, sh: bool, sh': bool, besides: set<string>, all: bool)
  {
    && ViewsAgree(a, b, besides, all) && SameForm(m, m', key) && SameSiblings(vocabulary, m, m')
    && key !in besides && "then" !in besides && "else" !in besides && "contains" !in besides
    && !Shadowed(m, key, sh) && !Shadowed(m', key, sh')
  }

  lemma BranchesCoverAgree(vocabulary: Vocabulary, m: map<string, Tree>, m': map<string, Tree>, key: string, v: Tree,
                           a: View, b: View, place: Place, sh: bool, sh': bool, besides: set<string>, all: bool)
    requires Comparable(vocabulary, m, m', key, a, b, sh, sh', besides, all) && (all || place.Name?)
    requires HoldsList(key)
    ensures KeywordCovers(vocabulary, sh, m, key, v, a, place) <==> KeywordCovers(vocabulary, sh', m', key, v, b, place)
  {
    hide Shadowed, IsExtra, PrefixLength;
  }

  lemma MembersCoverAgree(vocabulary: Vocabulary, m: map<string, Tree>, m': map<string, Tree>, key: string, v: Tree,
                          a: View, b: View, place: Place, sh: bool, sh': bool, besides: set<string>, all: bool)
    requires Comparable(vocabulary, m, m', key, a, b, sh, sh', besides, all) && (all || place.Name?)
    requires HoldsMap(key)
    ensures KeywordCovers(vocabulary, sh, m, key, v, a, place) <==> KeywordCovers(vocabulary, sh', m', key, v, b, place)
  {
    hide Shadowed, IsExtra, PrefixLength;
  }

  lemma CoversAgree(vocabulary: Vocabulary, m: map<string, Tree>, m': map<string, Tree>, key: string, v: Tree,
                    a: View, b: View, place: Place, sh: bool, sh': bool, besides: set<string>, all: bool)
    requires Comparable(vocabulary, m, m', key, a, b, sh, sh', besides, all) && (all || place.Name?)
    ensures KeywordCovers(vocabulary, sh, m, key, v, a, place) <==> KeywordCovers(vocabulary, sh', m', key, v, b, place)
  {
    hide Shadowed, IsExtra, PrefixLength, Has;
    if HoldsList(key) {
      BranchesCoverAgree(vocabulary, m, m', key, v, a, b, place, sh, sh', besides, all);
    } else if HoldsMap(key) {
      MembersCoverAgree(vocabulary, m, m', key, v, a, b, place, sh, sh', besides, all);
    }
  }

  lemma ListAgrees(m: map<string, Tree>, m': map<string, Tree>, key: string, v: Tree,
                   a: View, b: View, sh: bool, sh': bool, besides: set<string>, all: bool)
    requires ViewsAgree(a, b, besides, all) && SameForm(m, m', key) && HoldsList(key) && key !in besides
    requires !Shadowed(m, key, sh) && !Shadowed(m', key, sh')
    ensures ListHolds(m, key, v, sh, a) <==> ListHolds(m', key, v, sh', b)
  {
    hide Shadowed;
  }

  lemma MapAgrees(vocabulary: Vocabulary, m: map<string, Tree>, m': map<string, Tree>, key: string, v: Tree,
                  a: View, b: View, besides: set<string>, all: bool)
    requires ViewsAgree(a, b, besides, all) && SameForm(m, m', key) && HoldsMap(key) && key !in besides
    ensures MapHolds(vocabulary, m[key], key, v, a) <==> MapHolds(vocabulary, m'[key], key, v, b)
  {
  }

  lemma SchemaAgrees(vocabulary: Vocabulary, m: map<string, Tree>, m': map<string, Tree>, key: string, v: Tree,
                     a: View, b: View, sh: bool, sh': bool, besides: set<string>, all: bool)
    requires Comparable(vocabulary, m, m', key, a, b, sh, sh', besides, all) && HoldsSchema(key)
    requires key == "unevaluatedItems" ==> all
    requires forall place: Place :: all || place.Name? ==>
      (CoveredBeside(vocabulary, sh, m, key, v, a, place) <==> CoveredBeside(vocabulary, sh', m', key, v, b, place))
    ensures SchemaHolds(vocabulary, sh, m, key, v, a) <==> SchemaHolds(vocabulary, sh', m', key, v, b)
  {
    hide Shadowed, CoveredBeside, IsExtra, PrefixLength, Matches;
    if IsArray(v) {
      MatchesAgree(a, b, v.content.s, besides, all);
    }
  }

  /** A keyword whose subschemas are judged alike holds alike. */
  lemma KeywordAgrees(vocabulary: Vocabulary, m: map<string, Tree>, m': map<string, Tree>, key: string, v: Tree,
                      a: View, b: View, sh: bool, sh': bool, besides: set<string>, all: bool)
    requires Comparable(vocabulary, m, m', key, a, b, sh, sh', besides, all)
    requires key == "unevaluatedItems" ==> all
    requires forall place: Place :: all || place.Name? ==>
      (CoveredBeside(vocabulary, sh, m, key, v, a, place) <==> CoveredBeside(vocabulary, sh', m', key, v, b, place))
    ensures KeywordHolds(vocabulary, sh, m, key, v, a) <==> KeywordHolds(vocabulary, sh', m', key, v, b)
  {
    hide Shadowed, CoveredBeside, ListHolds, MapHolds, SchemaHolds, SameSiblings;
    if HoldsList(key) {
      ListAgrees(m, m', key, v, a, b, sh, sh', besides, all);
    } else if HoldsMap(key) {
      MapAgrees(vocabulary, m, m', key, v, a, b, besides, all);
    } else if HoldsSchema(key) {
      SchemaAgrees(vocabulary, m, m', key, v, a, b, sh, sh', besides, all);
    }
  }

  /** The keywords of two nodes other than `besides` can be compared, and `besides` evaluate nothing that counts. */
  ghost predicate Alike(vocabulary: Vocabulary, m: map<string, Tree>, m': map<string, Tree>, v: Tree,
                        a: View, b: View, sh: bool, sh': bool, besides: set<string>, all: bool)
  {
    && (forall key :: key !in besides ==> (key in m <==> key in m'))
    && (forall key :: key in m && key !in besides ==>
          Comparable(vocabulary, m, m', key, a, b, sh, sh', besides, all) && (key == "unevaluatedItems" ==> all))
    && (forall key, place: Place :: key in m && key in besides && (all || place.Name?) ==>
          !KeywordCovers(vocabulary, sh, m, key, v, a, place))
    && (forall key, place: Place :: key in m' && key in besides && (all || place.Name?) ==>
          !KeywordCovers(vocabulary, sh', m', key, v, b, place))
  }

  lemma KeyCovers(vocabulary: Vocabulary, m: map<string, Tree>, m': map<string, Tree>, key: string, v: Tree,
                  a: View, b: View, place: Place, sh: bool, sh': bool, besides: set<string>, all: bool)
    requires Alike(vocabulary, m, m', v, a, b, sh, sh', besides, all) && (all || place.Name?)
    ensures CoversBy(vocabulary, sh, m, key, v, a, place) <==> CoversBy(vocabulary, sh', m', key, v, b, place)
  {
    hide KeywordCovers, Comparable;
    if key in m && key !in besides {
      CoversAgree(vocabulary, m, m', key, v, a, b, place, sh, sh', besides, all);
    }
  }

  lemma RestCovers(vocabulary: Vocabulary, m: map<string, Tree>, m': map<string, Tree>, v: Tree,
                   a: View, b: View, place: Place, sh: bool, sh': bool, besides: set<string>, all: bool)
    requires Alike(vocabulary, m, m', v, a, b, sh, sh', besides, all) && (all || place.Name?)
    ensures Covered(vocabulary, sh, m, v, a, place) <==> Covered(vocabulary, sh', m', v, b, place)
    ensures forall key :: CoveredBeside(vocabulary, sh, m, key, v, a, place) <==> CoveredBeside(vocabulary, sh', m', key, v, b, place)
  {
    hide CoversBy, Alike;
    forall key
      ensures CoversBy(vocabulary, sh, m, key, v, a, place) <==> CoversBy(vocabulary, sh', m', key, v, b, place)
    {
      KeyCovers(vocabulary, m, m', key, v, a, b, place, sh, sh', besides, all);
    }
  }

  lemma AlikeAt(vocabulary: Vocabulary, m: map<string, Tree>, m': map<string, Tree>, v: Tree,
                a: View, b: View, sh: bool, sh': bool, besides: set<string>, all: bool, key: string)
    requires Alike(vocabulary, m, m', v, a, b, sh, sh', besides, all) && key in m && key !in besides
    ensures key in m' && Comparable(vocabulary, m, m', key, a, b, sh, sh', besides, all)
    ensures key == "unevaluatedItems" ==> all
  {
    hide KeywordCovers, Comparable;
  }

  lemma OneAgrees(vocabulary: Vocabulary, m: map<string, Tree>, m': map<string, Tree>, v: Tree,
                  a: View, b: View, sh: bool, sh': bool, besides: set<string>, all: bool, key: string)
    requires Alike(vocabulary, m, m', v, a, b, sh, sh', besides, all) && key in m && key !in besides
    ensures key in m' && (KeywordHolds(vocabulary, sh, m, key, v, a) <==> KeywordHolds(vocabulary, sh', m', key, v, b))
  {
    hide Alike, KeywordHolds, Comparable, CoveredBeside, Covered;
    AlikeAt(vocabulary, m, m', v, a, b, sh, sh', besides, all, key);
    forall place: Place | all || place.Name?
      ensures CoveredBeside(vocabulary, sh, m, key, v, a, place) <==> CoveredBeside(vocabulary, sh', m', key, v, b, place)
    {
      RestCovers(vocabulary, m, m', v, a, b, place, sh, sh', besides, all);
    }
    KeywordAgrees(vocabulary, m, m', key, v, a, b, sh, sh', besides, all);
  }

  /** Nodes whose subschemas are judged alike are judged alike, but for the keywords `besides`. */
  lemma RestAgrees(vocabulary: Vocabulary, m: map<string, Tree>, m': map<string, Tree>, v: Tree,
                   a: View, b: View, sh: bool, sh': bool, besides: set<string>, all: bool)
    requires Alike(vocabulary, m, m', v, a, b, sh, sh', besides, all)
    ensures forall key :: key in m && key !in besides ==>
      key in m' && (KeywordHolds(vocabulary, sh, m, key, v, a) <==> KeywordHolds(vocabulary, sh', m', key, v, b))
  {
    hide Alike, KeywordHolds;
    forall key | key in m && key !in besides
      ensures key in m' && (KeywordHolds(vocabulary, sh, m, key, v, a) <==> KeywordHolds(vocabulary, sh', m', key, v, b))
    {
      OneAgrees(vocabulary, m, m', v, a, b, sh, sh', besides, all, key);
    }
  }

  // ---------------------------------------------------------- clean schemas

  /** Members none of which is called `type` and could be taken for the type of a node. */
  predicate IsMemberMap(m: map<string, Tree>) {
    "type" in m ==> !IsArray(m["type"]) && m["type"] != ARRAY
  }

  /**
  What a keyword must hold: names in a list of types, and under each keyword
  that holds data only, data that does not look like a schema to rewrite.
  `refs` are the references into the document.
  */
  predicate CleanKeyword(vocabulary: Vocabulary, refs: set<string>, m: map<string, Tree>, key: string)
    requires key in m
  {
    var k := m[key];
    if key == "$dynamicRef" then false
    else if HoldsMap(key) then IsObject(k) ==> IsMemberMap(k.content.m)
    else if HoldsList(key) || HoldsSchema(key) || SaysNothing(key) then true
    else if key == "type" && IsArray(k) then forall i :: 0 <= i < |k.content.s| ==> k.content.s[i].Text?
    else Settled(k) && (key == "$ref" && Path(vocabulary, m).Some? ==> k.s in refs)
  }

  /** A schema whose keywords hold what they should, as do those of every schema it holds. */
  ghost predicate Clean(vocabulary: Vocabulary, refs: set<string>, s: Tree)
    decreases s
  {
    IsObject(s) ==>
      var m := s.content.m;
      && (forall key :: key in m ==> CleanKeyword(vocabulary, refs, m, key))
      && (forall sub :: Has(m, sub) ==> Clean(vocabulary, refs, At(m, sub)))
  }

  /** A path that rewriting leaves in place: past no list of types, no `anyOf` beside one, no array in an array. */
  predicate Steady(vocabulary: Vocabulary, t: Tree, path: seq<string>)
    decreases |path|
  {
    path == [] ||
    match t
    case Branch(Fields(m)) =>
      && path[0] !in Lost(m)
      && (path[0] in m ==> Steady(vocabulary, m[path[0]], path[1..]))
    case Branch(Items(s)) =>
      var i := vocabulary.index(path[0]);
      i.Some? && i.value < |s| ==> (IsArray(s[i.value]) ==> |path| == 1) && Steady(vocabulary, s[i.value], path[1..])
    case _ => true
  }

  /** The keywords of a node that rewriting removes, replaces or adds. */
  function Lost(m: map<string, Tree>): set<string> {
    if HasTypeList(m) then {"type", "anyOf"}
    else if "type" in m && m["type"] == ARRAY && "items" !in m then {"items"}
    else {}
  }

  /** Every reference into the document leads along a steady path to a clean schema. */
  ghost predicate CleanTargets(vocabulary: Vocabulary, refs: set<string>, root: Tree) {
    forall name :: name in refs && vocabulary.target(name).Some? ==>
      var path := vocabulary.target(name).value;
      && Steady(vocabulary, root, path)
      && (Locate(vocabulary, root, path).Some? ==> Clean(vocabulary, refs, Locate(vocabulary, root, path).value))
  }

  /** Rewriting adds `items` here, which count every element as evaluated: the guards of its two branches. */
  predicate AddsItems(m: map<string, Tree>) {
    if HasTypeList(m) then ARRAY in m["type"].content.s else "type" in m && m["type"] == ARRAY && "items" !in m
  }

  /** An `unevaluatedItems` here or, when `asked`, further up wants to know which elements are evaluated. */
  predicate AskedHere(m: map<string, Tree>, asked: bool) {
    asked || "unevaluatedItems" in m
  }

  /**
  No `items` are added where an `unevaluatedItems` asks for evaluated elements:
  at its own node and at those that judge the same value, through the
  references in `asking` too.
  */
  ghost predicate Spared(vocabulary: Vocabulary, asking: set<string>, s: Tree, asked: bool)
    decreases s
  {
    IsObject(s) ==>
      var m := s.content.m;
      && (AskedHere(m, asked) ==> !AddsItems(m) && (Path(vocabulary, m).Some? ==> m["$ref"].s in asking))
      && (forall sub :: Has(m, sub) ==> Spared(vocabulary, asking, At(m, sub), InPlace(sub.key) && AskedHere(m, asked)))
  }

  /**
  A document with the references that lead into it, and those of them whose
  targets are asked for evaluated elements.
  */
  datatype Document = Document(vocabulary: Vocabulary, refs: set<string>, asking: set<string>, root: Tree)

  /** What the references of a document lead to is spared as well. */
  ghost predicate SparedTargets(d: Document) {
    forall name :: name in d.refs && d.vocabulary.target(name).Some? ==>
      var t := Locate(d.vocabulary, d.root, d.vocabulary.target(name).value);
      t.Some? ==> Spared(d.vocabulary, d.asking, t.value, name in d.asking)
  }

  ghost predicate CleanDocument(d: Document) {
    && Clean(d.vocabulary, d.refs, d.root) && CleanTargets(d.vocabulary, d.refs, d.root)
    && Spared(d.vocabulary, d.asking, d.root, false) && SparedTargets(d)
  }

  /** A schema of a document that meets its conditions. */
  ghost predicate Fits(d: Document, s: Tree, asked: bool) {
    Clean(d.vocabulary, d.refs, s) && Spared(d.vocabulary, d.asking, s, asked)
  }

  // ----------------------------------------------------------- what is kept

  /** Every other keyword stays, and holds the rewritten form of what it held. */
  lemma MembersKept(s: Tree)
    requires IsObject(s)
    ensures IsObject(Rewritten(s))
    ensures var m, m' := s.content.m, Rewritten(s).content.m;
            && !HasTypeList(m')
            && (forall key :: key !in Lost(m) ==> (key in m <==> key in m'))
            && (forall key :: key in m && key !in Lost(m) ==> m'[key] == Rewritten(m[key]))
            && ("items" in Lost(m) ==> "items" in m' && m'["items"] == EMPTY_SCHEMA)
            && (HasTypeList(m) ==> "type" !in m')
  {
    var m := s.content.m;
    assert Rewritten(s).content.m == Finish(RewrittenMembers(m));
    if HasTypeList(m) {
      ListedMembers(s);
    } else {
      PlainMembers(s);
      if "type" in m {
        RewrittenKind(m["type"]);
      }
    }
  }

  lemma {:induction false} LocateRewritten(vocabulary: Vocabulary, t: Tree, path: seq<string>)
    requires Steady(vocabulary, t, path)
    ensures var x, y := Locate(vocabulary, t, path), Locate(vocabulary, Rewritten(t), path);
            if x.None? then y.None?
            else y.Some? && (y.value == Rewritten(x.value) || (y.value == x.value && !IsObject(x.value)))
    decreases |path|
  {
    hide Finish, Lost;
    RewrittenKind(t);
    if path != [] {
      match t
      case Branch(Fields(m)) =>
        MembersKept(t);
        if path[0] in m {
          LocateRewritten(vocabulary, m[path[0]], path[1..]);
        }
      case Branch(Items(s)) =>
        LocateInItems(vocabulary, s, path);
      case _ =>
    }
  }

  lemma {:induction false} LocateInItems(vocabulary: Vocabulary, s: seq<Tree>, path: seq<string>)
    requires path != [] && Steady(vocabulary, Branch(Items(s)), path)
    ensures var x, y := Locate(vocabulary, Branch(Items(s)), path), Locate(vocabulary, Rewritten(Branch(Items(s))), path);
            if x.None? then y.None?
            else y.Some? && (y.value == Rewritten(x.value) || (y.value == x.value && !IsObject(x.value)))
    decreases |path|, 0
  {
    hide Finish, Lost;
    var i := vocabulary.index(path[0]);
    var t' := Rewritten(Branch(Items(s)));
    assert IsArray(t') && |t'.content.s| == |s|;
    if i.Some? && i.value < |s| {
      assert t'.content.s[i.value] == RewrittenItem(s[i.value]);
      RewrittenKind(s[i.value]);
      if IsArray(s[i.value]) {
        assert path[1..] == [];
      } else {
        LocateRewritten(vocabulary, s[i.value], path[1..]);
      }
    }
  }

  lemma FormKept(vocabulary: Vocabulary, refs: set<string>, s: Tree, key: string)
    requires IsObject(s) && key in s.content.m && key !in Lost(s.content.m) && CleanKeyword(vocabulary, refs, s.content.m, key)
    ensures IsObject(Rewritten(s)) && SameForm(s.content.m, Rewritten(s).content.m, key)
  {
    hide Rewritten, Settled;
    MembersKept(s);
    var k := s.content.m[key];
    RewrittenKind(k);
    if IsArray(k) {
      RewrittenLength(k);
    }
    if HoldsMap(key) && IsObject(k) {
      MembersRewritten(k);
    }
    SettledIffUnchanged(k);
  }

  lemma RewrittenLength(k: Tree)
    requires IsArray(k)
    ensures IsArray(Rewritten(k)) && |Rewritten(k).content.s| == |k.content.s|
    ensures forall i :: 0 <= i < |k.content.s| ==> Rewritten(k).content.s[i] == RewrittenItem(k.content.s[i])
  {
  }

  ghost predicate KeptForm(m: map<string, Tree>, m': map<string, Tree>, key: string) {
    (key in m <==> key in m') && (key in m ==> SameForm(m, m', key))
  }

  lemma ExtrasKept(vocabulary: Vocabulary, m: map<string, Tree>, m': map<string, Tree>)
    requires KeptForm(m, m', "properties") && KeptForm(m, m', "patternProperties")
    ensures forall name :: IsExtra(vocabulary, m, name) <==> IsExtra(vocabulary, m', name)
  {
    assert HoldsMap("properties") && HoldsMap("patternProperties");
  }

  lemma PlainSiblingsKept(m: map<string, Tree>, m': map<string, Tree>)
    requires KeptForm(m, m', "then") && KeptForm(m, m', "else") && KeptForm(m, m', "prefixItems")
    requires KeptForm(m, m', "minContains") && KeptForm(m, m', "maxContains")
    ensures ("then" in m <==> "then" in m') && ("else" in m <==> "else" in m')
    ensures PrefixLength(m) == PrefixLength(m')
    ensures Sibling(m, "minContains") == Sibling(m', "minContains") && Sibling(m, "maxContains") == Sibling(m', "maxContains")
  {
    assert HoldsList("prefixItems") && !SaysNothing("minContains") && !SaysNothing("maxContains");
  }

  lemma SiblingsKept(vocabulary: Vocabulary, refs: set<string>, s: Tree)
    requires IsObject(s) && forall key :: key in s.content.m ==> CleanKeyword(vocabulary, refs, s.content.m, key)
    ensures IsObject(Rewritten(s)) && SameSiblings(vocabulary, s.content.m, Rewritten(s).content.m)
  {
    hide Rewritten, Settled, CleanKeyword, SameForm, IsExtra, PrefixLength, Sibling;
    MembersKept(s);
    var m, m' := s.content.m, Rewritten(s).content.m;
    forall key | key !in Lost(m) ensures KeptForm(m, m', key) {
      if key in m {
        FormKept(vocabulary, refs, s, key);
      }
    }
    ExtrasKept(vocabulary, m, m');
    PlainSiblingsKept(m, m');
  }

  /** The subschemas of the keywords that stay are the rewritten ones. */
  lemma SubKept(vocabulary: Vocabulary, refs: set<string>, s: Tree, sub: Sub)
    requires IsObject(s) && Clean(vocabulary, refs, s)
    requires !sub.Target? && sub.key !in Lost(s.content.m)
    ensures IsObject(Rewritten(s))
    ensures Has(s.content.m, sub) <==> Has(Rewritten(s).content.m, sub)
    ensures Has(s.content.m, sub) ==>
      At(Rewritten(s).content.m, sub)
        == if sub.Nth? then RewrittenItem(At(s.content.m, sub)) else Rewritten(At(s.content.m, sub))
  {
    hide Rewritten, Settled, Clean, Lost, RewrittenItem;
    MembersKept(s);
    var m := s.content.m;
    if sub.key in m {
      assert CleanKeyword(vocabulary, refs, m, sub.key) by {
        CleanHere(vocabulary, refs, s);
      }
      FormKept(vocabulary, refs, s, sub.key);
      if IsArray(m[sub.key]) {
        RewrittenLength(m[sub.key]);
      }
      if HoldsMap(sub.key) && IsObject(m[sub.key]) {
        MembersRewritten(m[sub.key]);
      }
    }
  }

  lemma CleanHere(vocabulary: Vocabulary, refs: set<string>, s: Tree)
    requires IsObject(s) && Clean(vocabulary, refs, s)
    ensures forall key :: key in s.content.m ==> CleanKeyword(vocabulary, refs, s.content.m, key)
    ensures forall sub :: Has(s.content.m, sub) ==> Clean(vocabulary, refs, At(s.content.m, sub))
  {
  }

  // ---------------------------------------------------------------- meaning

  /** The document before, each `anyOf` beside a list of types left out. */
  function Before(d: Document): Reading {
    Reading(d.vocabulary, d.root, true)
  }

  function After(d: Document, shadow: bool): Reading {
    Reading(d.vocabulary, Rewritten(d.root), shadow)
  }

  /**
  Two schemas in two documents admit the same value and evaluate the same
  members of it and, when `all`, the same elements.
  */
  ghost predicate SameMeaning(a: Reading, s: Tree, b: Reading, s': Tree, v: Tree, n: nat, all: bool) {
    && (Valid(a, s, v, n) <==> Valid(b, s', v, n))
    && forall place: Place :: all || place.Name? ==> (Covers(a, s, v, place, n) <==> Covers(b, s', v, place, n))
  }

  lemma ViewOfSub(r: Reading, s: Tree, sub: Sub, w: Tree, n: nat)
    requires IsObject(s) && !sub.Target?
    ensures ViewAt(r, s, n).holds(sub, w) <==> Has(s.content.m, sub) && Valid(r, At(s.content.m, sub), w, n)
    ensures forall place :: ViewAt(r, s, n).covers(sub, w, place) <==>
      Has(s.content.m, sub) && Covers(r, At(s.content.m, sub), w, place, n)
  {
    hide Valid, Covers, Has, At, Reached;
  }

  lemma ViewOfTarget(r: Reading, s: Tree, w: Tree, n: nat)
    requires IsObject(s)
    ensures var x := Reached(r, s.content.m, n);
            && (ViewAt(r, s, n).reaches <==> x.Some?)
            && (ViewAt(r, s, n).holds(Target, w) <==> x.Some? && Valid(r, x.value, w, n - 1))
            && forall place :: ViewAt(r, s, n).covers(Target, w, place) <==> x.Some? && Covers(r, x.value, w, place, n - 1)
  {
    hide Valid, Covers, Has, At, Reached;
  }

  lemma ScalarMeans(a: Reading, b: Reading, t: Tree, v: Tree, n: nat)
    requires !IsObject(t)
    ensures SameMeaning(a, t, b, t, v, n, true) && SameMeaning(a, t, b, Rewritten(t), v, n, true)
  {
    RewrittenKind(t);
  }

  lemma SparedHere(d: Document, s: Tree, asked: bool)
    requires IsObject(s) && Fits(d, s, asked)
    ensures var m := s.content.m;
            && (AskedHere(m, asked) ==> !AddsItems(m) && (Path(d.vocabulary, m).Some? ==> m["$ref"].s in d.asking))
            && forall sub :: Has(m, sub) ==> Fits(d, At(m, sub), InPlace(sub.key) && AskedHere(m, asked))
  {
    hide CleanKeyword, AskedHere, AddsItems, Path, Has, At;
    CleanHere(d.vocabulary, d.refs, s);
  }

  /** What is spared when asked about is spared when not. */
  lemma {:induction false} SparedUnasked(vocabulary: Vocabulary, asking: set<string>, s: Tree)
    requires Spared(vocabulary, asking, s, true)
    ensures Spared(vocabulary, asking, s, false)
    decreases s
  {
    if IsObject(s) {
      var m := s.content.m;
      forall sub | Has(m, sub) ensures Spared(vocabulary, asking, At(m, sub), InPlace(sub.key) && AskedHere(m, false)) {
        if InPlace(sub.key) && !AskedHere(m, false) {
          SparedUnasked(vocabulary, asking, At(m, sub));
        }
      }
    }
  }

  lemma SubMeans(d: Document, s: Tree, asked: bool, sub: Sub, w: Tree, shadow: bool, n: nat)
    requires CleanDocument(d) && Fits(d, s, asked) && IsObject(s)
    requires Has(s.content.m, sub) && sub.key !in Lost(s.content.m)
    ensures IsObject(Rewritten(s)) && Has(Rewritten(s).content.m, sub)
    ensures SameMeaning(Before(d), At(s.content.m, sub), After(d, shadow), At(Rewritten(s).content.m, sub), w, n,
                        InPlace(sub.key) && AskedHere(s.content.m, asked))
    decreases n, s, 1
  {
    hide Clean, Spared, Fits, Rewritten, SameMeaning, CleanDocument, Lost, AskedHere, InPlace, AddsItems;
    SparedHere(d, s, asked);
    CleanOf(d, s, asked);
    SubKept(d.vocabulary, d.refs, s, sub);
    var t, deep := At(s.content.m, sub), InPlace(sub.key) && AskedHere(s.content.m, asked);
    if IsObject(t) {
      SchemaMeans(d, t, deep, w, shadow, n);
    } else {
      ScalarMeans(Before(d), After(d, shadow), t, w, n);
      LessMeaning(Before(d), t, After(d, shadow), At(Rewritten(s).content.m, sub), w, n, deep);
    }
  }

  lemma CleanOf(d: Document, s: Tree, asked: bool)
    requires Fits(d, s, asked)
    ensures Clean(d.vocabulary, d.refs, s)
  {
  }

  lemma LessMeaning(a: Reading, s: Tree, b: Reading, s': Tree, v: Tree, n: nat, all: bool)
    requires SameMeaning(a, s, b, s', v, n, true)
    ensures SameMeaning(a, s, b, s', v, n, all)
  {
    hide Valid, Covers;
  }

  lemma RefStays(m: map<string, Tree>)
    ensures "$ref" !in Lost(m)
  {
  }

  /** References lead to the rewritten form of what they led to. */
  lemma ReachedKept(d: Document, s: Tree, asked: bool, shadow: bool, n: nat)
    requires CleanDocument(d) && Fits(d, s, asked) && IsObject(s)
    ensures IsObject(Rewritten(s))
    ensures var x, y := Reached(Before(d), s.content.m, n), Reached(After(d, shadow), Rewritten(s).content.m, n);
            if x.None? then y.None?
            else y.Some? && Fits(d, x.value, AskedHere(s.content.m, asked))
                 && (y.value == Rewritten(x.value) || (y.value == x.value && !IsObject(x.value)))
  {
    hide Clean, Spared, Rewritten, Settled, Locate, Steady, Lost, AskedHere, AddsItems;
    var m := s.content.m;
    RefStays(m);
    MembersKept(s);
    CleanHere(d.vocabulary, d.refs, s);
    SparedHere(d, s, asked);
    if "$ref" in m {
      assert CleanKeyword(d.vocabulary, d.refs, m, "$ref");
      FormKept(d.vocabulary, d.refs, s, "$ref");
    }
    var path := Path(d.vocabulary, m);
    assert path == Path(d.vocabulary, Rewritten(s).content.m);
    if n > 0 && path.Some? {
      var name := m["$ref"].s;
      assert name in d.refs && d.vocabulary.target(name) == path;
      LocateRewritten(d.vocabulary, d.root, path.value);
      var x := Locate(d.vocabulary, d.root, path.value);
      if x.Some? && name in d.asking && !AskedHere(m, asked) {
        SparedUnasked(d.vocabulary, d.asking, x.value);
      }
    }
  }

  lemma TargetMeans(d: Document, s: Tree, asked: bool, w: Tree, shadow: bool, n: nat)
    requires CleanDocument(d) && Fits(d, s, asked) && IsObject(s)
    ensures IsObject(Rewritten(s))
    ensures var x, y := Reached(Before(d), s.content.m, n), Reached(After(d, shadow), Rewritten(s).content.m, n);
            && (x.Some? <==> y.Some?)
            && (x.Some? ==>
                  SameMeaning(Before(d), x.value, After(d, shadow), y.value, w, n - 1, AskedHere(s.content.m, asked)))
    decreases n, s, 1
  {
    hide Clean, Spared, Fits, Rewritten, SameMeaning, CleanDocument, Reached, AskedHere;
    ReachedKept(d, s, asked, shadow, n);
    var before, after, deep := Before(d), After(d, shadow), AskedHere(s.content.m, asked);
    var x, y := Reached(before, s.content.m, n), Reached(after, Rewritten(s).content.m, n);
    if x.Some? {
      if IsObject(x.value) {
        SchemaMeans(d, x.value, deep, w, shadow, n - 1);
      } else {
        ScalarMeans(before, after, x.value, w, n - 1);
        LessMeaning(before, x.value, after, y.value, w, n - 1, deep);
      }
    }
  }

  lemma SameVerdict(a: Reading, s: Tree, b: Reading, s': Tree, v: Tree, n: nat, all: bool)
    requires SameMeaning(a, s, b, s', v, n, all)
    ensures Valid(a, s, v, n) <==> Valid(b, s', v, n)
    ensures forall place: Place :: all || place.Name? ==> (Covers(a, s, v, place, n) <==> Covers(b, s', v, place, n))
  {
    hide Valid, Covers;
  }

  /** One subschema is judged alike in both documents. */
  lemma ViewMeans(d: Document, s: Tree, asked: bool, sub: Sub, w: Tree, shadow: bool, n: nat)
    requires CleanDocument(d) && Fits(d, s, asked) && IsObject(s)
    requires sub.Target? || sub.key !in Lost(s.content.m)
    ensures IsObject(Rewritten(s))
    ensures var a, b := ViewAt(Before(d), s, n), ViewAt(After(d, shadow), Rewritten(s), n);
            && a.reaches == b.reaches && (a.holds(sub, w) <==> b.holds(sub, w))
            && (sub.Target? || InPlace(sub.key) ==>
                  forall place: Place :: AskedHere(s.content.m, asked) || place.Name? ==>
                    (a.covers(sub, w, place) <==> b.covers(sub, w, place)))
    decreases n, s, 2
  {
    hide Clean, Spared, Fits, Rewritten, CleanDocument, Lost, Valid, Covers, Reached, Has, At, ViewAt, SameMeaning, AskedHere;
    var before, after, deep := Before(d), After(d, shadow), AskedHere(s.content.m, asked);
    MembersKept(s);
    TargetMeans(d, s, asked, w, shadow, n);
    ViewOfTarget(before, s, w, n);
    ViewOfTarget(after, Rewritten(s), w, n);
    if sub.Target? {
      var x, y := Reached(before, s.content.m, n), Reached(after, Rewritten(s).content.m, n);
      if x.Some? {
        SameVerdict(before, x.value, after, y.value, w, n - 1, deep);
      }
    } else {
      ViewOfSub(before, s, sub, w, n);
      ViewOfSub(after, Rewritten(s), sub, w, n);
      CleanOf(d, s, asked);
      SubKept(d.vocabulary, d.refs, s, sub);
      if Has(s.content.m, sub) {
        SubMeans(d, s, asked, sub, w, shadow, n);
        SameVerdict(before, At(s.content.m, sub), after, At(Rewritten(s).content.m, sub), w, n, InPlace(sub.key) && deep);
      }
    }
  }

  lemma ViewsMean(d: Document, s: Tree, asked: bool, shadow: bool, n: nat)
    requires CleanDocument(d) && Fits(d, s, asked) && IsObject(s)
    ensures IsObject(Rewritten(s))
    ensures ViewsAgree(ViewAt(Before(d), s, n), ViewAt(After(d, shadow), Rewritten(s), n),
                       Lost(s.content.m), AskedHere(s.content.m, asked))
    decreases n, s, 3
  {
    hide Clean, Spared, Fits, Rewritten, CleanDocument, Lost, ViewAt, AskedHere;
    MembersKept(s);
    var a, b := ViewAt(Before(d), s, n), ViewAt(After(d, shadow), Rewritten(s), n);
    var m := s.content.m;
    ViewMeans(d, s, asked, Target, Null, shadow, n);
    forall sub: Sub, w: Tree | sub.Target? || sub.key !in Lost(m) ensures a.holds(sub, w) <==> b.holds(sub, w) {
      ViewMeans(d, s, asked, sub, w, shadow, n);
    }
    forall sub: Sub, w: Tree, place: Place |
      (sub.Target? || (sub.key !in Lost(m) && InPlace(sub.key))) && (AskedHere(m, asked) || place.Name?)
      ensures a.covers(sub, w, place) <==> b.covers(sub, w, place)
    {
      ViewMeans(d, s, asked, sub, w, shadow, n);
    }
  }

  /** The empty schema admits everything, and evaluates nothing. */
  lemma EmptyAdmits(r: Reading, v: Tree, n: nat)
    ensures Valid(r, EMPTY_SCHEMA, v, n)
    ensures forall place :: !Covers(r, EMPTY_SCHEMA, v, place, n)
  {
  }

  lemma ItemsAdmit(r: Reading, s: Tree, v: Tree, n: nat)
    requires IsObject(s) && "items" in s.content.m && s.content.m["items"] == EMPTY_SCHEMA
    ensures KeywordHolds(r.vocabulary, r.shadow, s.content.m, "items", v, ViewAt(r, s, n))
  {
    hide Valid, Covers, PrefixLength, ViewAt;
    var view := ViewAt(r, s, n);
    forall w: Tree ensures view.holds(Own("items"), w) {
      ViewOfSub(r, s, Own("items"), w, n);
      EmptyAdmits(r, w, n);
    }
  }

  /**
  One alternative of a list of types admits the values of that type; it
  evaluates no member, and no element either unless it is that of arrays.
  */
  lemma VariantMeans(r: Reading, t: Tree, v: Tree, n: nat)
    requires t.Text?
    ensures Valid(r, Variant(t), v, n) <==> r.vocabulary.hasType(v, t.s)
    ensures forall place: Place :: t != ARRAY || place.Name? ==> !Covers(r, Variant(t), v, place, n)
  {
    hide ViewAt, KeywordHolds, KeywordCovers;
    var s := Variant(t);
    var m, view := s.content.m, ViewAt(r, s, n);
    TypeKeyword(r, m, v, view);
    assert m["type"] == t && m.Keys <= {"type", "items"} && (t != ARRAY ==> m.Keys == {"type"});
    if t == ARRAY {
      ItemsAdmit(r, s, v, n);
    }
    forall key, place: Place | key in m && (t != ARRAY || place.Name?)
      ensures !KeywordCovers(r.vocabulary, r.shadow, m, key, v, view, place)
    {
      QuietHere(r.vocabulary, r.shadow, m, key, v, view, place);
    }
  }

  lemma QuietHere(vocabulary: Vocabulary, shadow: bool, m: map<string, Tree>, key: string, v: Tree, view: View, place: Place)
    requires key in m && (key == "type" || (key == "items" && place.Name?))
    ensures !KeywordCovers(vocabulary, shadow, m, key, v, view, place)
  {
  }

  lemma TypeKeyword(r: Reading, m: map<string, Tree>, v: Tree, view: View)
    requires "type" in m
    ensures KeywordHolds(r.vocabulary, r.shadow, m, "type", v, view) <==> TypeAllows(r.vocabulary, m["type"], v)
  {
  }

  /** The node is compared keyword by keyword, except for those rewriting removes, replaces or adds. */
  lemma NodesAlike(d: Document, s: Tree, asked: bool, v: Tree, shadow: bool, n: nat)
    requires CleanDocument(d) && Fits(d, s, asked) && IsObject(s)
    ensures IsObject(Rewritten(s))
    ensures Alike(d.vocabulary, s.content.m, Rewritten(s).content.m, v,
                  ViewAt(Before(d), s, n), ViewAt(After(d, shadow), Rewritten(s), n),
                  true, shadow, Lost(s.content.m), AskedHere(s.content.m, asked))
    decreases n, s, 4
  {
    hide Clean, Spared, Fits, Rewritten, CleanDocument, ViewAt, ViewsAgree, SameForm, SameSiblings, KeywordCovers, CleanKeyword;
    MembersKept(s);
    CleanOf(d, s, asked);
    CleanHere(d.vocabulary, d.refs, s);
    ViewsMean(d, s, asked, shadow, n);
    SiblingsKept(d.vocabulary, d.refs, s);
    var m, m', all := s.content.m, Rewritten(s).content.m, AskedHere(s.content.m, asked);
    var a, b := ViewAt(Before(d), s, n), ViewAt(After(d, shadow), Rewritten(s), n);
    forall key | key in m && key !in Lost(m)
      ensures Comparable(d.vocabulary, m, m', key, a, b, true, shadow, Lost(m), all) && (key == "unevaluatedItems" ==> all)
    {
      FormKept(d.vocabulary, d.refs, s, key);
    }
    LostCoverNothing(d, s, asked, v, shadow, n);
  }

  /** What is known about a node with a list of types. */
  lemma ListedNode(vocabulary: Vocabulary, refs: set<string>, s: Tree)
    requires Clean(vocabulary, refs, s) && IsObject(s) && HasTypeList(s.content.m)
    ensures forall i :: 0 <= i < |s.content.m["type"].content.s| ==> s.content.m["type"].content.s[i].Text?
    ensures IsObject(Rewritten(s)) && "anyOf" in Rewritten(s).content.m
    ensures Rewritten(s).content.m["anyOf"] == Branch(Items(Variants(s.content.m["type"].content.s)))
    ensures !HasTypeList(Rewritten(s).content.m) && "type" !in Rewritten(s).content.m
  {
    hide Clean, Rewritten;
    CleanHere(vocabulary, refs, s);
    ListedMembers(s);
    assert CleanKeyword(vocabulary, refs, s.content.m, "type");
    NamesUnchanged(s.content.m["type"].content.s);
    MembersKept(s);
  }

  /** The alternatives made of a list of types, seen from their node. */
  lemma VariantsSeen(r: Reading, s: Tree, types: seq<Tree>, v: Tree, n: nat)
    requires IsObject(s) && "anyOf" in s.content.m && s.content.m["anyOf"] == Branch(Items(Variants(types)))
    requires forall i :: 0 <= i < |types| ==> types[i].Text?
    ensures |Variants(types)| == |types|
    ensures forall i :: 0 <= i < |types| ==>
      (ViewAt(r, s, n).holds(Nth("anyOf", i), v) <==> r.vocabulary.hasType(v, types[i].s))
  {
    hide Valid, Covers, Variant, ViewAt;
    forall i | 0 <= i < |types|
      ensures ViewAt(r, s, n).holds(Nth("anyOf", i), v) <==> r.vocabulary.hasType(v, types[i].s)
    {
      ViewOfSub(r, s, Nth("anyOf", i), v, n);
      assert At(s.content.m, Nth("anyOf", i)) == Variant(types[i]);
      VariantMeans(r, types[i], v, n);
    }
  }

  lemma VariantsQuiet(r: Reading, s: Tree, types: seq<Tree>, v: Tree, n: nat, place: Place)
    requires IsObject(s) && "anyOf" in s.content.m && s.content.m["anyOf"] == Branch(Items(Variants(types)))
    requires forall i :: 0 <= i < |types| ==> types[i].Text?
    requires ARRAY !in types || place.Name?
    ensures |Variants(types)| == |types|
    ensures forall i :: 0 <= i < |types| ==> !ViewAt(r, s, n).covers(Nth("anyOf", i), v, place)
  {
    hide Valid, Covers, Variant, ViewAt;
    forall i | 0 <= i < |types| ensures !ViewAt(r, s, n).covers(Nth("anyOf", i), v, place) {
      ViewOfSub(r, s, Nth("anyOf", i), v, n);
      assert At(s.content.m, Nth("anyOf", i)) == Variant(types[i]);
      VariantMeans(r, types[i], v, n);
    }
  }

  lemma LostCoverNothing(d: Document, s: Tree, asked: bool, v: Tree, shadow: bool, n: nat)
    requires Fits(d, s, asked) && IsObject(s)
    ensures IsObject(Rewritten(s))
    ensures var m, m' := s.content.m, Rewritten(s).content.m;
            var a, b := ViewAt(Before(d), s, n), ViewAt(After(d, shadow), Rewritten(s), n);
            forall key, place: Place :: key in Lost(m) && (AskedHere(m, asked) || place.Name?) ==>
              && (key in m ==> !KeywordCovers(d.vocabulary, true, m, key, v, a, place))
              && (key in m' ==> !KeywordCovers(d.vocabulary, shadow, m', key, v, b, place))
  {
    hide Clean, Spared, Fits, Rewritten, ViewAt, KeywordCovers;
    MembersKept(s);
    SparedHere(d, s, asked);
    CleanOf(d, s, asked);
    var m, m' := s.content.m, Rewritten(s).content.m;
    var a, b := ViewAt(Before(d), s, n), ViewAt(After(d, shadow), Rewritten(s), n);
    if HasTypeList(m) {
      ListedNode(d.vocabulary, d.refs, s);
      var types := m["type"].content.s;
      forall place: Place | AskedHere(m, asked) || place.Name?
        ensures !KeywordCovers(d.vocabulary, true, m, "type", v, a, place)
        ensures "anyOf" in m ==> !KeywordCovers(d.vocabulary, true, m, "anyOf", v, a, place)
        ensures !KeywordCovers(d.vocabulary, shadow, m', "anyOf", v, b, place)
      {
        QuietKeywords(d.vocabulary, m, v, a, place);
        VariantsQuiet(After(d, shadow), Rewritten(s), types, v, n, place);
        AnyOfCoversNone(d.vocabulary, shadow, m', v, b, place);
      }
    } else {
      forall place: Place | AskedHere(m, asked) || place.Name?
        ensures "items" in Lost(m) && "items" in m' ==> !KeywordCovers(d.vocabulary, shadow, m', "items", v, b, place)
      {
        if "items" in Lost(m) && "items" in m' {
          QuietHere(d.vocabulary, shadow, m', "items", v, b, place);
        }
      }
    }
  }

  lemma QuietKeywords(vocabulary: Vocabulary, m: map<string, Tree>, v: Tree, view: View, place: Place)
    ensures HasTypeList(m) ==> !KeywordCovers(vocabulary, true, m, "type", v, view, place)
    ensures HasTypeList(m) && "anyOf" in m ==> !KeywordCovers(vocabulary, true, m, "anyOf", v, view, place)
  {
  }

  lemma AnyOfCoversNone(vocabulary: Vocabulary, shadow: bool, m: map<string, Tree>, v: Tree, view: View, place: Place)
    requires "anyOf" in m && IsArray(m["anyOf"])
    requires forall i :: 0 <= i < |m["anyOf"].content.s| ==> !view.covers(Nth("anyOf", i), v, place)
    ensures !KeywordCovers(vocabulary, shadow, m, "anyOf", v, view, place)
  {
  }

  /** What the removed, replaced and added keywords say together is the same. */
  lemma LostHold(d: Document, s: Tree, asked: bool, v: Tree, shadow: bool, n: nat)
    requires Fits(d, s, asked) && IsObject(s)
    ensures IsObject(Rewritten(s))
    ensures var m, m' := s.content.m, Rewritten(s).content.m;
            var a, b := ViewAt(Before(d), s, n), ViewAt(After(d, shadow), Rewritten(s), n);
            (forall key :: key in m && key in Lost(m) ==> KeywordHolds(d.vocabulary, true, m, key, v, a)) <==>
            (forall key :: key in m' && key in Lost(m) ==> KeywordHolds(d.vocabulary, shadow, m', key, v, b))
  {
    hide Clean, Spared, Fits, Rewritten, ViewAt, KeywordHolds;
    MembersKept(s);
    CleanOf(d, s, asked);
    var m, m' := s.content.m, Rewritten(s).content.m;
    var a, b := ViewAt(Before(d), s, n), ViewAt(After(d, shadow), Rewritten(s), n);
    if HasTypeList(m) {
      ListedNode(d.vocabulary, d.refs, s);
      VariantsSeen(After(d, shadow), Rewritten(s), m["type"].content.s, v, n);
      ListHoldsTypes(d.vocabulary, m, m', v, a, b, shadow);
    } else if Lost(m) == {"items"} {
      assert "items" in Lost(m);
      ItemsAdmit(After(d, shadow), Rewritten(s), v, n);
    }
  }

  /** A list of types and the `anyOf` made of it admit the same values. */
  lemma ListHoldsTypes(vocabulary: Vocabulary, m: map<string, Tree>, m': map<string, Tree>, v: Tree,
                       a: View, b: View, shadow: bool)
    requires HasTypeList(m) && !HasTypeList(m') && "anyOf" in m' && IsArray(m'["anyOf"])
    requires var types := m["type"].content.s;
             |m'["anyOf"].content.s| == |types| && forall i :: 0 <= i < |types| ==>
               types[i].Text? && (b.holds(Nth("anyOf", i), v) <==> vocabulary.hasType(v, types[i].s))
    ensures KeywordHolds(vocabulary, true, m, "type", v, a) <==> KeywordHolds(vocabulary, shadow, m', "anyOf", v, b)
    ensures "anyOf" in m ==> KeywordHolds(vocabulary, true, m, "anyOf", v, a)
  {
    var types := m["type"].content.s;
    if TypeAllows(vocabulary, m["type"], v) {
      var i :| 0 <= i < |types| && types[i].Text? && vocabulary.hasType(v, types[i].s);
      assert b.holds(Nth("anyOf", i), v);
    }
    if i :| 0 <= i < |types| && b.holds(Nth("anyOf", i), v) {
      assert vocabulary.hasType(v, types[i].s);
    }
  }

  /**
  What normalisation means, for every clean document, every schema in it and
  every value: afterwards a value validates exactly when it did before with each
  `anyOf` beside a list of types left out, and the same of its members, and of
  its elements where they are asked about, count as evaluated.
  */
  lemma {:induction false} SchemaMeans(d: Document, s: Tree, asked: bool, v: Tree, shadow: bool, n: nat)
    requires CleanDocument(d) && Fits(d, s, asked)
    ensures SameMeaning(Before(d), s, After(d, shadow), Rewritten(s), v, n, asked)
    decreases n, s, 5
  {
    hide Clean, Spared, Fits, Rewritten, CleanDocument, KeywordHolds, Alike, ViewAt, Lost, Covered;
    if IsObject(s) {
      NodesAlike(d, s, asked, v, shadow, n);
      LostHold(d, s, asked, v, shadow, n);
      MembersKept(s);
      var m, m', all := s.content.m, Rewritten(s).content.m, AskedHere(s.content.m, asked);
      var a, b := ViewAt(Before(d), s, n), ViewAt(After(d, shadow), Rewritten(s), n);
      RestAgrees(d.vocabulary, m, m', v, a, b, true, shadow, Lost(m), all);
      forall place: Place | asked || place.Name?
        ensures Covered(d.vocabulary, true, m, v, a, place) <==> Covered(d.vocabulary, shadow, m', v, b, place)
      {
        RestCovers(d.vocabulary, m, m', v, a, b, place, true, shadow, Lost(m), all);
      }
    } else {
      ScalarMeans(Before(d), After(d, shadow), s, v, n);
      LessMeaning(Before(d), s, After(d, shadow), Rewritten(s), v, n, asked);
    }
  }

  // ------------------------------------------------------- whole documents

  /** No object anywhere below carries both a list of types and `anyOf`. */
  predicate Unshadowed(t: Tree)
    decreases t
  {
    match t
    case Branch(Fields(m)) => !(HasTypeList(m) && "anyOf" in m) && forall key :: key in m ==> Unshadowed(m[key])
    case Branch(Items(s)) => forall i :: 0 <= i < |s| ==> Unshadowed(s[i])
    case _ => true
  }

  lemma {:induction false} UnshadowedBelow(vocabulary: Vocabulary, t: Tree, path: seq<string>)
    requires Unshadowed(t)
    ensures Locate(vocabulary, t, path).Some? ==> Unshadowed(Locate(vocabulary, t, path).value)
    decreases |path|
  {
    if path != [] {
      match t
      case Branch(Fields(m)) =>
        if path[0] in m {
          UnshadowedBelow(vocabulary, m[path[0]], path[1..]);
        }
      case Branch(Items(s)) =>
        var i := vocabulary.index(path[0]);
        if i.Some? && i.value < |s| {
          UnshadowedBelow(vocabulary, s[i.value], path[1..]);
        }
      case _ =>
    }
  }

  lemma UnshadowedSub(m: map<string, Tree>, sub: Sub)
    requires Unshadowed(Branch(Fields(m))) && Has(m, sub)
    ensures Unshadowed(At(m, sub))
  {
    assert Unshadowed(m[sub.key]);
  }

  /** Where nothing is shadowed, leaving out what is makes no difference. */
  lemma {:induction false} ShadowFree(vocabulary: Vocabulary, root: Tree, s: Tree, v: Tree, n: nat)
    requires Unshadowed(root) && Unshadowed(s)
    ensures Valid(Reading(vocabulary, root, true), s, v, n) <==> Valid(Reading(vocabulary, root, false), s, v, n)
    ensures forall place :: Covers(Reading(vocabulary, root, true), s, v, place, n)
                       <==> Covers(Reading(vocabulary, root, false), s, v, place, n)
    decreases n, s, 3
  {
    hide KeywordHolds, Covered, Alike, ViewAt, Unshadowed;
    if IsObject(s) {
      var m := s.content.m;
      var a, b := ViewAt(Reading(vocabulary, root, true), s, n), ViewAt(Reading(vocabulary, root, false), s, n);
      ShadowFreeNode(vocabulary, root, s, v, n);
      RestAgrees(vocabulary, m, m, v, a, b, true, false, {}, true);
      forall place ensures Covered(vocabulary, true, m, v, a, place) <==> Covered(vocabulary, false, m, v, b, place) {
        RestCovers(vocabulary, m, m, v, a, b, place, true, false, {}, true);
      }
    }
  }

  lemma ShadowFreeView(vocabulary: Vocabulary, root: Tree, s: Tree, sub: Sub, w: Tree, n: nat)
    requires Unshadowed(root) && Unshadowed(s) && IsObject(s)
    ensures var a, b := ViewAt(Reading(vocabulary, root, true), s, n), ViewAt(Reading(vocabulary, root, false), s, n);
            && a.reaches == b.reaches && (a.holds(sub, w) <==> b.holds(sub, w))
            && forall place :: a.covers(sub, w, place) <==> b.covers(sub, w, place)
    decreases n, s, 1
  {
    hide Valid, Covers, ViewAt, Unshadowed, Has, At, Locate;
    var a, b := Reading(vocabulary, root, true), Reading(vocabulary, root, false);
    ViewOfTarget(a, s, w, n);
    ViewOfTarget(b, s, w, n);
    var x := Reached(a, s.content.m, n);
    assert x == Reached(b, s.content.m, n);
    if sub.Target? {
      if x.Some? {
        UnshadowedBelow(vocabulary, root, Path(vocabulary, s.content.m).value);
        ShadowFree(vocabulary, root, x.value, w, n - 1);
      }
    } else {
      ViewOfSub(a, s, sub, w, n);
      ViewOfSub(b, s, sub, w, n);
      if Has(s.content.m, sub) {
        ShadowFreeSub(vocabulary, root, s, sub, w, n);
      }
    }
  }

  lemma ShadowFreeSub(vocabulary: Vocabulary, root: Tree, s: Tree, sub: Sub, w: Tree, n: nat)
    requires Unshadowed(root) && Unshadowed(s) && IsObject(s) && Has(s.content.m, sub)
    ensures Valid(Reading(vocabulary, root, true), At(s.content.m, sub), w, n)
       <==> Valid(Reading(vocabulary, root, false), At(s.content.m, sub), w, n)
    ensures forall place :: Covers(Reading(vocabulary, root, true), At(s.content.m, sub), w, place, n)
                       <==> Covers(Reading(vocabulary, root, false), At(s.content.m, sub), w, place, n)
    decreases n, s, 0
  {
    hide Valid, Covers, Unshadowed;
    UnshadowedSub(s.content.m, sub);
    ShadowFree(vocabulary, root, At(s.content.m, sub), w, n);
  }

  lemma ShadowFreeNode(vocabulary: Vocabulary, root: Tree, s: Tree, v: Tree, n: nat)
    requires Unshadowed(root) && Unshadowed(s) && IsObject(s)
    ensures Alike(vocabulary, s.content.m, s.content.m, v, ViewAt(Reading(vocabulary, root, true), s, n),
                  ViewAt(Reading(vocabulary, root, false), s, n), true, false, {}, true)
    decreases n, s, 2
  {
    hide ViewAt, KeywordCovers;
    var a, b := ViewAt(Reading(vocabulary, root, true), s, n), ViewAt(Reading(vocabulary, root, false), s, n);
    ShadowFreeView(vocabulary, root, s, Target, Null, n);
    forall sub: Sub, w: Tree ensures a.holds(sub, w) <==> b.holds(sub, w) {
      ShadowFreeView(vocabulary, root, s, sub, w, n);
    }
    forall sub: Sub, w: Tree, place: Place ensures a.covers(sub, w, place) <==> b.covers(sub, w, place) {
      ShadowFreeView(vocabulary, root, s, sub, w, n);
    }
    assert ViewsAgree(a, b, {}, true);
  }

  /**
  A document admits a value: however many references may be followed, from some
  number on, it validates.
  */
  ghost predicate Admits(r: Reading, v: Tree) {
    exists n: nat :: ValidFrom(r, v, n)
  }

  ghost predicate ValidFrom(r: Reading, v: Tree, n: nat) {
    forall k: nat :: k >= n ==> Valid(r, r.root, v, k)
  }

  /**
  For every clean document and every value: afterwards the document admits a
  value exactly when it did before with each `anyOf` beside a list of types left
  out.
  */
  lemma DocumentMeans(d: Document, v: Tree, shadow: bool)
    requires CleanDocument(d)
    ensures Admits(After(d, shadow), v) <==> Admits(Before(d), v)
  {
    hide Clean, Spared, CleanTargets, SparedTargets, Valid, Rewritten, Covers;
    var a, b := Before(d), After(d, shadow);
    forall n: nat ensures Valid(a, d.root, v, n) <==> Valid(b, Rewritten(d.root), v, n) {
      SchemaMeans(d, d.root, false, v, shadow, n);
    }
    forall n: nat ensures ValidFrom(a, v, n) <==> ValidFrom(b, v, n) {
    }
  }

  /** Without such nodes the meaning is kept for every value. */
  lemma MeaningKept(d: Document, v: Tree)
    requires CleanDocument(d) && Unshadowed(d.root)
    ensures Admits(Reading(d.vocabulary, Rewritten(d.root), false), v) <==> Admits(Reading(d.vocabulary, d.root, false), v)
  {
    hide CleanDocument, Valid, Rewritten, Covers, Unshadowed;
    DocumentMeans(d, v, false);
    var a, b := Reading(d.vocabulary, d.root, true), Reading(d.vocabulary, d.root, false);
    forall n: nat ensures Valid(a, d.root, v, n) <==> Valid(b, d.root, v, n) {
      ShadowFree(d.vocabulary, d.root, d.root, v, n);
    }
    forall n: nat ensures ValidFrom(a, v, n) <==> ValidFrom(b, v, n) {
    }
  }

  /** Rewriting adds no `items` anywhere below: no bare array type, no array in a list of types. */
  predicate AddsNowhere(t: Tree)
    decreases t
  {
    match t
    case Branch(Fields(m)) => !AddsItems(m) && forall key :: key in m ==> AddsNowhere(m[key])
    case Branch(Items(s)) => forall i :: 0 <= i < |s| ==> AddsNowhere(s[i])
    case _ => true
  }

  /** No `unevaluatedItems` anywhere below. */
  predicate AsksNowhere(t: Tree)
    decreases t
  {
    match t
    case Branch(Fields(m)) => "unevaluatedItems" !in m && forall key :: key in m ==> AsksNowhere(m[key])
    case Branch(Items(s)) => forall i :: 0 <= i < |s| ==> AsksNowhere(s[i])
    case _ => true
  }

  lemma {:induction false} AddsNowhereIsSpared(vocabulary: Vocabulary, refs: set<string>, s: Tree, asked: bool)
    requires Clean(vocabulary, refs, s) && AddsNowhere(s)
    ensures Spared(vocabulary, refs, s, asked)
    decreases s
  {
    if IsObject(s) {
      var m := s.content.m;
      if Path(vocabulary, m).Some? {
        assert CleanKeyword(vocabulary, refs, m, "$ref");
      }
      forall sub | Has(m, sub) ensures Spared(vocabulary, refs, At(m, sub), InPlace(sub.key) && AskedHere(m, asked)) {
        assert AddsNowhere(m[sub.key]);
        AddsNowhereIsSpared(vocabulary, refs, At(m, sub), InPlace(sub.key) && AskedHere(m, asked));
      }
    }
  }

  lemma {:induction false} AsksNowhereIsSpared(vocabulary: Vocabulary, s: Tree)
    requires AsksNowhere(s)
    ensures Spared(vocabulary, {}, s, false)
    decreases s
  {
    if IsObject(s) {
      var m := s.content.m;
      forall sub | Has(m, sub) ensures Spared(vocabulary, {}, At(m, sub), InPlace(sub.key) && AskedHere(m, false)) {
        assert AsksNowhere(m[sub.key]);
        AsksNowhereIsSpared(vocabulary, At(m, sub));
      }
    }
  }

  lemma {:induction false} BelowByPath(vocabulary: Vocabulary, t: Tree, path: seq<string>)
    requires Locate(vocabulary, t, path).Some?
    ensures AddsNowhere(t) ==> AddsNowhere(Locate(vocabulary, t, path).value)
    ensures AsksNowhere(t) ==> AsksNowhere(Locate(vocabulary, t, path).value)
    decreases |path|
  {
    if path != [] {
      match t
      case Branch(Fields(m)) => BelowByPath(vocabulary, m[path[0]], path[1..]);
      case Branch(Items(s)) => BelowByPath(vocabulary, s[vocabulary.index(path[0]).value], path[1..]);
      case _ =>
    }
  }

  /**
  An otherwise clean document meets the conditions when rewriting adds no
  `items` to it, whatever `unevaluatedItems` it has, and when it has none,
  whatever is added.
  */
  lemma CleanEitherWay(vocabulary: Vocabulary, refs: set<string>, root: Tree)
    requires Clean(vocabulary, refs, root) && CleanTargets(vocabulary, refs, root)
    ensures AddsNowhere(root) ==> CleanDocument(Document(vocabulary, refs, refs, root))
    ensures AsksNowhere(root) ==> CleanDocument(Document(vocabulary, refs, {}, root))
  {
    hide Clean, Spared, AddsNowhere, AsksNowhere, Locate, Steady;
    if AddsNowhere(root) {
      AddsNowhereIsSpared(vocabulary, refs, root, false);
      forall name | name in refs && vocabulary.target(name).Some?
                    && Locate(vocabulary, root, vocabulary.target(name).value).Some?
        ensures Spared(vocabulary, refs, Locate(vocabulary, root, vocabulary.target(name).value).value, true)
      {
        BelowByPath(vocabulary, root, vocabulary.target(name).value);
        AddsNowhereIsSpared(vocabulary, refs, Locate(vocabulary, root, vocabulary.target(name).value).value, true);
      }
    }
    if AsksNowhere(root) {
      AsksNowhereIsSpared(vocabulary, root);
      forall name | name in refs && vocabulary.target(name).Some?
                    && Locate(vocabulary, root, vocabulary.target(name).value).Some?
        ensures Spared(vocabulary, {}, Locate(vocabulary, root, vocabulary.target(name).value).value, false)
      {
        BelowByPath(vocabulary, root, vocabulary.target(name).value);
        AsksNowhereIsSpared(vocabulary, Locate(vocabulary, root, vocabulary.target(name).value).value);
      }
    }
  }

  // ---------------------------------------------------- where it is not kept

  const LISTED := Branch(Items([Text("string")]))

  const NOTHING := Branch(Items([Bool(false)]))

  const SHADOWING := Branch(Fields(map["type" := LISTED, "anyOf" := NOTHING]))

  lemma ShadowingIsClean(vocabulary: Vocabulary)
    ensures CleanDocument(Document(vocabulary, {}, {}, SHADOWING))
  {
    var m := SHADOWING.content.m;
    assert CleanKeyword(vocabulary, {}, m, "type") && CleanKeyword(vocabulary, {}, m, "anyOf");
    forall sub | Has(m, sub) ensures Spared(vocabulary, {}, At(m, sub), InPlace(sub.key) && AskedHere(m, false)) {
      assert At(m, sub) == Bool(false);
    }
    forall sub | Has(m, sub) ensures Clean(vocabulary, {}, At(m, sub)) {
      assert At(m, sub) == Bool(false);
    }
  }

  lemma NothingSatisfies(vocabulary: Vocabulary, v: Tree, n: nat)
    ensures !Valid(Reading(vocabulary, SHADOWING, false), SHADOWING, v, n)
  {
    var r := Reading(vocabulary, SHADOWING, false);
    var m, view := SHADOWING.content.m, ViewAt(r, SHADOWING, n);
    ViewOfSub(r, SHADOWING, Nth("anyOf", 0), v, n);
    assert !KeywordHolds(vocabulary, false, m, "anyOf", v, view);
  }

  lemma StringsSatisfy(vocabulary: Vocabulary, v: Tree, n: nat)
    requires vocabulary.hasType(v, "string")
    ensures Valid(Reading(vocabulary, SHADOWING, true), SHADOWING, v, n)
  {
    assert LISTED.content.s[0] == Text("string");
  }

  /** A node that carries both loses its `anyOf`: nothing is admitted before, every string after. */
  lemma AnyOfCanBeLost(vocabulary: Vocabulary, v: Tree)
    requires vocabulary.hasType(v, "string")
    ensures CleanDocument(Document(vocabulary, {}, {}, SHADOWING))
    ensures !Admits(Reading(vocabulary, SHADOWING, false), v)
    ensures Admits(Reading(vocabulary, Rewritten(SHADOWING), false), v)
  {
    hide Valid, Rewritten, CleanDocument;
    ShadowingIsClean(vocabulary);
    var r := Reading(vocabulary, SHADOWING, false);
    if Admits(r, v) {
      var n: nat :| ValidFrom(r, v, n);
      assert Valid(r, SHADOWING, v, n);
      NothingSatisfies(vocabulary, v, n);
    }
    forall n: nat ensures Valid(Reading(vocabulary, SHADOWING, true), SHADOWING, v, n) {
      StringsSatisfy(vocabulary, v, n);
    }
    assert ValidFrom(Reading(vocabulary, SHADOWING, true), v, 0);
    DocumentMeans(Document(vocabulary, {}, {}, SHADOWING), v, false);
  }

  /** `const` admits the one value it holds. */
  ghost predicate ComparesConst(vocabulary: Vocabulary) {
    forall c, v :: vocabulary.other("const", c, v) <==> c == v
  }

  function Constant(c: Tree): Tree {
    Branch(Fields(map["const" := c]))
  }

  lemma ConstantAdmits(vocabulary: Vocabulary, c: Tree, v: Tree)
    requires ComparesConst(vocabulary)
    ensures Admits(Reading(vocabulary, Constant(c), false), v) <==> v == c
  {
    var r := Reading(vocabulary, Constant(c), false);
    forall n: nat ensures Valid(r, Constant(c), v, n) <==> v == c {
      assert Constant(c).content.m.Keys == {"const"};
      assert Valid(r, Constant(c), v, n) <==>
        KeywordHolds(vocabulary, false, Constant(c).content.m, "const", v, ViewAt(r, Constant(c), n));
    }
    if v == c {
      assert ValidFrom(r, v, 0);
    }
    if Admits(r, v) {
      var n: nat :| ValidFrom(r, v, n);
      assert Valid(r, Constant(c), v, n);
    }
  }

  lemma ConstantRewritten(c: Tree)
    ensures Rewritten(Constant(c)) == Constant(Rewritten(c))
  {
    assert RewrittenMembers(Constant(c).content.m) == map["const" := Rewritten(c)];
  }

  /** Data is rewritten like a schema: a constant keeps its meaning exactly when nothing in it looks like one to rewrite. */
  lemma ConstantKeptIff(vocabulary: Vocabulary, c: Tree)
    requires ComparesConst(vocabulary)
    ensures Settled(c) <==> forall v ::
      Admits(Reading(vocabulary, Rewritten(Constant(c)), false), v) <==> Admits(Reading(vocabulary, Constant(c), false), v)
  {
    hide Rewritten, Settled, Admits, Constant, ComparesConst;
    ConstantRewritten(c);
    SettledIffUnchanged(c);
    ConstantAdmits(vocabulary, c, c);
    ConstantAdmits(vocabulary, Rewritten(c), c);
  }

  /** A constant that was admitted and is not afterwards. */
  lemma DataCanChange(vocabulary: Vocabulary)
    requires ComparesConst(vocabulary)
    ensures var c := Branch(Fields(map["type" := ARRAY]));
            && Admits(Reading(vocabulary, Constant(c), false), c)
            && !Admits(Reading(vocabulary, Rewritten(Constant(c)), false), c)
  {
    hide Admits, ComparesConst;
    var c := Branch(Fields(map["type" := ARRAY]));
    ConstantRewritten(c);
    assert "items" in Rewritten(c).content.m;
    ConstantAdmits(vocabulary, c, c);
    ConstantAdmits(vocabulary, Rewritten(c), c);
  }

  function LeftoverItems(k: Tree): Tree {
    Branch(Fields(map["type" := ARRAY, "unevaluatedItems" := k]))
  }

  lemma LeftoverKeyword(vocabulary: Vocabulary, m: map<string, Tree>, v: Tree, view: View)
    requires "unevaluatedItems" in m && "type" in m && m["type"] == ARRAY
    ensures KeywordHolds(vocabulary, false, m, "type", v, view) <==> vocabulary.hasType(v, "array")
    ensures KeywordHolds(vocabulary, false, m, "unevaluatedItems", v, view) <==>
      (IsArray(v) ==>
         forall i :: 0 <= i < |v.content.s| && !CoveredBeside(vocabulary, false, m, "unevaluatedItems", v, view, Position(i)) ==>
           view.holds(Own("unevaluatedItems"), v.content.s[i]))
  {
    hide CoveredBeside;
  }

  /** Before, `unevaluatedItems` judges every element of an array that nothing else speaks of. */
  lemma LeftoverBefore(vocabulary: Vocabulary, k: Tree, v: Tree, n: nat)
    ensures var r := Reading(vocabulary, LeftoverItems(k), false);
            Valid(r, r.root, v, n) <==>
              vocabulary.hasType(v, "array")
              && (IsArray(v) ==> forall i :: 0 <= i < |v.content.s| ==> Valid(r, k, v.content.s[i], n))
  {
    hide Valid, Covers, ViewAt, KeywordHolds;
    var r := Reading(vocabulary, LeftoverItems(k), false);
    var m, view := r.root.content.m, ViewAt(r, r.root, n);
    assert m["type"] == ARRAY && m["unevaluatedItems"] == k && m.Keys == {"type", "unevaluatedItems"};
    forall w ensures view.holds(Own("unevaluatedItems"), w) <==> Valid(r, k, w, n) {
      ViewOfSub(r, r.root, Own("unevaluatedItems"), w, n);
    }
    forall place ensures !CoveredBeside(vocabulary, false, m, "unevaluatedItems", v, view, place) {
    }
    LeftoverKeyword(vocabulary, m, v, view);
    ValidByKeywords(r, r.root, v, n);
  }

  lemma ValidByKeywords(r: Reading, s: Tree, v: Tree, n: nat)
    requires IsObject(s)
    ensures Valid(r, s, v, n) <==>
      forall key :: key in s.content.m ==> KeywordHolds(r.vocabulary, r.shadow, s.content.m, key, v, ViewAt(r, s, n))
  {
    hide KeywordHolds, ViewAt;
  }

  lemma LeftoverRewritten(k: Tree)
    ensures Rewritten(LeftoverItems(k))
         == Branch(Fields(map["type" := ARRAY, "unevaluatedItems" := Rewritten(k), "items" := EMPTY_SCHEMA]))
  {
    assert RewrittenMembers(LeftoverItems(k).content.m) == map["type" := ARRAY, "unevaluatedItems" := Rewritten(k)];
  }

  /** Afterwards the added `items` speak of all of them, and it judges none. */
  lemma LeftoverAfter(vocabulary: Vocabulary, k: Tree, v: Tree, n: nat)
    ensures var r := Reading(vocabulary, Rewritten(LeftoverItems(k)), false);
            Valid(r, r.root, v, n) <==> vocabulary.hasType(v, "array")
  {
    hide Valid, Covers, ViewAt, KeywordHolds, Rewritten;
    LeftoverRewritten(k);
    var r := Reading(vocabulary, Rewritten(LeftoverItems(k)), false);
    var m, view := r.root.content.m, ViewAt(r, r.root, n);
    assert m["type"] == ARRAY && m["items"] == EMPTY_SCHEMA && m.Keys == {"type", "unevaluatedItems", "items"};
    forall i: nat ensures CoveredBeside(vocabulary, false, m, "unevaluatedItems", v, view, Position(i)) {
      assert CoversBy(vocabulary, false, m, "items", v, view, Position(i));
    }
    LeftoverKeyword(vocabulary, m, v, view);
    ItemsAdmit(r, r.root, v, n);
    ValidByKeywords(r, r.root, v, n);
  }

  /**
  `unevaluatedItems` beside a bare array type loses its meaning: a value keeps
  its verdict exactly when it is no array or all its elements were allowed anyway.
  */
  lemma LeftoverKeptIff(vocabulary: Vocabulary, k: Tree, v: Tree, n: nat)
    ensures var a, b := Reading(vocabulary, LeftoverItems(k), false), Reading(vocabulary, Rewritten(LeftoverItems(k)), false);
            (Valid(b, b.root, v, n) <==> Valid(a, a.root, v, n)) <==>
            (vocabulary.hasType(v, "array") && IsArray(v) ==> forall i :: 0 <= i < |v.content.s| ==> Valid(a, k, v.content.s[i], n))
  {
    hide Valid, Rewritten;
    LeftoverBefore(vocabulary, k, v, n);
    LeftoverAfter(vocabulary, k, v, n);
  }

  /** An array that was refused for its element and is admitted afterwards. */
  lemma LeftoverCanBeLost(vocabulary: Vocabulary, n: nat)
    requires vocabulary.hasType(Branch(Items([Null])), "array")
    ensures var a, b := Reading(vocabulary, LeftoverItems(Bool(false)), false),
                        Reading(vocabulary, Rewritten(LeftoverItems(Bool(false))), false);
            !Valid(a, a.root, Branch(Items([Null])), n) && Valid(b, b.root, Branch(Items([Null])), n)
  {
    hide Rewritten, LeftoverItems;
    var v := Branch(Items([Null]));
    LeftoverBefore(vocabulary, Bool(false), v, n);
    LeftoverAfter(vocabulary, Bool(false), v, n);
    assert v.content.s[0] == Null;
  }

  const BARE_ARRAY := Branch(Fields(map["type" := ARRAY]))

  /** Whether elements are left over is decided by a branch that is a bare array type. */
  function LeftoverBeside(branch: Tree): Tree {
    Branch(Fields(map["allOf" := Branch(Items([branch])), "unevaluatedItems" := Bool(false)]))
  }

  lemma BareRewritten()
    ensures Rewritten(BARE_ARRAY) == Variant(ARRAY)
  {
    assert RewrittenMembers(BARE_ARRAY.content.m) == map["type" := ARRAY];
  }

  lemma BesideRewritten()
    ensures Rewritten(LeftoverBeside(BARE_ARRAY)) == LeftoverBeside(Variant(ARRAY))
  {
    BareListRewritten();
    hide Variant;
    var m := LeftoverBeside(BARE_ARRAY).content.m;
    RewrittenKind(Bool(false));
    assert RewrittenMembers(m) == map["allOf" := Branch(Items([Variant(ARRAY)])), "unevaluatedItems" := Bool(false)];
    assert Finish(RewrittenMembers(m)) == RewrittenMembers(m);
  }

  lemma BareListRewritten()
    ensures Rewritten(Branch(Items([BARE_ARRAY]))) == Branch(Items([Variant(ARRAY)]))
  {
    BareRewritten();
    hide Finish;
    assert Rewritten(Branch(Items([BARE_ARRAY]))).content.s == [RewrittenItem(BARE_ARRAY)];
  }

  /** What such a schema says of an array of one element, told by its branch. */
  lemma BesideMeans(vocabulary: Vocabulary, branch: Tree, v: Tree, n: nat)
    requires IsArray(v) && |v.content.s| == 1
    ensures var r := Reading(vocabulary, LeftoverBeside(branch), false);
            Valid(r, r.root, v, n) <==> Valid(r, branch, v, n) && Covers(r, branch, v, Position(0), n)
  {
    hide Valid, Covers, ViewAt, KeywordHolds;
    var r := Reading(vocabulary, LeftoverBeside(branch), false);
    var m, view := r.root.content.m, ViewAt(r, r.root, n);
    assert m.Keys == {"allOf", "unevaluatedItems"} && m["allOf"] == Branch(Items([branch])) && m["unevaluatedItems"] == Bool(false);
    ViewOfSub(r, r.root, Nth("allOf", 0), v, n);
    ViewOfSub(r, r.root, Own("unevaluatedItems"), v.content.s[0], n);
    NothingIsFalse(r, v.content.s[0], n);
    BesideKeywords(vocabulary, m, v, view);
    ValidByKeywords(r, r.root, v, n);
  }

  lemma NothingIsFalse(r: Reading, v: Tree, n: nat)
    ensures !Valid(r, Bool(false), v, n)
  {
  }

  lemma BesideKeywords(vocabulary: Vocabulary, m: map<string, Tree>, v: Tree, view: View)
    requires m.Keys == {"allOf", "unevaluatedItems"} && IsArray(m["allOf"]) && |m["allOf"].content.s| == 1
    requires IsArray(v) && |v.content.s| == 1 && !view.holds(Own("unevaluatedItems"), v.content.s[0])
    ensures KeywordHolds(vocabulary, false, m, "allOf", v, view) <==> view.holds(Nth("allOf", 0), v)
    ensures KeywordHolds(vocabulary, false, m, "unevaluatedItems", v, view) <==>
      view.holds(Nth("allOf", 0), v) && view.covers(Nth("allOf", 0), v, Position(0))
  {
    assert CoveredBeside(vocabulary, false, m, "unevaluatedItems", v, view, Position(0)) <==>
      CoversBy(vocabulary, false, m, "allOf", v, view, Position(0));
  }

  lemma BareMeans(r: Reading, v: Tree, n: nat)
    ensures !Covers(r, BARE_ARRAY, v, Position(0), n)
    ensures Covers(r, Variant(ARRAY), v, Position(0), n)
  {
    hide ViewAt;
    var m, view := Variant(ARRAY).content.m, ViewAt(r, Variant(ARRAY), n);
    assert "items" in m;
    assert CoversBy(r.vocabulary, r.shadow, m, "items", v, view, Position(0));
  }

  /**
  The same happens across nodes: an array refused because nothing speaks of its
  element is admitted once `items` are added to a branch beside the question.
  */
  lemma LeftoverCanBeLostBeside(vocabulary: Vocabulary, n: nat)
    requires vocabulary.hasType(Branch(Items([Null])), "array")
    ensures var a, b := Reading(vocabulary, LeftoverBeside(BARE_ARRAY), false),
                        Reading(vocabulary, Rewritten(LeftoverBeside(BARE_ARRAY)), false);
            !Valid(a, a.root, Branch(Items([Null])), n) && Valid(b, b.root, Branch(Items([Null])), n)
  {
    hide Valid, Covers, Rewritten, LeftoverBeside;
    var v := Branch(Items([Null]));
    BesideRewritten();
    var a, b := Reading(vocabulary, LeftoverBeside(BARE_ARRAY), false), Reading(vocabulary, LeftoverBeside(Variant(ARRAY)), false);
    BareMeans(a, v, n);
    BareMeans(b, v, n);
    VariantMeans(b, ARRAY, v, n);
    BesideMeans(vocabulary, BARE_ARRAY, v, n);
    BesideMeans(vocabulary, Variant(ARRAY), v, n);
  }
}
