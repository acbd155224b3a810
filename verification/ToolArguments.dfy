/**
Checking the arguments of a tool call: nulls are normalised, then what the
validator complains about is coerced, at most five times, until it accepts.  All
of it happens on values in memory, and the original arguments are never written.
*/
module ToolArguments {
  import opened Common
  import opened JsonTree
  import opened Pointers
  import opened NullNormalization
  import NullEdits
  import PointerEdits
  import E = NullEffects

  const MAX_COERCION_PASSES := 5

  /** A complaint of the validator, with the pointer it names. */
  datatype Issue = Unrecognized(pointer: string) | WrongType(pointer: string, expected: string) | OtherIssue

  /** `valid` and `issues` are the validator's; nothing is assumed of them. */
  datatype Checker = Checker(
    schema: Tree,
    parameters: set<string>,
    parse: Parser,
    valid: Tree -> bool,
    issues: Tree -> seq<Issue>)

  // ----------------------------------------------------------------- coercion

  /** What one issue makes of the arguments: a member deleted, or a string read as the expected type. */
  function CoerceOne(parse: Parser, args: Tree, issue: Issue): Option<Tree> {
    match issue
    case Unrecognized(pointer) => if pointer == "" then None else DeleteAt(args, DecodePointer(pointer))
    case WrongType(pointer, expected) =>
      var v := GetAt(args, DecodePointer(pointer));
      if expected == "" || pointer == "" || !v.Text? then None
      else
        (match parse(v.s, expected)
         case None => None
         case Some(parsed) => SetAt(args, DecodePointer(pointer), parsed))
    case OtherIssue => None
  }

  function CoerceAll(parse: Parser, args: Tree, issues: seq<Issue>): (Tree, bool) {
    if issues == [] then (args, false)
    else
      var (before, changed) := CoerceAll(parse, args, issues[..|issues| - 1]);
      match CoerceOne(parse, before, issues[|issues| - 1])
      case Some(next) => (next, true)
      case None => (before, changed)
  }

  /** An object that has no root key `args` lacks. */
  predicate RootWithin(next: Tree, args: Tree) {
    IsObject(args) ==> IsObject(next) && next.content.m.Keys <= args.content.m.Keys
  }

  /** Writing where something is already adds no root key. */
  lemma SetKeepsRoot(t: Tree, path: seq<string>, v: Tree)
    requires SetAt(t, path, v).Some? && Walk(t, path).Some?
    ensures RootWithin(SetAt(t, path, v).value, t)
  {
    hide Walk, Replaced, SetAt, EditAt;
    SetAtStep(t, path, v);
  }

  lemma SetAtStep(t: Tree, path: seq<string>, v: Tree)
    requires SetAt(t, path, v).Some? && Walk(t, path).Some?
    ensures path != [] && t.Branch? && SetAt(t, path, v).value.Branch?
    ensures At(t.content, PlaceOf(t.content, path[0])).Some?
    ensures exists w :: Put(t.content, PlaceOf(t.content, path[0]), w) == Some(SetAt(t, path, v).value.content)
  {
    EditStep(t, path, (c, p) => Put(c, p, v));
    if |path| > 1 {
      var child := At(t.content, PlaceOf(t.content, path[0])).value;
      PresentPuts(t.content, PlaceOf(t.content, path[0]), SetAt(child, path[1..], v).value);
    }
  }

  lemma DeleteKeepsRoot(t: Tree, path: seq<string>)
    requires DeleteAt(t, path).Some?
    ensures RootWithin(DeleteAt(t, path).value, t)
  {
    EditStep(t, path, (c, p) => Drop(c, p));
    if |path| > 1 {
      var child := At(t.content, PlaceOf(t.content, path[0])).value;
      PresentPuts(t.content, PlaceOf(t.content, path[0]), DeleteAt(child, path[1..]).value);
    }
  }

  lemma CoerceOneKeepsRoot(parse: Parser, args: Tree, issue: Issue)
    requires CoerceOne(parse, args, issue).Some?
    ensures RootWithin(CoerceOne(parse, args, issue).value, args)
  {
    hide RootWithin, Walk;
    match issue
    case Unrecognized(pointer) => DeleteKeepsRoot(args, DecodePointer(pointer));
    case WrongType(pointer, expected) =>
      var v := GetAt(args, DecodePointer(pointer));
      SetKeepsRoot(args, DecodePointer(pointer), parse(v.s, expected).value);
    case OtherIssue =>
  }

  /** Coercion, whatever the issues, adds no root key. */
  lemma {:induction false} CoerceAllKeepsRoot(parse: Parser, args: Tree, issues: seq<Issue>)
    ensures RootWithin(CoerceAll(parse, args, issues).0, args)
  {
    hide CoerceOne;
    if issues != [] {
      var front, last := issues[..|issues| - 1], issues[|issues| - 1];
      CoerceAllKeepsRoot(parse, args, front);
      var before := CoerceAll(parse, args, front).0;
      if CoerceOne(parse, before, last).Some? {
        CoerceOneKeepsRoot(parse, before, last);
      }
    }
  }

  /**
  What one issue does: an unrecognised member goes if its pointer leads to one
  below the root; a value of the wrong type is replaced by what it is read as if
  it is a text that can be read so, and every place off the pointer stays.
  */
  lemma IssueAnswered(parse: Parser, args: Tree, issue: Issue, q: seq<string>)
    requires !issue.OtherIssue?
    ensures var path, r := DecodePointer(issue.pointer), CoerceOne(parse, args, issue);
            match issue
            case Unrecognized(pointer) =>
              && (r.Some? <==> path != [] && Walk(args, path).Some?)
              && (r.Some? ==> r == DeleteAt(args, path))
            case WrongType(pointer, expected) =>
              && (r.Some? <==> expected != "" && path != [] && Walk(args, path).Some? && Walk(args, path).value.Text?
                               && parse(Walk(args, path).value.s, expected).Some?)
              && (r.Some? ==>
                    && Walk(r.value, path) == parse(Walk(args, path).value.s, expected)
                    && (PartWays(args, path, q) ==> Walk(r.value, q) == Walk(args, q)))
  {
    hide Walk, EditAt, SetAt, DeleteAt, PartWays, SplitOn;
    var path := DecodePointer(issue.pointer);
    match issue
    case Unrecognized(pointer) => DeleteSucceeds(args, path);
    case WrongType(pointer, expected) =>
      var v := GetAt(args, path);
      if expected != "" && pointer != "" && v.Text? && parse(v.s, expected).Some? {
        if path == [] {
          SetNothing(args, parse(v.s, expected).value);
        } else {
          PresentSets(args, path, parse(v.s, expected).value);
          SetReads(args, path, parse(v.s, expected).value);
          if PartWays(args, path, q) {
            SetElsewhere(args, path, parse(v.s, expected).value, q);
          }
        }
      }
  }

  /** The arguments as they go through the issues, one after another; `changed` says whether any was answered. */
  lemma {:induction false} IssuesInTurn(parse: Parser, args: Tree, issues: seq<Issue>) returns (ts: seq<Tree>)
    ensures |ts| == |issues| + 1 && ts[0] == args && ts[|issues|] == CoerceAll(parse, args, issues).0
    ensures forall i :: 0 <= i < |issues| ==>
              ts[i + 1] == match CoerceOne(parse, ts[i], issues[i]) case Some(next) => next case None => ts[i]
    ensures CoerceAll(parse, args, issues).1 <==>
              exists i :: 0 <= i < |issues| && CoerceOne(parse, ts[i], issues[i]).Some?
    decreases |issues|
  {
    hide CoerceOne;
    if issues == [] {
      ts := [args];
    } else {
      var n := |issues| - 1;
      var before := IssuesInTurn(parse, args, issues[..n]);
      ts := before + [CoerceAll(parse, args, issues).0];
      assert forall i :: 0 <= i < n ==> issues[i] == issues[..n][i];
      assert forall i :: 0 <= i <= n ==> ts[i] == before[i];
    }
  }

  /** One issue, on arguments in memory. */
  method CoerceArgs(parse: Parser, args: Node, issue: Issue, ghost t: Tree, ghost nodes: set<Node>)
    returns (next: Node, changed: bool, ghost all: set<Node>)
    requires Represents(Ref(args), t, nodes) && IsObject(t)
    ensures nodes <= all && fresh(all - nodes)
    ensures changed <==> CoerceOne(parse, t, issue).Some?
    ensures if changed then fresh(next) else next == args
    ensures Represents(Ref(next), if changed then CoerceOne(parse, t, issue).value else t, all)
  {
    hide SetAt, DeleteAt, Walk, Holds;
    next, changed, all := args, false, nodes;
    match issue {
      case Unrecognized(pointer) =>
        if pointer == "" {
          return;
        }
        var updated, deleted;
        updated, deleted, all := PointerEdits.DeleteValueAtPointer(args, DecodePointer(pointer), t, nodes);
        RepresentsMore(Ref(args), t, nodes, all);
        if deleted {
          next, changed := updated, true;
          DeletesSomewhere(t, DecodePointer(pointer));
        }
      case WrongType(pointer, expected) =>
        if expected == "" || pointer == "" {
          return;
        }
        var path := DecodePointer(pointer);
        var currentValue := GetValueAtPointer(args, path, t, nodes);
        if !(currentValue.Scalar? && currentValue.t.Text?) {
          return;
        }
        var parsed := parse(currentValue.t.s, expected);
        if parsed.None? {
          return;
        }
        var value;
        ghost var made;
        value, made := NullEdits.Decode(parsed.value);
        RepresentsMore(value, parsed.value, made, nodes + made);
        RepresentsMore(Ref(args), t, nodes, nodes + made);
        var updated, ok;
        updated, ok, all := PointerEdits.SetValueAtPointer(args, path, value, t, parsed.value, nodes + made);
        RepresentsMore(Ref(args), t, nodes, all);
        if ok {
          next, changed := updated, true;
        }
      case OtherIssue =>
    }
  }

  lemma DeletesSomewhere(t: Tree, path: seq<string>)
    requires DeleteAt(t, path).Some?
    ensures path != []
  {
  }

  method CoerceArgsFromIssues(parse: Parser, args: Node, issues: seq<Issue>, ghost t: Tree, ghost nodes: set<Node>)
    returns (next: Node, changed: bool, ghost all: set<Node>)
    requires Represents(Ref(args), t, nodes) && IsObject(t)
    ensures nodes <= all && fresh(all - nodes)
    ensures changed == CoerceAll(parse, t, issues).1
    ensures if changed then fresh(next) else next == args
    ensures Represents(Ref(next), CoerceAll(parse, t, issues).0, all)
  {
    hide CoerceOne, Represents;
    next, changed, all := args, false, nodes;
    for i := 0 to |issues|
      invariant nodes <= all && fresh(all - nodes)
      invariant changed == CoerceAll(parse, t, issues[..i]).1
      invariant if changed then fresh(next) else next == args
      invariant Represents(Ref(next), CoerceAll(parse, t, issues[..i]).0, all)
    {
      assert issues[..i + 1][..i] == issues[..i];
      CoerceAllKeepsRoot(parse, t, issues[..i]);
      var coerced, coercedSome;
      coerced, coercedSome, all := CoerceArgs(parse, next, issues[i], CoerceAll(parse, t, issues[..i]).0, all);
      if coercedSome {
        next, changed := coerced, true;
      }
    }
    assert issues[..|issues|] == issues;
  }

  // --------------------------------------------------------------- validation

  /** Normalisation of whole arguments: what replaces them, if anything does. */
  function NormalizedArgs(checker: Checker, args: Tree): Option<Tree>
    requires IsObject(checker.schema) && IsObject(args)
  {
    var normalized := Normalized(checker.parse, checker.schema, args, true);
    if checker.schema.content.m != map[] && args.content.m != map[] && normalized.Some? && IsObject(normalized.value)
    then normalized else None
  }

  /** The result is again an object, without a new root key. */
  lemma NormalizedArgsKeepRoot(checker: Checker, args: Tree)
    requires IsObject(checker.schema) && IsObject(args)
    ensures NormalizedArgs(checker, args).Some? ==> RootWithin(NormalizedArgs(checker, args).value, args)
  {
    hide Normalized;
    if NormalizedArgs(checker, args).Some? {
      NothingInvented(checker.parse, checker.schema, args, true);
    }
  }

  method NormalizeOptionalNulls(checker: Checker, args: Node, ghost t: Tree, ghost nodes: set<Node>)
    returns (next: Node, ghost next': Tree, ghost all: set<Node>)
    requires IsObject(checker.schema) && IsObject(t) && Represents(Ref(args), t, nodes)
    ensures nodes <= all && fresh(all - nodes)
    ensures next' == if NormalizedArgs(checker, t).Some? then NormalizedArgs(checker, t).value else t
    ensures IsObject(next') && RootWithin(next', t)
    ensures Represents(Ref(next), next', all)
    ensures if NormalizedArgs(checker, t).Some? then fresh(next) else next == args
  {
    hide Normalized;
    next, next', all := args, t, nodes;
    NormalizedArgsKeepRoot(checker, t);
    if checker.schema.content.m == map[] || |args.content.m| == 0 {
      return;
    }
    var coerced, changed;
    coerced, changed, all := NullEdits.NormalizeValue(checker.parse, checker.schema, Ref(args), true, t, nodes);
    RepresentsMore(Ref(args), t, nodes, all);
    if changed {
      if coerced.node.content.Fields? {
        next, next' := coerced.node, Normalized(checker.parse, checker.schema, t, true).value;
      }
    }
  }

  /** What a validator, or an encoder, sees of a value in memory. */
  method Encode(v: Value, ghost t: Tree, ghost nodes: set<Node>) returns (seen: Tree)
    requires Represents(v, t, nodes)
    ensures seen == t
    decreases t
  {
    match v
    case Scalar(s) => seen := s;
    case Ref(node) =>
      match node.content {
        case Fields(m) =>
          var members: map<string, Tree> := map[];
          var todo := m.Keys;
          while todo != {}
            invariant todo <= m.Keys && members.Keys == m.Keys - todo
            invariant forall k :: k in members ==> members[k] == t.content.m[k]
            decreases |todo|
          {
            var key := Pick(todo);
            todo := todo - {key};
            var member := Encode(m[key], t.content.m[key], nodes);
            members := members[key := member];
          }
          assert members == t.content.m;
          seen := Branch(Fields(members));
        case Items(s) =>
          var elements: seq<Tree> := [];
          for i := 0 to |s|
            invariant elements == t.content.s[..i]
          {
            var element := Encode(s[i], t.content.s[i], nodes);
            elements := elements + [element];
          }
          assert elements == t.content.s;
          seen := Branch(Items(elements));
      }
  }

  /** Undeclared root members get their original values back. */
  function Preserved(original: map<string, Tree>, normalized: map<string, Tree>, known: set<string>): map<string, Tree> {
    normalized + (map key | key in original && key !in known :: original[key])
  }

  lemma HoldsKeys(c: Content<Value>, m: map<string, Tree>, nodes: set<Node>)
    requires Holds(c, Fields(m), nodes)
    ensures c.Fields? && c.m.Keys == m.Keys
  {
  }

  lemma ShareMember(c: Content<Value>, made: map<string, Tree>, d: Content<Value>, o: map<string, Tree>, nodes: set<Node>, key: string)
    requires Holds(c, Fields(made), nodes) && Holds(d, Fields(o), nodes) && key in o
    ensures c.Fields? && d.Fields? && key in d.m
    ensures Holds(Fields(c.m[key := d.m[key]]), Fields(made[key := o[key]]), nodes)
  {
    hide Represents;
  }

  /** The members once the undeclared ones outside `todo` are back. */
  ghost predicate PutBack(o: map<string, Tree>, n: map<string, Tree>, known: set<string>, todo: set<string>, made: map<string, Tree>) {
    && (forall key :: key in made <==> key in n || (key in o && key !in todo && key !in known))
    && (forall key :: key in made ==> made[key] == if key in o && key !in todo && key !in known then o[key] else n[key])
  }

  lemma PutBackOne(o: map<string, Tree>, n: map<string, Tree>, known: set<string>, todo: set<string>, made: map<string, Tree>,
                   key: string)
    requires PutBack(o, n, known, todo, made) && key in todo && key in o
    ensures PutBack(o, n, known, todo - {key}, if key in known then made else made[key := o[key]])
  {
  }

  lemma PutBackEnds(o: map<string, Tree>, n: map<string, Tree>, known: set<string>)
    ensures PutBack(o, n, known, o.Keys, n)
    ensures forall made :: PutBack(o, n, known, {}, made) ==> made == Preserved(o, n, known)
  {
  }

  /** The result is a new object that shares the members of both. */
  method PreserveUnknownRootFields(original: Node, normalized: Node, known: set<string>,
                                   ghost o: map<string, Tree>, ghost n: map<string, Tree>, ghost nodes: set<Node>)
    returns (result: Node)
    requires Holds(original.content, Fields(o), nodes) && Holds(normalized.content, Fields(n), nodes)
    ensures fresh(result)
    ensures Holds(result.content, Fields(Preserved(o, n, known)), nodes)
  {
    hide Represents, Holds, PutBack, Preserved;
    result := new Node(normalized.content);
    ghost var made := n;
    HoldsKeys(original.content, o, nodes);
    var ranged := original.content.m;
    var todo := ranged.Keys;
    PutBackEnds(o, n, known);
    while todo != {}
      invariant todo <= o.Keys
      invariant Holds(result.content, Fields(made), nodes) && PutBack(o, n, known, todo, made)
      decreases |todo|
    {
      var key := Pick(todo);
      PutBackOne(o, n, known, todo, made, key);
      todo := todo - {key};
      if key in known {
        continue;
      }
      ShareMember(result.content, made, Fields(ranged), o, nodes, key);
      result.content := Fields(result.content.m[key := ranged[key]]);
      made := made[key := o[key]];
    }
  }

  datatype Checked = Accepted(args: Node) | Rejected(args: Node)

  /** What an accepted call's arguments have to do with the original ones. */
  ghost predicate Faithful(checker: Checker, original: map<string, Tree>, args: map<string, Tree>) {
    && args.Keys <= original.Keys
    && (forall key :: key !in checker.parameters ==> (key in args <==> key in original))
    && (forall key :: key in args && key !in checker.parameters ==> args[key] == original[key])
    && exists accepted ::
         && IsObject(accepted) && checker.valid(accepted)
         && (forall key :: key in checker.parameters ==> (key in args <==> key in accepted.content.m))
         && (forall key :: key in args && key in checker.parameters ==> args[key] == accepted.content.m[key])
  }

  lemma PreservedIsFaithful(checker: Checker, original: map<string, Tree>, accepted: Tree)
    requires IsObject(accepted) && checker.valid(accepted) && accepted.content.m.Keys <= original.Keys
    ensures Faithful(checker, original, Preserved(original, accepted.content.m, checker.parameters))
  {
  }

  /** Hands an accepted value over, undeclared root members as they were. */
  method Accept(checker: Checker, original: Node, normalized: Node, ghost o: Tree, ghost n: Tree,
                ghost nodes: set<Node>, ghost all: set<Node>)
    returns (args: Node, ghost result: Tree, ghost more: set<Node>)
    requires Represents(Ref(original), o, nodes) && IsObject(o) && nodes <= all
    requires Represents(Ref(normalized), n, all) && IsObject(n)
    requires checker.valid(n) && n.content.m.Keys <= o.content.m.Keys
    ensures Represents(Ref(args), result, more) && IsObject(result) && fresh(args)
    ensures all <= more && fresh(more - all)
    ensures Faithful(checker, o.content.m, result.content.m)
    ensures result == Branch(Fields(Preserved(o.content.m, n.content.m, checker.parameters)))
  {
    hide Faithful, Preserved, Holds;
    RepresentsMore(Ref(original), o, nodes, all);
    args := PreserveUnknownRootFields(original, normalized, checker.parameters, o.content.m, n.content.m, all);
    more := all + {args};
    result := Branch(Fields(Preserved(o.content.m, n.content.m, checker.parameters)));
    HoldsMore(args.content, result.content, all, more);
    PreservedIsFaithful(checker, o.content.m, n);
  }

  lemma {:induction false} NothingCoerced(parse: Parser, args: Tree, issues: seq<Issue>)
    requires !CoerceAll(parse, args, issues).1
    ensures CoerceAll(parse, args, issues).0 == args
  {
    hide CoerceOne;
    if issues != [] {
      NothingCoerced(parse, args, issues[..|issues| - 1]);
    }
  }

  // ------------------------------------------------------------ the rounds

  /** What one pass of coercion and normalisation makes of the arguments; None when no issue can be answered. */
  function Pass(checker: Checker, args: Tree): (r: Option<Tree>)
    requires IsObject(checker.schema) && IsObject(args)
    ensures r.Some? ==> IsObject(r.value)
  {
    var (coerced, changed) := CoerceAll(checker.parse, args, checker.issues(args));
    CoerceAllKeepsRoot(checker.parse, args, checker.issues(args));
    if !changed then None
    else if NormalizedArgs(checker, coerced).Some? then NormalizedArgs(checker, coerced)
    else Some(coerced)
  }

  /** The arguments after up to `n` passes; the first valid ones are final. */
  function Rounds(checker: Checker, args: Tree, n: nat): (r: Tree)
    requires IsObject(checker.schema) && IsObject(args)
    ensures IsObject(r)
    decreases n
  {
    if n == 0 || checker.valid(args) || Pass(checker, args).None? then args
    else Rounds(checker, Pass(checker, args).value, n - 1)
  }

  /** Arguments of which each is invalid and the next is what one pass makes of it. */
  ghost predicate Trail(checker: Checker, ts: seq<Tree>)
    requires IsObject(checker.schema)
  {
    && (forall i :: 0 <= i < |ts| ==> IsObject(ts[i]))
    && forall i :: 0 <= i < |ts| - 1 ==> !checker.valid(ts[i]) && Pass(checker, ts[i]) == Some(ts[i + 1])
  }

  /**
  Pass by pass: the final arguments are the first valid ones within `n` passes,
  if there are any, and otherwise those where no issue could be answered or the
  passes ran out.
  */
  lemma {:induction false} RoundsTrail(checker: Checker, args: Tree, n: nat) returns (ts: seq<Tree>)
    requires IsObject(checker.schema) && IsObject(args)
    ensures 0 < |ts| <= n + 1 && Trail(checker, ts)
    ensures ts[0] == args && ts[|ts| - 1] == Rounds(checker, args, n)
    ensures checker.valid(ts[|ts| - 1]) || |ts| == n + 1 || Pass(checker, ts[|ts| - 1]).None?
    decreases n
  {
    hide Pass;
    if n == 0 || checker.valid(args) || Pass(checker, args).None? {
      ts := [args];
    } else {
      var rest := RoundsTrail(checker, Pass(checker, args).value, n - 1);
      ts := [args] + rest;
      assert forall i :: 1 <= i < |ts| ==> ts[i] == rest[i - 1];
    }
  }

  /** The arguments the validator first sees. */
  function Start(checker: Checker, args: Tree): (r: Tree)
    requires IsObject(checker.schema) && IsObject(args)
    ensures IsObject(r)
  {
    if NormalizedArgs(checker, args).Some? then NormalizedArgs(checker, args).value else args
  }

  /**
  Member by member at the root: an optional null is gone, a required one has its
  default, any other declared member is what its schema makes of it, and every
  undeclared one is as it was sent, null or not.
  */
  lemma StartMembers(checker: Checker, m: map<string, Tree>, properties: map<string, Tree>, o: map<string, Tree>, key: string)
    requires checker.schema == Branch(Fields(m)) && E.DescribesObject(m, properties) && key in o
    ensures var start := Start(checker, Branch(Fields(o))).content.m;
            && start.Keys <= o.Keys
            && E.Settled(checker.parse, m, properties, true, key, o[key], if key in start then Some(start[key]) else None)
    ensures key !in properties ==>
              var start := Start(checker, Branch(Fields(o))).content.m;
              key in start && start[key] == o[key]
  {
    hide Normalized;
    E.MembersAfterwards(checker.parse, m, properties, o, true);
    assert m != map[];
  }

  /** Arguments that are valid once their nulls are normalised are accepted without any coercion. */
  lemma ValidIsFinal(checker: Checker, args: Tree)
    requires IsObject(checker.schema) && IsObject(args) && checker.valid(Start(checker, args))
    ensures Rounds(checker, Start(checker, args), 5) == Start(checker, args)
  {
  }

  /** One pass of coercion and normalisation. */
  method CoercionPass(checker: Checker, args: Node, seen: Tree, ghost nodes: set<Node>)
    returns (next: Node, changed: bool, nextSeen: Tree, ghost all: set<Node>)
    requires IsObject(checker.schema) && IsObject(seen) && Represents(Ref(args), seen, nodes)
    ensures nodes <= all && fresh(all - nodes)
    ensures changed == CoerceAll(checker.parse, seen, checker.issues(seen)).1
    ensures Pass(checker, seen) == if changed then Some(nextSeen) else None
    ensures if changed then fresh(next) else next == args && nextSeen == seen
    ensures IsObject(nextSeen) && RootWithin(nextSeen, seen) && Represents(Ref(next), nextSeen, all)
  {
    hide CoerceAll, NormalizedArgs;
    ghost var c := CoerceAll(checker.parse, seen, checker.issues(seen)).0;
    CoerceAllKeepsRoot(checker.parse, seen, checker.issues(seen));
    var coerced;
    coerced, changed, all := CoerceArgsFromIssues(checker.parse, args, checker.issues(seen), seen, nodes);
    if !changed {
      NothingCoerced(checker.parse, seen, checker.issues(seen));
      return args, false, seen, all;
    }
    ghost var n;
    next, n, all := NormalizeOptionalNulls(checker, coerced, c, all);
    nextSeen := Encode(Ref(next), n, all);
  }

  /**
  Whatever the validator and its issues: accepted arguments agree with the
  original on every undeclared root key, have no root key the original lacks,
  and otherwise are a value the validator accepted.  Nothing that existed before
  is written, so the original still is what it was, however its parts are shared.
  */
  method ValidateAndNormalize(checker: Checker, original: Node, ghost o: Tree, ghost nodes: set<Node>)
    returns (r: Checked, ghost result: Tree, ghost all: set<Node>)
    requires IsObject(checker.schema) && IsObject(o) && Represents(Ref(original), o, nodes)
    ensures Represents(Ref(original), o, nodes)
    ensures Represents(Ref(r.args), result, all) && IsObject(result) && r.args != original
    ensures r.Accepted? ==> Faithful(checker, o.content.m, result.content.m)
    ensures r.Rejected? ==> result.content.m.Keys <= o.content.m.Keys && !checker.valid(result)
    ensures var final := Rounds(checker, Start(checker, o), 5);
            && (r.Accepted? <==> checker.valid(final))
            && (r.Rejected? ==> result == final)
            && (r.Accepted? ==> result == Branch(Fields(Preserved(o.content.m, final.content.m, checker.parameters))))
  {
    hide CoerceAll, Faithful, NormalizedArgs, Holds, Pass, Preserved;
    // The root is copied at once; its members are shared.
    var copy := new Node(original.content);
    all := nodes + {copy};
    HoldsMore(copy.content, o.content, nodes, all);
    var normalized;
    ghost var n;
    normalized, n, all := NormalizeOptionalNulls(checker, copy, o, all);
    var seen := Encode(Ref(normalized), n, all);
    var pass := 0;
    var more := true;
    while more && !checker.valid(seen) && pass < MAX_COERCION_PASSES
      invariant nodes <= all && fresh(all - nodes) && fresh(normalized)
      invariant Represents(Ref(normalized), seen, all) && IsObject(seen) && RootWithin(seen, o)
      invariant pass <= MAX_COERCION_PASSES
      invariant Rounds(checker, Start(checker, o), MAX_COERCION_PASSES)
             == if more then Rounds(checker, seen, MAX_COERCION_PASSES - pass) else seen
      decreases MAX_COERCION_PASSES - pass
    {
      normalized, more, seen, all := CoercionPass(checker, normalized, seen, all);
      pass := pass + 1;
    }
    result := seen;
    if !checker.valid(seen) {
      return Rejected(normalized), result, all;
    }
    var args;
    args, result, all := Accept(checker, original, normalized, o, seen, nodes, all);
    return Accepted(args), result, all;
  }
}
