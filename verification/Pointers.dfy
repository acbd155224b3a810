/**
Editing JSON values in memory by pointer: the containers on the path are cloned
and only the clones are written.
*/
module Pointers {
  import opened Common
  import opened JsonTree

  // ------------------------------------------------------- pointers and steps

  function SplitOn(s: string, sep: char): (r: seq<string>)
    ensures |r| > 0
  {
    if s == "" then [""]
    else
      var more := SplitOn(s[1..], sep);
      if s[0] == sep then [""] + more else [[s[0]] + more[0]] + more[1..]
  }

  function Join(parts: seq<string>, sep: char): string
    requires |parts| > 0
  {
    if |parts| == 1 then parts[0] else parts[0] + [sep] + Join(parts[1..], sep)
  }

  /** The segments of a pointer; a leading slash is optional, and nothing is unescaped. */
  function DecodePointer(pointer: string): seq<string> {
    var p := if pointer != "" && pointer[0] == '/' then pointer[1..] else pointer;
    if p == "" then [] else SplitOn(p, '/')
  }

  /** Splitting loses nothing, and no segment holds a separator. */
  lemma {:induction false} SplitJoins(s: string, sep: char)
    ensures Join(SplitOn(s, sep), sep) == s
    ensures forall i :: 0 <= i < |SplitOn(s, sep)| ==> sep !in SplitOn(s, sep)[i]
  {
    if s != "" {
      SplitJoins(s[1..], sep);
      var more := SplitOn(s[1..], sep);
      if s[0] == sep {
        assert ([""] + more)[1..] == more;
        assert s == [sep] + s[1..];
      } else {
        var first := [s[0]] + more[0];
        assert ([first] + more[1..])[1..] == more[1..];
        if |more| > 1 {
          assert first + [sep] + Join(more[1..], sep) == [s[0]] + (more[0] + [sep] + Join(more[1..], sep));
        }
        assert s == [s[0]] + s[1..];
      }
    }
  }

  const MAX_INT := 0x7FFF_FFFF_FFFF_FFFF

  function Decimal(s: string): (n: Option<nat>) {
    if s == "" then Some(0)
    else if '0' <= s[|s| - 1] <= '9' then
      match Decimal(s[..|s| - 1])
      case Some(high) => Some(high * 10 + (s[|s| - 1] as int - '0' as int))
      case None => None
    else None
  }

  /** Reads an index: a sign and leading zeros are allowed, a number beyond 64 bits is not. */
  function Atoi(s: string): Option<int> {
    var signed := s != "" && (s[0] == '+' || s[0] == '-');
    var digits := if signed then s[1..] else s;
    match Decimal(digits)
    case None => None
    case Some(n) =>
      if digits == "" then None
      else
        var k: int := n;
        var i := if signed && s[0] == '-' then -k else k;
        if -MAX_INT - 1 <= i <= MAX_INT then Some(i) else None
  }

  /** Joining segments and splitting them again gives them back. */
  lemma {:induction false} JoinSplits(parts: seq<string>, sep: char)
    requires |parts| > 0 && forall i :: 0 <= i < |parts| ==> sep !in parts[i]
    ensures SplitOn(Join(parts, sep), sep) == parts
    decreases |parts|, |parts[0]|
  {
    var all := Join(parts, sep);
    if parts[0] == "" {
      if |parts| > 1 {
        assert all[1..] == Join(parts[1..], sep);
        JoinSplits(parts[1..], sep);
      }
    } else {
      var rest := [parts[0][1..]] + parts[1..];
      assert all[0] == parts[0][0] != sep;
      assert rest[1..] == parts[1..];
      assert all[1..] == Join(rest, sep);
      JoinSplits(rest, sep);
      assert [all[0]] + rest[0] == parts[0];
      assert SplitOn(all, sep) == [[all[0]] + rest[0]] + rest[1..];
    }
  }

  /** A pointer spelled with a leading slash leads through exactly its segments. */
  lemma PointerSpells(path: seq<string>)
    requires |path| > 0 && forall i :: 0 <= i < |path| ==> '/' !in path[i]
    requires path != [""]
    ensures DecodePointer("/" + Join(path, '/')) == path
  {
    JoinSplits(path, '/');
    assert ("/" + Join(path, '/'))[1..] == Join(path, '/');
  }

  /** The usual decimal spelling of a number. */
  function Digits(n: nat): string {
    if n < 10 then [('0' as int + n) as char] else Digits(n / 10) + [('0' as int + n % 10) as char]
  }

  lemma {:induction false} DecimalDigits(n: nat)
    ensures Decimal(Digits(n)) == Some(n)
    ensures Digits(n) != "" && '0' <= Digits(n)[0] <= '9'
  {
    if n < 10 {
      assert Digits(n)[..0] == "";
      assert Decimal("") == Some(0);
    } else {
      DecimalDigits(n / 10);
      assert Digits(n)[..|Digits(n)| - 1] == Digits(n / 10);
    }
  }

  /** An index is read as it is usually spelled, with or without a sign; one beyond 64 bits is not read. */
  lemma AtoiDigits(n: nat)
    ensures Atoi(Digits(n)) == if n <= MAX_INT then Some(n) else None
    ensures Atoi("+" + Digits(n)) == Atoi(Digits(n))
    ensures Atoi("-" + Digits(n)) == if n <= MAX_INT + 1 then Some(-(n as int)) else None
  {
    hide Decimal, Digits;
    DecimalDigits(n);
    var d := Digits(n);
    var plus, minus := "+" + d, "-" + d;
    assert plus[1..] == d && minus[1..] == d && plus[0] == '+' && minus[0] == '-';
    assert d[0] != '+' && d[0] != '-';
  }

  /** Where a segment leads in a container: to a key, or to an index within an array. */
  datatype Place = Key(key: string) | Index(i: nat) | Nowhere

  function PlaceOf<V>(c: Content<V>, segment: string): Place {
    match c
    case Fields(_) => Key(segment)
    case Items(s) =>
      match Atoi(segment)
      case Some(i) => if 0 <= i < |s| then Index(i) else Nowhere
      case None => Nowhere
  }

  /** What is at a place. */
  function At<V>(c: Content<V>, p: Place): Option<V> {
    match (c, p)
    case (Fields(m), Key(key)) => if key in m then Some(m[key]) else None
    case (Items(s), Index(i)) => if i < |s| then Some(s[i]) else None
    case _ => None
  }

  function Put<V>(c: Content<V>, p: Place, v: V): Option<Content<V>> {
    match (c, p)
    case (Fields(m), Key(key)) => Some(Fields(m[key := v]))
    case (Items(s), Index(i)) => if i < |s| then Some(Items(s[i := v])) else None
    case _ => None
  }

  /** Takes away a present member; later elements of an array move up. */
  function Drop<V>(c: Content<V>, p: Place): Option<Content<V>> {
    match (c, p)
    case (Fields(m), Key(key)) => if key in m then Some(Fields(m - {key})) else None
    case (Items(s), Index(i)) => if i < |s| then Some(Items(s[..i] + s[i + 1..])) else None
    case _ => None
  }

  // ----------------------------------------------------------- edits of trees

  /** The value at a path, if every step of it exists. */
  function Walk(t: Tree, path: seq<string>): Option<Tree> {
    if path == [] then Some(t)
    else if !t.Branch? then None
    else
      match At(t.content, PlaceOf(t.content, path[0]))
      case None => None
      case Some(child) => Walk(child, path[1..])
  }

  /** What a lookup returns: a missing value reads as null. */
  function GetAt(t: Tree, path: seq<string>): Tree {
    match Walk(t, path)
    case Some(v) => v
    case None => Null
  }

  /** `t` with the value at an existing path replaced. */
  function Replaced(t: Tree, path: seq<string>, u: Tree): (r: Tree)
    requires Walk(t, path).Some?
    decreases |path|
  {
    if path == [] then u
    else
      var p := PlaceOf(t.content, path[0]);
      Branch(Put(t.content, p, Replaced(At(t.content, p).value, path[1..], u)).value)
  }

  function Front(path: seq<string>): seq<string>
    requires path != []
  {
    path[..|path| - 1]
  }

  function Last(path: seq<string>): string
    requires path != []
  {
    path[|path| - 1]
  }

  /** An edit of the container that holds the last step. */
  function EditAt(t: Tree, path: seq<string>, edit: (Content<Tree>, Place) -> Option<Content<Tree>>): Option<Tree> {
    if path == [] then None else
    match Walk(t, Front(path))
    case None => None
    case Some(parent) =>
      if !parent.Branch? then None else
      match edit(parent.content, PlaceOf(parent.content, Last(path)))
      case None => None
      case Some(c) => Some(Replaced(t, Front(path), Branch(c)))
  }

  function SetAt(t: Tree, path: seq<string>, v: Tree): Option<Tree> {
    EditAt(t, path, (c, p) => Put(c, p, v))
  }

  function DeleteAt(t: Tree, path: seq<string>): Option<Tree> {
    EditAt(t, path, (c, p) => Drop(c, p))
  }

  // -------------------------------------------------------- laws of tree edits

  lemma PutLaws<V>(c: Content<V>, p: Place, v: V, q: Place)
    requires Put(c, p, v).Some?
    ensures At(Put(c, p, v).value, q) == if q == p then Some(v) else At(c, q)
  {
  }

  lemma PutKeepsPlaces<V>(c: Content<V>, p: Place, v: V, segment: string)
    requires Put(c, p, v).Some?
    ensures PlaceOf(Put(c, p, v).value, segment) == PlaceOf(c, segment)
  {
  }

  lemma PresentPuts<V>(c: Content<V>, p: Place, v: V)
    requires At(c, p).Some?
    ensures Put(c, p, v).Some?
  {
  }

  /** The replaced value is found at its path, and replacing a value by itself changes nothing. */
  lemma {:induction false} ReplacedWalks(t: Tree, path: seq<string>, u: Tree)
    requires Walk(t, path).Some?
    ensures Walk(Replaced(t, path, u), path) == Some(u)
    decreases |path|
  {
    hide PlaceOf, At, Put;
    if path != [] {
      var p := PlaceOf(t.content, path[0]);
      var child := At(t.content, p).value;
      ReplacedWalks(child, path[1..], u);
      PresentPuts(t.content, p, Replaced(child, path[1..], u));
      PutLaws(t.content, p, Replaced(child, path[1..], u), p);
      PutKeepsPlaces(t.content, p, Replaced(child, path[1..], u), path[0]);
    }
  }

  /** An edit seen step by step from the root. */
  lemma EditStep(t: Tree, path: seq<string>, edit: (Content<Tree>, Place) -> Option<Content<Tree>>)
    requires path != [] && t.Branch?
    ensures var p := PlaceOf(t.content, path[0]);
            EditAt(t, path, edit) ==
              if |path| == 1 then
                (match edit(t.content, p)
                 case None => None
                 case Some(c) => Some(Branch(c)))
              else
                (match At(t.content, p)
                 case None => None
                 case Some(child) =>
                   match EditAt(child, path[1..], edit)
                   case None => None
                   case Some(child') => Some(Branch(Put(t.content, p, child').value)))
  {
    hide PlaceOf, At, Put;
    if |path| > 1 {
      assert Front(path)[0] == path[0] && Front(path)[1..] == Front(path[1..]);
      assert Last(path) == Last(path[1..]);
    }
  }

  /** After a successful set the pointer reads the value. */
  lemma {:induction false} SetReads(t: Tree, path: seq<string>, v: Tree)
    requires SetAt(t, path, v).Some?
    ensures Walk(SetAt(t, path, v).value, path) == Some(v)
    decreases |path|
  {
    hide PlaceOf, At, Put;
    EditStep(t, path, (c, p) => Put(c, p, v));
    var p := PlaceOf(t.content, path[0]);
    if |path| == 1 {
      PutLaws(t.content, p, v, p);
      PutKeepsPlaces(t.content, p, v, path[0]);
    } else {
      var child := At(t.content, p).value;
      SetReads(child, path[1..], v);
      var child' := SetAt(child, path[1..], v).value;
      PresentPuts(t.content, p, child');
      PutLaws(t.content, p, child', p);
      PutKeepsPlaces(t.content, p, child', path[0]);
    }
  }

  /** A set succeeds exactly when the container that holds the last step exists and can hold it. */
  lemma SetSucceeds(t: Tree, path: seq<string>, v: Tree)
    ensures SetAt(t, path, v).Some? <==>
      path != [] && Walk(t, Front(path)).Some? && var parent := Walk(t, Front(path)).value;
      parent.Branch? && !PlaceOf(parent.content, Last(path)).Nowhere?
  {
    hide Walk, Replaced;
  }

  /** A deletion succeeds exactly when the pointer leads to something below the root. */
  lemma DeleteSucceeds(t: Tree, path: seq<string>)
    ensures DeleteAt(t, path).Some? <==> path != [] && Walk(t, path).Some?
  {
    if path != [] {
      WalkStep(t, Front(path), Last(path));
      assert Front(path) + [Last(path)] == path;
      hide Walk, Replaced;
    }
  }

  lemma {:induction false} WalkStep(t: Tree, path: seq<string>, segment: string)
    ensures Walk(t, path + [segment]) ==
      match Walk(t, path)
      case None => None
      case Some(parent) => if parent.Branch? then At(parent.content, PlaceOf(parent.content, segment)) else None
    decreases |path|
  {
    hide PlaceOf, At;
    if path == [] {
      assert [] + [segment] == [segment] && [segment][1..] == [];
      if t.Branch? && At(t.content, PlaceOf(t.content, segment)).Some? {
        assert Walk(At(t.content, PlaceOf(t.content, segment)).value, []).Some?;
      }
    } else {
      assert (path + [segment])[0] == path[0] && (path + [segment])[1..] == path[1..] + [segment];
      if t.Branch? && At(t.content, PlaceOf(t.content, path[0])).Some? {
        WalkStep(At(t.content, PlaceOf(t.content, path[0])).value, path[1..], segment);
      }
    }
  }

  /** Two paths that part ways: at some step they lead to different places of one container. */
  predicate PartWays(t: Tree, path: seq<string>, q: seq<string>) {
    && path != [] && q != [] && t.Branch?
    && var p := PlaceOf(t.content, path[0]);
       p != PlaceOf(t.content, q[0])
       || (At(t.content, p).Some? && PartWays(At(t.content, p).value, path[1..], q[1..]))
  }

  /** A set leaves every location off its path alone, also one spelled differently. */
  lemma {:induction false} SetElsewhere(t: Tree, path: seq<string>, v: Tree, q: seq<string>)
    requires SetAt(t, path, v).Some? && PartWays(t, path, q)
    ensures Walk(SetAt(t, path, v).value, q) == Walk(t, q)
    decreases |path|
  {
    hide PlaceOf, At, Put;
    EditStep(t, path, (c, p) => Put(c, p, v));
    var p, r := PlaceOf(t.content, path[0]), PlaceOf(t.content, q[0]);
    if |path| == 1 {
      PutLaws(t.content, p, v, r);
      PutKeepsPlaces(t.content, p, v, q[0]);
    } else {
      var child := At(t.content, p).value;
      var child' := SetAt(child, path[1..], v).value;
      PresentPuts(t.content, p, child');
      PutLaws(t.content, p, child', r);
      PutKeepsPlaces(t.content, p, child', q[0]);
      if p == r {
        SetElsewhere(child, path[1..], v, q[1..]);
      }
    }
  }

  /** A deleted key is gone, every other key stays; a deleted element is gone and the later ones move up by one. */
  lemma DropLaws<V>(c: Content<V>, p: Place)
    requires Drop(c, p).Some?
    ensures c.Fields? ==> Drop(c, p).value.Fields? && forall q :: At(Drop(c, p).value, q) == if q == p then None else At(c, q)
    ensures c.Items? ==>
      && p.Index? && Drop(c, p).value.Items? && |Drop(c, p).value.s| == |c.s| - 1
      && forall j: nat :: At(Drop(c, p).value, Index(j)) == At(c, Index(if j < p.i then j else j + 1))
  {
  }

  /**
  After a deletion the container that held the value holds the rest: an object
  every other key, an array the other elements, the later ones moved up by one.
  */
  lemma DeletedParent(t: Tree, path: seq<string>)
    requires DeleteAt(t, path).Some?
    ensures var c := Walk(t, Front(path)).value.content;
            Walk(DeleteAt(t, path).value, Front(path)) == Some(Branch(Drop(c, PlaceOf(c, Last(path))).value))
    ensures var c, rest := Walk(t, Front(path)).value.content, Walk(DeleteAt(t, path).value, Front(path)).value.content;
            var p := PlaceOf(c, Last(path));
            && (c.Fields? ==> rest.Fields? && forall q :: At(rest, q) == if q == p then None else At(c, q))
            && (c.Items? ==>
                  && p.Index? && rest.Items? && |rest.s| == |c.s| - 1
                  && forall j: nat :: At(rest, Index(j)) == At(c, Index(if j < p.i then j else j + 1)))
  {
    hide Walk, Replaced, Drop, PlaceOf, At;
    var c := Walk(t, Front(path)).value.content;
    var p := PlaceOf(c, Last(path));
    ReplacedWalks(t, Front(path), Branch(Drop(c, p).value));
    DropLaws(c, p);
  }

  /** A deletion leaves every location alone that leaves the path above the container it changes. */
  lemma {:induction false} DeleteElsewhere(t: Tree, path: seq<string>, q: seq<string>)
    requires DeleteAt(t, path).Some? && PartWays(t, Front(path), q)
    ensures Walk(DeleteAt(t, path).value, q) == Walk(t, q)
    decreases |path|
  {
    hide PlaceOf, At, Put, Drop;
    EditStep(t, path, (c, p) => Drop(c, p));
    var p, r := PlaceOf(t.content, path[0]), PlaceOf(t.content, q[0]);
    var child := At(t.content, p).value;
    var child' := DeleteAt(child, path[1..]).value;
    assert Front(path)[0] == path[0] && Front(path)[1..] == Front(path[1..]);
    PresentPuts(t.content, p, child');
    PutLaws(t.content, p, child', r);
    PutKeepsPlaces(t.content, p, child', q[0]);
    if p == r {
      DeleteElsewhere(child, path[1..], q[1..]);
    }
  }

  /** Different pointers can name one location: an index may carry a sign or leading zeros. */
  lemma PointersCanCoincide()
    ensures Atoi("1") == Atoi("+01") == Some(1)
    ensures PlaceOf(Items([Null, Null]), "1") == PlaceOf(Items([Null, Null]), "+01")
  {
    assert Decimal("") == Some(0);
    assert "1"[..0] == "" && "01"[..1] == "0" && "0"[..0] == "" && "+01"[1..] == "01";
    assert Decimal("0") == Some(0) && Decimal("1") == Some(1) && Decimal("01") == Some(1);
  }

  /** The places a path leads through. */
  function Steps(t: Tree, path: seq<string>): seq<Place>
    requires Walk(t, path).Some?
    decreases |path|
  {
    if path == [] then [] else
    var p := PlaceOf(t.content, path[0]);
    [p] + Steps(At(t.content, p).value, path[1..])
  }

  /** Where there is something it can be replaced. */
  lemma PresentSets(t: Tree, path: seq<string>, v: Tree)
    requires path != [] && Walk(t, path).Some?
    ensures SetAt(t, path, v).Some? && SetAt(t, path, v).value.Branch?
  {
    hide Walk, Replaced, Put;
    DeleteSucceeds(t, path);
    SetSucceeds(t, path, v);
    SetFirst(t, path, v);
  }

  lemma SetFirst(t: Tree, path: seq<string>, v: Tree)
    requires SetAt(t, path, v).Some?
    ensures t.Branch? && SetAt(t, path, v).value.Branch?
  {
    EditStep(t, path, (c, p) => Put(c, p, v));
  }

  /** The first step of a set at an existing place. */
  lemma SetStep(t: Tree, path: seq<string>, v: Tree)
    requires path != [] && Walk(t, path).Some?
    ensures t.Branch? && At(t.content, PlaceOf(t.content, path[0])).Some?
    ensures |path| > 1 ==> SetAt(At(t.content, PlaceOf(t.content, path[0])).value, path[1..], v).Some?
    ensures var p := PlaceOf(t.content, path[0]);
            var w := if |path| == 1 then v else SetAt(At(t.content, p).value, path[1..], v).value;
            Put(t.content, p, w).Some? && SetAt(t, path, v) == Some(Branch(Put(t.content, p, w).value))
  {
    hide PlaceOf, At, Put, Replaced, SetAt, EditAt;
    var p := PlaceOf(t.content, path[0]);
    if |path| > 1 {
      PresentSets(At(t.content, p).value, path[1..], v);
      PresentPuts(t.content, p, SetAt(At(t.content, p).value, path[1..], v).value);
    } else {
      PresentPuts(t.content, p, v);
    }
    SetUnfolds(t, path, v);
  }

  lemma SetUnfolds(t: Tree, path: seq<string>, v: Tree)
    requires path != [] && t.Branch?
    ensures var p := PlaceOf(t.content, path[0]);
            SetAt(t, path, v) ==
              if |path| == 1 then
                (match Put(t.content, p, v)
                 case None => None
                 case Some(c) => Some(Branch(c)))
              else
                (match At(t.content, p)
                 case None => None
                 case Some(child) =>
                   match SetAt(child, path[1..], v)
                   case None => None
                   case Some(child') => Some(Branch(Put(t.content, p, child').value)))
  {
    hide PlaceOf, At, Put, Replaced, Walk, EditAt;
    EditStep(t, path, (c, p) => Put(c, p, v));
  }

  lemma {:induction false} SameStepsSetAlike(t: Tree, a: seq<string>, b: seq<string>, v: Tree)
    requires Walk(t, a).Some? && Walk(t, b).Some? && Steps(t, a) == Steps(t, b)
    ensures SetAt(t, a, v) == SetAt(t, b, v)
    decreases |a|
  {
    hide PlaceOf, At, Put, SetAt;
    StepCount(t, a);
    StepCount(t, b);
    if a == [] {
      assert b == [];
    } else {
      SetStep(t, a, v);
      SetStep(t, b, v);
      var p := PlaceOf(t.content, a[0]);
      assert Steps(t, a)[0] == p && Steps(t, b)[0] == PlaceOf(t.content, b[0]);
      var child := At(t.content, p).value;
      assert Steps(t, a)[1..] == Steps(child, a[1..]) && Steps(t, b)[1..] == Steps(child, b[1..]);
      SameStepsSetAlike(child, a[1..], b[1..], v);
    }
  }

  lemma {:induction false} StepCount(t: Tree, path: seq<string>)
    requires Walk(t, path).Some?
    ensures |Steps(t, path)| == |path|
    decreases |path|
  {
    if path != [] {
      StepCount(At(t.content, PlaceOf(t.content, path[0])).value, path[1..]);
    }
  }

  lemma OneStep(t: Tree, path: seq<string>)
    requires path != [] && Walk(t, path).Some?
    ensures |path| == 1 ==> Steps(t, path) == [PlaceOf(t.content, path[0])]
  {
  }

  /** Writing two different values at places of one container, or at one place, gives different containers. */
  lemma PutsDiffer(c: Content<Tree>, p: Place, v: Tree, q: Place, w: Tree)
    requires Put(c, p, v).Some? && Put(c, q, w).Some?
    requires if p == q then v != w else At(c, p) != Some(v)
    ensures Put(c, p, v).value != Put(c, q, w).value
  {
    hide Put, At;
    PutLaws(c, p, v, p);
    PutLaws(c, q, w, p);
  }

  /** A value the place does not hold. */
  function OtherThan(t: Option<Tree>): Tree {
    if t == Some(Null) then Bool(true) else Null
  }

  /** Paths that take different steps are told apart by setting some value. */
  lemma {:induction false} StepsTellApart(t: Tree, a: seq<string>, b: seq<string>) returns (v: Tree)
    requires Walk(t, a).Some? && Walk(t, b).Some? && Steps(t, a) != Steps(t, b)
    ensures SetAt(t, a, v) != SetAt(t, b, v)
    decreases |a|
  {
    hide PlaceOf, At, Put, SetAt;
    v := Null;
    if a == [] || b == [] {
      SetNothing(t, v);
      if a != [] {
        PresentSets(t, a, v);
      }
      if b != [] {
        PresentSets(t, b, v);
      }
      return;
    }
    var p, q := PlaceOf(t.content, a[0]), PlaceOf(t.content, b[0]);
    var child := At(t.content, p).value;
    if p != q {
      v := TellPlacesApart(t, a, b);
    } else if |a| > 1 && |b| > 1 {
      assert Steps(t, a) == [p] + Steps(child, a[1..]) && Steps(t, b) == [p] + Steps(child, b[1..]);
      v := StepsTellApart(child, a[1..], b[1..]);
      SetStep(t, a, v);
      SetStep(t, b, v);
      PutsDiffer(t.content, p, SetAt(child, a[1..], v).value, p, SetAt(child, b[1..], v).value);
    } else {
      OneStep(t, a);
      OneStep(t, b);
      SetStep(t, a, v);
      SetStep(t, b, v);
      if |a| > 1 {
        PresentSets(child, a[1..], v);
        PutsDiffer(t.content, p, SetAt(child, a[1..], v).value, p, v);
      } else {
        PresentSets(child, b[1..], v);
        PutsDiffer(t.content, p, v, p, SetAt(child, b[1..], v).value);
      }
    }
  }

  lemma SetNothing(t: Tree, v: Tree)
    ensures SetAt(t, [], v) == None
  {
  }

  lemma TellPlacesApart(t: Tree, a: seq<string>, b: seq<string>) returns (v: Tree)
    requires a != [] && b != [] && Walk(t, a).Some? && Walk(t, b).Some?
    requires PlaceOf(t.content, a[0]) != PlaceOf(t.content, b[0])
    ensures SetAt(t, a, v) != SetAt(t, b, v)
  {
    hide PlaceOf, At, Put, SetAt;
    var p, q := PlaceOf(t.content, a[0]), PlaceOf(t.content, b[0]);
    v := OtherThan(Walk(t, a));
    PresentSets(t, a, v);
    PresentSets(t, b, v);
    SetReads(t, a, v);
    assert PartWays(t, b, a);
    SetElsewhere(t, b, v, a);
  }

  /**
  Two pointers name one location, so that setting either is setting the other,
  exactly when they take the same steps: in an array different spellings of one
  index are the same step.
  */
  lemma PointersCoincideIff(t: Tree, a: seq<string>, b: seq<string>)
    requires Walk(t, a).Some? && Walk(t, b).Some?
    ensures Steps(t, a) == Steps(t, b) <==> forall v :: SetAt(t, a, v) == SetAt(t, b, v)
  {
    hide Steps, Walk, SetAt;
    if Steps(t, a) == Steps(t, b) {
      forall v ensures SetAt(t, a, v) == SetAt(t, b, v) {
        SameStepsSetAlike(t, a, b, v);
      }
    } else {
      var v := StepsTellApart(t, a, b);
    }
  }

  // -------------------------------------------------------------- in memory

  /** A value in memory: a scalar, or a reference to an object or array that others may share. */
  datatype Value = Scalar(t: Tree) | Ref(node: Node)

  class Node {
    var content: Content<Value>

    constructor (c: Content<Value>)
      ensures content == c
    {
      content := c;
    }
  }

  /** In memory that stays within `nodes`, `v` is the value `t`; sharing is allowed. */
  ghost predicate Represents(v: Value, t: Tree, nodes: set<Node>)
    reads nodes
    decreases t
  {
    match t
    case Branch(c) => v.Ref? && v.node in nodes && Holds(v.node.content, c, nodes)
    case _ => v == Scalar(t)
  }

  ghost predicate Holds(c: Content<Value>, d: Content<Tree>, nodes: set<Node>)
    reads nodes
    decreases d
  {
    match d
    case Fields(m) => c.Fields? && c.m.Keys == m.Keys && forall k :: k in m ==> Represents(c.m[k], m[k], nodes)
    case Items(s) => c.Items? && |c.s| == |s| && forall i :: 0 <= i < |s| ==> Represents(c.s[i], s[i], nodes)
  }

  lemma {:induction false} RepresentsMore(v: Value, t: Tree, nodes: set<Node>, more: set<Node>)
    requires Represents(v, t, nodes) && nodes <= more
    ensures Represents(v, t, more)
    decreases t, 0
  {
    if t.Branch? {
      HoldsMore(v.node.content, t.content, nodes, more);
    }
  }

  lemma {:induction false} HoldsMore(c: Content<Value>, d: Content<Tree>, nodes: set<Node>, more: set<Node>)
    requires Holds(c, d, nodes) && nodes <= more
    ensures Holds(c, d, more)
    decreases d, 1
  {
    match d
    case Fields(m) =>
      forall k | k in m ensures Represents(c.m[k], m[k], more) {
        RepresentsMore(c.m[k], m[k], nodes, more);
      }
    case Items(s) =>
      forall i | 0 <= i < |s| ensures Represents(c.s[i], s[i], more) {
        RepresentsMore(c.s[i], s[i], nodes, more);
      }
  }

  /** The places of a container in memory are those of the value it holds, and so are its members. */
  lemma HoldsPlaces(c: Content<Value>, d: Content<Tree>, nodes: set<Node>, p: Place)
    requires Holds(c, d, nodes)
    ensures forall segment :: PlaceOf(c, segment) == PlaceOf(d, segment)
    ensures At(c, p).Some? <==> At(d, p).Some?
    ensures At(c, p).Some? ==> Represents(At(c, p).value, At(d, p).value, nodes)
  {
  }

  lemma HoldsPut(c: Content<Value>, d: Content<Tree>, nodes: set<Node>, p: Place, v: Value, t: Tree)
    requires Holds(c, d, nodes) && Represents(v, t, nodes)
    ensures Put(c, p, v).Some? <==> Put(d, p, t).Some?
    ensures Put(c, p, v).Some? ==> Holds(Put(c, p, v).value, Put(d, p, t).value, nodes)
  {
  }

  lemma HoldsDrop(c: Content<Value>, d: Content<Tree>, nodes: set<Node>, p: Place)
    requires Holds(c, d, nodes)
    ensures Drop(c, p).Some? <==> Drop(d, p).Some?
    ensures Drop(c, p).Some? ==> Holds(Drop(c, p).value, Drop(d, p).value, nodes)
  {
  }

  method GetValueAtPointer(root: Node, path: seq<string>, ghost t: Tree, ghost nodes: set<Node>) returns (v: Value)
    requires Represents(Ref(root), t, nodes)
    ensures Represents(v, GetAt(t, path), nodes)
  {
    v := Ref(root);
    ghost var at := t;
    assert path[..0] == [];
    for i := 0 to |path|
      invariant Represents(v, at, nodes) && Walk(t, path[..i]) == Some(at)
    {
      assert path[..i + 1] == path[..i] + [path[i]];
      WalkStep(t, path[..i], path[i]);
      if v.Scalar? {
        WalkStops(t, path, i + 1);
        return Scalar(Null);
      }
      var c := v.node.content;
      var p := PlaceOf(c, path[i]);
      HoldsPlaces(c, at.content, nodes, p);
      match At(c, p) {
        case None =>
          WalkStops(t, path, i + 1);
          return Scalar(Null);
        case Some(child) =>
          v := child;
          at := At(at.content, p).value;
      }
    }
    assert path[..|path|] == path;
  }

  /** Nothing lies behind a step that leads nowhere. */
  lemma {:induction false} WalkStops(t: Tree, path: seq<string>, n: nat)
    requires n <= |path| && Walk(t, path[..n]).None?
    ensures Walk(t, path).None?
    decreases |path| - n
  {
    if n == |path| {
      assert path[..n] == path;
    } else {
      assert path[..n + 1] == path[..n] + [path[n]];
      WalkStep(t, path[..n], path[n]);
      WalkStops(t, path, n + 1);
    }
  }
}
