/** The insertion-ordered object of the repairer: members in a list, and an index from key to place. */
module OrderedObject {
  import opened Common
  import opened JsonText

  // ------------------------------------------------------------ specification

  predicate HasKey(members: seq<Member>, key: string) {
    exists i :: 0 <= i < |members| && members[i].key == key
  }

  ghost predicate DistinctKeys(members: seq<Member>) {
    forall i, j :: 0 <= i < j < |members| ==> members[i].key != members[j].key
  }

  /** The value of the first member with the key. */
  function Lookup(members: seq<Member>, key: string): Option<Json> {
    if members == [] then None
    else if members[0].key == key then Some(members[0].value)
    else Lookup(members[1..], key)
  }

  /** A present key keeps its place and takes the value; a new one goes to the end. */
  function WithMember(members: seq<Member>, key: string, value: Json): seq<Member> {
    if members == [] then [Member(key, value)]
    else if members[0].key == key then [Member(key, value)] + members[1..]
    else [members[0]] + WithMember(members[1..], key, value)
  }

  function WithMembers(members: seq<Member>, others: seq<Member>): seq<Member> {
    if others == [] then members
    else
      var o := others[|others| - 1];
      WithMember(WithMembers(members, others[..|others| - 1]), o.key, o.value)
  }

  // -------------------------------------------------------------------- class

  class Ordered {
    var entries: seq<Member>
    var index: map<string, nat>

    /** The index knows exactly the keys of the list and the place of each. */
    ghost predicate Valid()
      reads this
    {
      && (forall key :: key in index ==> index[key] < |entries| && entries[index[key]].key == key)
      && (forall i :: 0 <= i < |entries| ==> entries[i].key in index && index[entries[i].key] == i)
    }

    constructor ()
      ensures Valid() && entries == []
    {
      entries, index := [], map[];
    }

    method Set(key: string, value: Json)
      requires Valid()
      modifies this
      ensures Valid() && entries == WithMember(old(entries), key, value)
    {
      if key in index {
        var idx := index[key];
        WithMemberAt(entries, key, value, idx);
        entries := entries[idx := Member(key, value)];
        return;
      }
      WithMemberNew(entries, key, value);
      index := index[key := |entries|];
      entries := entries + [Member(key, value)];
    }

    method Get(key: string) returns (r: Option<Json>)
      requires Valid()
      ensures r == Lookup(entries, key)
    {
      if key !in index {
        LookupNone(entries, key);
        return None;
      }
      LookupAt(entries, index[key]);
      return Some(entries[index[key]].value);
    }

    /** The key that was new last: it is present, and every other key stands before it. */
    method LastKey() returns (r: Option<string>)
      requires Valid()
      ensures r.Some? <==> exists key :: HasKey(entries, key)
      ensures r.Some? ==> HasKey(entries, r.value)
      ensures r.Some? ==> forall j :: 0 <= j < |entries| && entries[j].key == r.value ==> j == |entries| - 1
    {
      assert |entries| > 0 ==> HasKey(entries, entries[|entries| - 1].key);
      if |entries| == 0 {
        return None;
      }
      return Some(entries[|entries| - 1].key);
    }

    method Contains(key: string) returns (b: bool)
      requires Valid()
      ensures b == HasKey(entries, key)
    {
      if key in index {
        assert entries[index[key]].key == key;
      }
      b := key in index;
    }

    /** Takes over the members of another object, which may be this one. */
    method Merge(other: Ordered)
      requires Valid() && other.Valid()
      modifies this
      ensures Valid() && entries == WithMembers(old(entries), old(other.entries))
    {
      var others := other.entries;
      for i := 0 to |others|
        invariant Valid() && entries == WithMembers(old(entries), others[..i])
      {
        assert others[..i + 1][..i] == others[..i];
        Set(others[i].key, others[i].value);
      }
      assert others[..|others|] == others;
    }
  }

  lemma {:induction false} WithMemberAt(members: seq<Member>, key: string, value: Json, i: nat)
    requires i < |members| && members[i].key == key
    requires forall j :: 0 <= j < i ==> members[j].key != key
    ensures WithMember(members, key, value) == members[i := Member(key, value)]
  {
    if i > 0 {
      WithMemberAt(members[1..], key, value, i - 1);
    }
  }

  lemma {:induction false} WithMemberNew(members: seq<Member>, key: string, value: Json)
    requires forall j :: 0 <= j < |members| ==> members[j].key != key
    ensures WithMember(members, key, value) == members + [Member(key, value)]
  {
    if members != [] {
      WithMemberNew(members[1..], key, value);
    }
  }

  lemma {:induction false} LookupNone(members: seq<Member>, key: string)
    requires forall j :: 0 <= j < |members| ==> members[j].key != key
    ensures Lookup(members, key) == None
  {
    if members != [] {
      LookupNone(members[1..], key);
    }
  }

  lemma {:induction false} LookupAt(members: seq<Member>, i: nat)
    requires i < |members|
    requires forall j :: 0 <= j < i ==> members[j].key != members[i].key
    ensures Lookup(members, members[i].key) == Some(members[i].value)
  {
    if i > 0 {
      LookupAt(members[1..], i - 1);
    }
  }

  // ------------------------------------------------------- what updates mean

  /** A set member reads back, every other key reads as before, and the old keys keep their order. */
  lemma {:induction false} WithMemberReads(members: seq<Member>, key: string, value: Json, other: string)
    ensures Lookup(WithMember(members, key, value), other) == if other == key then Some(value) else Lookup(members, other)
    ensures |WithMember(members, key, value)| == |members| + (if Lookup(members, key).Some? then 0 else 1)
    ensures forall i :: 0 <= i < |members| ==> WithMember(members, key, value)[i].key == members[i].key
  {
    if members != [] && members[0].key != key {
      WithMemberReads(members[1..], key, value, other);
      var rest := WithMember(members[1..], key, value);
      assert ([members[0]] + rest)[1..] == rest;
    }
  }

  lemma {:induction false} WithMemberKeys(members: seq<Member>, key: string, value: Json)
    ensures forall m :: m in WithMember(members, key, value) ==> m in members || m == Member(key, value)
  {
    if members != [] && members[0].key != key {
      WithMemberKeys(members[1..], key, value);
    }
  }

  lemma {:induction false} WithMemberDistinct(members: seq<Member>, key: string, value: Json)
    requires DistinctKeys(members)
    ensures DistinctKeys(WithMember(members, key, value))
  {
    if members != [] && members[0].key != key {
      WithMemberDistinct(members[1..], key, value);
      WithMemberKeys(members[1..], key, value);
      var rest := WithMember(members[1..], key, value);
      forall j | 0 <= j < |rest| ensures rest[j].key != members[0].key {
        assert rest[j] in rest;
      }
    }
  }

  /** Merging keeps keys distinct; on a common key the other object's member wins. */
  lemma {:induction false} MergeReads(members: seq<Member>, others: seq<Member>, key: string)
    requires DistinctKeys(members) && DistinctKeys(others)
    ensures DistinctKeys(WithMembers(members, others))
    ensures Lookup(WithMembers(members, others), key)
         == if Lookup(others, key).Some? then Lookup(others, key) else Lookup(members, key)
  {
    if others != [] {
      var front, o := others[..|others| - 1], others[|others| - 1];
      MergeReads(members, front, key);
      WithMemberDistinct(WithMembers(members, front), o.key, o.value);
      WithMemberReads(WithMembers(members, front), o.key, o.value, key);
      LookupLast(front, o, key);
      assert others == front + [o];
    }
  }

  lemma {:induction false} LookupLast(members: seq<Member>, m: Member, key: string)
    requires forall i :: 0 <= i < |members| ==> members[i].key != m.key
    ensures Lookup(members + [m], key) == if key == m.key then Some(m.value) else Lookup(members, key)
  {
    if members == [] {
      assert ([] + [m])[1..] == [];
    } else {
      assert (members + [m])[1..] == members[1..] + [m];
      LookupLast(members[1..], m, key);
    }
  }

  /** The first of a run of sets that sets `key`; their number when none does. */
  function FirstSet(sets: seq<Member>, key: string): (n: nat)
    ensures n <= |sets|
  {
    if sets == [] || sets[0].key == key then 0 else 1 + FirstSet(sets[1..], key)
  }

  lemma {:induction false} FirstSetAppend(sets: seq<Member>, m: Member, key: string)
    ensures FirstSet(sets + [m], key) ==
      if FirstSet(sets, key) < |sets| then FirstSet(sets, key) else if m.key == key then |sets| else |sets| + 1
  {
    if sets == [] {
      assert ([] + [m])[1..] == [];
    } else {
      assert (sets + [m])[1..] == sets[1..] + [m];
      FirstSetAppend(sets[1..], m, key);
    }
  }

  /** Setting a present key leaves the keys as they are, setting a new one adds it at the end. */
  lemma {:induction false} KeysAfterSet(members: seq<Member>, key: string, value: Json)
    ensures var r := WithMember(members, key, value);
            && (forall i :: 0 <= i < |members| ==> i < |r| && r[i].key == members[i].key)
            && (if HasKey(members, key) then |r| == |members| else |r| == |members| + 1 && r[|members|].key == key)
  {
    if members != [] && members[0].key != key {
      KeysAfterSet(members[1..], key, value);
      var rest := WithMember(members[1..], key, value);
      if HasKey(members, key) {
        var i :| 0 <= i < |members| && members[i].key == key;
        assert members[1..][i - 1].key == key;
      } else {
        assert forall i :: 0 <= i < |members[1..]| ==> members[1..][i] == members[i + 1];
      }
    }
  }

  /** The order of the keys, and which keys there are, told from the sets. */
  ghost predicate InSetOrder(sets: seq<Member>, r: seq<Member>) {
    && (forall a, b :: 0 <= a < b < |r| ==> FirstSet(sets, r[a].key) < FirstSet(sets, r[b].key) < |sets|)
    && (forall key :: HasKey(r, key) <==> FirstSet(sets, key) < |sets|)
  }

  lemma OneSetMore(front: seq<Member>, o: Member, before: seq<Member>, r: seq<Member>)
    requires InSetOrder(front, before)
    requires forall i :: 0 <= i < |before| ==> i < |r| && r[i].key == before[i].key
    requires if HasKey(before, o.key) then |r| == |before| else |r| == |before| + 1 && r[|before|].key == o.key
    ensures InSetOrder(front + [o], r)
  {
    hide FirstSet;
    var sets := front + [o];
    forall key ensures FirstSet(sets, key) ==
      if FirstSet(front, key) < |front| then FirstSet(front, key) else if o.key == key then |front| else |front| + 1
    {
      FirstSetAppend(front, o, key);
    }
    forall i | 0 <= i < |before| ensures FirstSet(front, before[i].key) < |front| {
      assert HasKey(before, before[i].key);
    }
    forall key ensures HasKey(r, key) <==> FirstSet(sets, key) < |sets| {
      KeysKept(before, r, o.key, key);
    }
    assert FirstSet(front, o.key) < |front| <==> HasKey(before, o.key);
  }

  lemma {:induction false} SetsInOrder(sets: seq<Member>)
    ensures InSetOrder(sets, WithMembers([], sets))
  {
    hide WithMember, HasKey, InSetOrder;
    if sets == [] {
      NothingSet();
    } else {
      var front, o := sets[..|sets| - 1], sets[|sets| - 1];
      SetsInOrder(front);
      assert sets == front + [o];
      var before := WithMembers([], front);
      KeysAfterSet(before, o.key, o.value);
      OneSetMore(front, o, before, WithMembers([], sets));
    }
  }

  lemma NothingSet()
    ensures InSetOrder([], WithMembers([], []))
  {
  }

  /**
  The keys stand in the order of their first sets, whatever was set again later;
  so the last key is the one that was new last.
  */
  lemma InsertionOrder(sets: seq<Member>)
    ensures var r := WithMembers([], sets);
            && (forall a, b :: 0 <= a < b < |r| ==> FirstSet(sets, r[a].key) < FirstSet(sets, r[b].key) < |sets|)
            && (forall key :: HasKey(r, key) <==> FirstSet(sets, key) < |sets|)
  {
    hide WithMember, HasKey, FirstSet;
    SetsInOrder(sets);
  }

  lemma KeysKept(before: seq<Member>, r: seq<Member>, added: string, key: string)
    requires forall i :: 0 <= i < |before| ==> i < |r| && r[i].key == before[i].key
    requires if HasKey(before, added) then |r| == |before| else |r| == |before| + 1 && r[|before|].key == added
    ensures HasKey(r, key) <==> HasKey(before, key) || key == added
  {
    if HasKey(before, key) {
      var i :| 0 <= i < |before| && before[i].key == key;
      assert r[i].key == key;
    }
    if HasKey(before, added) {
      var i :| 0 <= i < |before| && before[i].key == added;
      assert r[i].key == added;
    }
    if HasKey(r, key) {
      var i :| 0 <= i < |r| && r[i].key == key;
      assert i < |before| ==> before[i].key == key;
    }
  }
}
