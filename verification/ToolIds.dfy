/** Rewriting of tool call ids into the alphabet that Anthropic-style providers accept. */
module ToolIds {
  import opened Common
  import opened Transcript

  // ------------------------------------------------------------------- one id

  predicate IsSafe(c: char) {
    'a' <= c <= 'z' || 'A' <= c <= 'Z' || '0' <= c <= '9' || c == '_' || c == '-'
  }

  function SafeChar(c: char): char {
    if IsSafe(c) then c else '_'
  }

  function SafeId(id: Id): Id {
    Id(seq(|id.text|, i requires 0 <= i < |id.text| => SafeChar(id.text[i])))
  }

  method SanitizeToolCallId(id: string) returns (r: string)
    ensures Id(r) == SafeId(Id(id))
  {
    if id == "" {
      return id;
    }
    r := "";
    for i := 0 to |id|
      invariant |r| == i && forall k :: 0 <= k < i ==> r[k] == SafeChar(id[k])
    {
      if IsSafe(id[i]) {
        r := r + [id[i]];
        continue;
      }
      r := r + ['_'];
    }
  }

  /** Only safe characters remain, and exactly the safe ids are left alone. */
  lemma SafeIdIsSafe(id: Id)
    ensures forall c :: c in SafeId(id).text ==> IsSafe(c)
    ensures SafeId(id) == id <==> forall c :: c in id.text ==> IsSafe(c)
    ensures SafeId(SafeId(id)) == SafeId(id)
  {
    var r := SafeId(id).text;
    assert forall i :: 0 <= i < |r| ==> IsSafe(r[i]);
    if forall c :: c in id.text ==> IsSafe(c) {
      assert forall i :: 0 <= i < |r| ==> r[i] == id.text[i];
    } else {
      var i :| 0 <= i < |r| && !IsSafe(id.text[i]);
      assert r[i] != id.text[i];
    }
  }

  /** A character that ends up as an underscore. */
  predicate IsMasked(c: char) {
    !IsSafe(c) || c == '_'
  }

  /** Two ids become one exactly when they are as long and differ only where both have such a character. */
  lemma SafeIdsCollideIff(a: Id, b: Id)
    ensures SafeId(a) == SafeId(b) <==>
      |a.text| == |b.text|
      && forall i :: 0 <= i < |a.text| ==> a.text[i] == b.text[i] || (IsMasked(a.text[i]) && IsMasked(b.text[i]))
  {
    var x, y := SafeId(a).text, SafeId(b).text;
    if SafeId(a) == SafeId(b) {
      forall i | 0 <= i < |a.text| ensures a.text[i] == b.text[i] || (IsMasked(a.text[i]) && IsMasked(b.text[i])) {
        assert x[i] == y[i];
      }
    } else if |a.text| == |b.text| {
      assert x != y;
      var i :| 0 <= i < |x| && x[i] != y[i];
      assert a.text[i] != b.text[i];
    }
  }

  /** Different ids can become one. */
  lemma SafeIdsCanCollide()
    ensures SafeId(Id("call.1")) == SafeId(Id("call:1")) && Id("call.1") != Id("call:1")
  {
    assert "call.1"[4] != "call:1"[4];
    SafeIdsCollideIff(Id("call.1"), Id("call:1"));
  }

  // ----------------------------------------------------------- whole messages

  function SafePart(p: Part): Part {
    match p
    case Call(id, name, input, provided) => Call(SafeId(id), name, input, provided)
    case Result(id, output, provided) => Result(SafeId(id), output, provided)
    case _ => p
  }

  function SafeParts(parts: seq<Part>): seq<Part> {
    seq(|parts|, i requires 0 <= i < |parts| => SafePart(parts[i]))
  }

  function SafeMessages(msgs: seq<Message>): seq<Message> {
    seq(|msgs|, i requires 0 <= i < |msgs| => msgs[i].(parts := SafeParts(msgs[i].parts)))
  }

  /** How many parts carry an id that has to change. */
  function UnsafeParts(parts: seq<Part>): nat {
    if parts == [] then 0 else
    UnsafeParts(parts[..|parts| - 1]) + (if SafePart(parts[|parts| - 1]) == parts[|parts| - 1] then 0 else 1)
  }

  function UnsafeIds(msgs: seq<Message>): nat {
    if msgs == [] then 0 else UnsafeIds(msgs[..|msgs| - 1]) + UnsafeParts(msgs[|msgs| - 1].parts)
  }

  lemma SafePartsStep(parts: seq<Part>, j: nat)
    requires j < |parts|
    ensures SafeParts(parts[..j + 1]) == SafeParts(parts[..j]) + [SafePart(parts[j])]
    ensures UnsafeParts(parts[..j + 1]) == UnsafeParts(parts[..j]) + (if SafePart(parts[j]) == parts[j] then 0 else 1)
    ensures SafeParts(parts[..j]) + parts[j..] == SafeParts(parts[..j]) + [parts[j]] + parts[j + 1..]
    ensures |SafeParts(parts[..j])| == j
  {
    assert parts[..j + 1][..j] == parts[..j];
  }

  lemma SafeMessagesStep(msgs: seq<Message>, i: nat)
    requires i < |msgs|
    ensures SafeMessages(msgs[..i + 1]) == SafeMessages(msgs[..i]) + [msgs[i].(parts := SafeParts(msgs[i].parts))]
    ensures UnsafeIds(msgs[..i + 1]) == UnsafeIds(msgs[..i]) + UnsafeParts(msgs[i].parts)
    ensures SafeMessages(msgs[..i]) + msgs[i..] == SafeMessages(msgs[..i]) + [msgs[i]] + msgs[i + 1..]
    ensures |SafeMessages(msgs[..i])| == i
  {
    assert msgs[..i + 1][..i] == msgs[..i];
  }

  lemma Replace<A>(done: seq<A>, x: A, rest: seq<A>, y: A)
    ensures |done + [x] + rest| > |done|
    ensures (done + [x] + rest)[|done| := y] == done + [y] + rest
    ensures (done + [x] + rest)[|done|] == x
  {
  }

  /** Sanitises the parts of one message; they are copied at the first change. */
  method SanitizeParts(parts: seq<Part>) returns (cloned: Option<seq<Part>>, n: nat)
    ensures n == UnsafeParts(parts)
    ensures cloned.None? <==> n == 0
    ensures (if cloned.Some? then cloned.value else parts) == SafeParts(parts)
  {
    assert parts[..0] == [] && SafeParts([]) == [];
    hide SafeParts, UnsafeParts;
    cloned, n := None, 0;
    for j := 0 to |parts|
      invariant n == UnsafeParts(parts[..j])
      invariant cloned.None? <==> n == 0
      invariant (if cloned.Some? then cloned.value else parts) == SafeParts(parts[..j]) + parts[j..]
    {
      SafePartsStep(parts, j);
      Replace(SafeParts(parts[..j]), parts[j], parts[j + 1..], SafePart(parts[j]));
      if parts[j].Call? || parts[j].Result? {
        var sanitized := SanitizeToolCallId(parts[j].id.text);
        if sanitized == parts[j].id.text {
          continue;
        }
        if cloned.None? {
          cloned := Some(parts);
        }
        cloned := Some(cloned.value[j := parts[j].(id := Id(sanitized))]);
        n := n + 1;
      }
    }
    assert parts[..|parts|] == parts;
  }

  method SanitizeToolCallIdsInMessages(messages: seq<Message>)
    returns (result: seq<Message>, changed: bool, count: nat)
    ensures result == SafeMessages(messages)
    ensures count == UnsafeIds(messages) && (changed <==> count > 0)
  {
    changed, count, result := false, 0, messages;
    for i := 0 to |messages|
      invariant count == UnsafeIds(messages[..i]) && (changed <==> count > 0)
      invariant result == SafeMessages(messages[..i]) + messages[i..]
      invariant !changed ==> result == messages
    {
      hide SafeMessages, UnsafeIds;
      SafeMessagesStep(messages, i);
      var m := messages[i];
      Replace(SafeMessages(messages[..i]), m, messages[i + 1..], m.(parts := SafeParts(m.parts)));
      if |result[i].parts| == 0 {
        assert SafeParts(m.parts) == m.parts;
        continue;
      }
      var clonedParts, n := SanitizeParts(result[i].parts);
      count := count + n;
      if clonedParts.Some? {
        changed := true;
        result := result[i := result[i].(parts := clonedParts.value)];
      }
    }
    assert messages[..|messages|] == messages;
    if !changed {
      return messages, false, 0;
    }
  }

  // ------------------------------------------------------------ what it keeps

  function SafeIds(ids: seq<Id>): seq<Id> {
    Map(SafeId, ids)
  }

  lemma {:induction false} SafeCallIds(scope: Scope, parts: seq<Part>)
    ensures CallIds(scope, SafeParts(parts)) == SafeIds(CallIds(scope, parts))
  {
    if parts != [] {
      var front, p := parts[..|parts| - 1], parts[|parts| - 1];
      SafeCallIds(scope, front);
      assert SafeParts(parts) == SafeParts(front) + [SafePart(p)];
      CallIdsAppend(scope, SafeParts(front), SafePart(p));
      if Covers(scope, p) {
        MapAppend(SafeId, CallIds(scope, front), p.id);
      }
    }
  }

  lemma {:induction false} SafeResultIds(parts: seq<Part>)
    ensures ResultIds(SafeParts(parts)) == SafeIds(ResultIds(parts))
  {
    if parts != [] {
      var front, p := parts[..|parts| - 1], parts[|parts| - 1];
      SafeResultIds(front);
      assert SafeParts(parts) == SafeParts(front) + [SafePart(p)];
      ResultIdsAppend(SafeParts(front), SafePart(p));
      if p.Result? {
        MapAppend(SafeId, ResultIds(front), p.id);
      }
    }
  }

  /** Two parts that differ at most in their id, character by character where it is unsafe. */
  predicate SameButId(p: Part, q: Part) {
    match p
    case Call(id, name, input, provided) =>
      q.Call? && q.name == name && q.input == input && q.providerExecuted == provided && SafeForm(id, q.id)
    case Result(id, output, provided) =>
      q.Result? && q.output == output && q.providerExecuted == provided && SafeForm(id, q.id)
    case _ => q == p
  }

  predicate SafeForm(id: Id, safe: Id) {
    && |safe.text| == |id.text|
    && forall i :: 0 <= i < |id.text| ==>
         safe.text[i] == if id.text[i] in "_-" || 'a' <= id.text[i] <= 'z' || 'A' <= id.text[i] <= 'Z' || '0' <= id.text[i] <= '9'
                         then id.text[i] else '_'
  }

  /** Nothing but ids is touched: messages, their order, roles and options, and every part otherwise. */
  lemma OnlyIdsChange(msgs: seq<Message>)
    ensures |SafeMessages(msgs)| == |msgs|
    ensures forall i :: 0 <= i < |msgs| ==>
              var m, n := msgs[i], SafeMessages(msgs)[i];
              n.role == m.role && n.options == m.options && |n.parts| == |m.parts|
              && forall k :: 0 <= k < |m.parts| ==> SameButId(m.parts[k], n.parts[k])
  {
    hide SafeId;
    forall i, k | 0 <= i < |msgs| && 0 <= k < |msgs[i].parts|
      ensures SameButId(msgs[i].parts[k], SafeMessages(msgs)[i].parts[k])
    {
      var p := msgs[i].parts[k];
      if p.Call? || p.Result? {
        SafeIdForm(p.id);
      }
    }
  }

  lemma SafeIdForm(id: Id)
    ensures SafeForm(id, SafeId(id))
  {
  }

  /** Sanitising keeps the pairing contract. */
  lemma SafeMessagesKeepPairing(scope: Scope, msgs: seq<Message>)
    requires WellPaired(scope, msgs)
    ensures WellPaired(scope, SafeMessages(msgs))
  {
    var safe := SafeMessages(msgs);
    forall i | 0 <= i <= |msgs| ensures OpenAt(scope, safe, i) == SafeIds(OpenAt(scope, msgs, i)) {
      if i > 0 {
        SafeCallIds(scope, msgs[i - 1].parts);
      }
    }
    forall i | 0 <= i < |msgs| ensures Follows(OpenAt(scope, safe, i), safe[i]) {
      assert Follows(OpenAt(scope, msgs, i), msgs[i]);
      if msgs[i].role.Tool? {
        SafeResultIds(msgs[i].parts);
        MapPermute(SafeId, ResultIds(msgs[i].parts), OpenAt(scope, msgs, i));
      }
    }
  }

  lemma SafePartsTwice(parts: seq<Part>)
    ensures SafeParts(SafeParts(parts)) == SafeParts(parts)
  {
    forall i | 0 <= i < |parts| ensures SafePart(SafePart(parts[i])) == SafePart(parts[i]) {
      if parts[i].Call? || parts[i].Result? {
        SafeIdIsSafe(parts[i].id);
      }
    }
  }

  lemma {:induction false} UnsafePartsZero(parts: seq<Part>)
    ensures UnsafeParts(parts) == 0 <==> SafeParts(parts) == parts
  {
    if parts != [] {
      var front, p := parts[..|parts| - 1], parts[|parts| - 1];
      UnsafePartsZero(front);
      assert SafeParts(parts) == SafeParts(front) + [SafePart(p)];
      assert parts == front + [p];
    }
  }

  /** A second pass finds nothing to change. */
  lemma {:induction false} SafeMessagesSettled(msgs: seq<Message>)
    ensures SafeMessages(SafeMessages(msgs)) == SafeMessages(msgs)
    ensures UnsafeIds(SafeMessages(msgs)) == 0
  {
    if msgs != [] {
      var front, m := msgs[..|msgs| - 1], msgs[|msgs| - 1];
      SafeMessagesSettled(front);
      SafePartsTwice(m.parts);
      UnsafePartsZero(SafeParts(m.parts));
      assert SafeMessages(msgs)[..|front|] == SafeMessages(front);
      assert SafeMessages(SafeMessages(msgs))[..|front|] == SafeMessages(SafeMessages(front));
    }
  }
}
