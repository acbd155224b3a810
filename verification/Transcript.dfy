/**
Messages sent to a model, and the contract every provider demands of them: each
tool call is answered exactly once, in the one tool turn directly after it.
*/
module Transcript {
  import opened Common

  datatype Role = System | User | Assistant | Tool

  /** The identifier that ties a result to its call. */
  datatype Id = Id(text: string)

  datatype Output =
    | NoOutput
    | TextOutput(text: string)
    | ErrorOutput(message: string)
    | MediaOutput(data: string, mime: string)

  datatype Part =
    | Text(text: string)
    | Reasoning(text: string, redacted: bool)
    | File(name: string, mime: string, data: string)
    | Call(id: Id, name: string, input: string, providerExecuted: bool)
    | Result(id: Id, output: Output, providerExecuted: bool)

  datatype Message = Message(role: Role, parts: seq<Part>, options: Option<string>)

  /** Which calls the contract covers: all of them, or those the provider did not execute itself. */
  datatype Scope = EveryCall | ClientCalls

  predicate Covers(scope: Scope, p: Part) {
    p.Call? && (scope.EveryCall? || !p.providerExecuted)
  }

  function CallIds(scope: Scope, parts: seq<Part>): seq<Id> {
    if parts == [] then [] else
    var p := parts[|parts| - 1];
    CallIds(scope, parts[..|parts| - 1]) + (if Covers(scope, p) then [p.id] else [])
  }

  function ResultIds(parts: seq<Part>): seq<Id> {
    if parts == [] then [] else
    var p := parts[|parts| - 1];
    ResultIds(parts[..|parts| - 1]) + (if p.Result? then [p.id] else [])
  }

  lemma CallIdsAppend(scope: Scope, parts: seq<Part>, p: Part)
    ensures CallIds(scope, parts + [p]) == CallIds(scope, parts) + (if Covers(scope, p) then [p.id] else [])
  {
    assert (parts + [p])[..|parts|] == parts;
  }

  lemma ResultIdsAppend(parts: seq<Part>, p: Part)
    ensures ResultIds(parts + [p]) == ResultIds(parts) + (if p.Result? then [p.id] else [])
  {
    assert (parts + [p])[..|parts|] == parts;
  }

  lemma {:induction false} CallIdsConcat(scope: Scope, a: seq<Part>, b: seq<Part>)
    ensures CallIds(scope, a + b) == CallIds(scope, a) + CallIds(scope, b)
    decreases |b|
  {
    if b == [] {
      assert a + b == a;
    } else {
      var front, p := b[..|b| - 1], b[|b| - 1];
      assert a + b == a + front + [p];
      CallIdsAppend(scope, a + front, p);
      CallIdsConcat(scope, a, front);
    }
  }

  lemma {:induction false} ResultIdsConcat(a: seq<Part>, b: seq<Part>)
    ensures ResultIds(a + b) == ResultIds(a) + ResultIds(b)
    decreases |b|
  {
    if b == [] {
      assert a + b == a;
    } else {
      var front, p := b[..|b| - 1], b[|b| - 1];
      assert a + b == a + front + [p];
      ResultIdsAppend(a + front, p);
      ResultIdsConcat(a, front);
    }
  }

  /** The calls message `i` finds open: those of an assistant turn directly before it. */
  function OpenAt(scope: Scope, msgs: seq<Message>, i: nat): seq<Id>
    requires i <= |msgs|
  {
    if i > 0 && msgs[i - 1].role.Assistant? then CallIds(scope, msgs[i - 1].parts) else []
  }

  /** The calls of the last message, if it is an assistant turn. */
  function Pending(scope: Scope, msgs: seq<Message>): seq<Id> {
    OpenAt(scope, msgs, |msgs|)
  }

  /** Whether `m` may follow a transcript whose last turn left `pending` calls open. */
  predicate Follows(pending: seq<Id>, m: Message) {
    if m.role.Tool? then pending != [] && multiset(ResultIds(m.parts)) == multiset(pending)
    else pending == []
  }

  /** The contract, except that the last turn may still wait for its answers. */
  predicate OpenPaired(scope: Scope, msgs: seq<Message>) {
    forall i :: 0 <= i < |msgs| ==> Follows(OpenAt(scope, msgs, i), msgs[i])
  }

  predicate WellPaired(scope: Scope, msgs: seq<Message>) {
    OpenPaired(scope, msgs) && Pending(scope, msgs) == []
  }

  lemma PairedAppend(scope: Scope, msgs: seq<Message>, m: Message)
    ensures OpenPaired(scope, msgs + [m]) <==> OpenPaired(scope, msgs) && Follows(Pending(scope, msgs), m)
    ensures Pending(scope, msgs + [m]) == if m.role.Assistant? then CallIds(scope, m.parts) else []
  {
    assert forall i :: 0 <= i <= |msgs| ==> OpenAt(scope, msgs + [m], i) == OpenAt(scope, msgs, i);
    if OpenPaired(scope, msgs + [m]) {
      assert Follows(OpenAt(scope, msgs + [m], |msgs|), (msgs + [m])[|msgs|]);
      forall i | 0 <= i < |msgs| ensures Follows(OpenAt(scope, msgs, i), msgs[i]) {
        assert Follows(OpenAt(scope, msgs + [m], i), (msgs + [m])[i]);
      }
    }
  }

  /** An assistant turn with calls is answered by the very next message. */
  ghost predicate AnsweredNext(scope: Scope, msgs: seq<Message>, i: nat)
    requires i < |msgs|
  {
    && i + 1 < |msgs| && msgs[i + 1].role.Tool?
    && multiset(ResultIds(msgs[i + 1].parts)) == multiset(CallIds(scope, msgs[i].parts))
  }

  ghost predicate HasCalls(scope: Scope, m: Message) {
    m.role.Assistant? && CallIds(scope, m.parts) != []
  }

  /** The contract in words: every turn with calls is answered next, and there is no other tool turn. */
  ghost predicate Contract(scope: Scope, msgs: seq<Message>) {
    && (forall i :: 0 <= i < |msgs| && HasCalls(scope, msgs[i]) ==> AnsweredNext(scope, msgs, i))
    && (forall i :: 0 <= i < |msgs| && msgs[i].role.Tool? ==> i > 0 && HasCalls(scope, msgs[i - 1]))
  }

  /** The neighbour-by-neighbour definition says exactly the contract in words. */
  lemma WellPairedIsContract(scope: Scope, msgs: seq<Message>)
    ensures WellPaired(scope, msgs) <==> Contract(scope, msgs)
  {
    assert msgs == [] || !AnsweredNext(scope, msgs, |msgs| - 1);
    if WellPaired(scope, msgs) {
      forall i | 0 <= i < |msgs| && HasCalls(scope, msgs[i]) ensures AnsweredNext(scope, msgs, i) {
        assert OpenAt(scope, msgs, i + 1) != [];
      }
      forall i | 0 <= i < |msgs| && msgs[i].role.Tool? ensures i > 0 && HasCalls(scope, msgs[i - 1]) {
        assert Follows(OpenAt(scope, msgs, i), msgs[i]);
      }
    }
    if Contract(scope, msgs) {
      forall i | 0 <= i < |msgs| ensures Follows(OpenAt(scope, msgs, i), msgs[i]) {
        if i > 0 && HasCalls(scope, msgs[i - 1]) {
          assert AnsweredNext(scope, msgs, i - 1);
        }
      }
    }
  }

  /** Well-paired transcripts compose. */
  lemma PairedConcat(scope: Scope, a: seq<Message>, b: seq<Message>)
    requires WellPaired(scope, a) && OpenPaired(scope, b)
    ensures OpenPaired(scope, a + b)
    ensures Pending(scope, a + b) == Pending(scope, b)
  {
    forall i | 0 <= i < |a + b| ensures Follows(OpenAt(scope, a + b, i), (a + b)[i]) {
      if i < |a| {
        assert Follows(OpenAt(scope, a, i), a[i]);
      } else {
        assert Follows(OpenAt(scope, b, i - |a|), b[i - |a|]);
      }
    }
  }

  lemma PrefixOpenPaired(scope: Scope, msgs: seq<Message>, n: nat)
    requires OpenPaired(scope, msgs) && n <= |msgs|
    ensures OpenPaired(scope, msgs[..n])
  {
    forall i | 0 <= i < n ensures Follows(OpenAt(scope, msgs[..n], i), msgs[..n][i]) {
      assert Follows(OpenAt(scope, msgs, i), msgs[i]);
    }
  }
}
