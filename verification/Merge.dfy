/**
Merging of consecutive messages of one role, with suppression of adjacent
repeated texts, before a transcript goes to a provider.
*/
module Merge {
  import opened Common
  import opened Transcript
  import opened TextOps

  // ------------------------------------------------------------ specification

  /** `p` only repeats the text that `existing` ends with. */
  predicate IsDuplicateAdjacentText(existing: seq<Part>, p: Part) {
    && existing != []
    && p.Text?
    && existing[|existing| - 1].Text?
    && Trim(p.text) == Trim(existing[|existing| - 1].text)
    && Trim(p.text) != ""
  }

  function AppendPart(existing: seq<Part>, p: Part): seq<Part> {
    if IsDuplicateAdjacentText(existing, p) then existing else existing + [p]
  }

  function AppendParts(existing: seq<Part>, more: seq<Part>): seq<Part> {
    if more == [] then existing
    else AppendPart(AppendParts(existing, more[..|more| - 1]), more[|more| - 1])
  }

  /** Whether `m` continues the turn that `out` ends with. */
  predicate Continues(out: seq<Message>, m: Message) {
    out != [] && out[|out| - 1].role == m.role && !m.role.System?
  }

  function Absorb(prev: Message, m: Message): Message {
    Message(prev.role, AppendParts(prev.parts, m.parts), if m.options.Some? then m.options else prev.options)
  }

  function MergeOne(out: seq<Message>, m: Message): seq<Message> {
    if Continues(out, m) then out[..|out| - 1] + [Absorb(out[|out| - 1], m)] else out + [m]
  }

  function Merged(msgs: seq<Message>): seq<Message> {
    if msgs == [] then [] else MergeOne(Merged(msgs[..|msgs| - 1]), msgs[|msgs| - 1])
  }

  // ---------------------------------------------------------------- the pass

  /** Adds the parts of one message to another, leaving out adjacent repeats. */
  method ConcatenateParts(existing: seq<Part>, more: seq<Part>) returns (content: seq<Part>)
    ensures content == AppendParts(existing, more)
  {
    content := existing;
    for k := 0 to |more|
      invariant content == AppendParts(existing, more[..k])
    {
      assert more[..k + 1][..k] == more[..k];
      if IsDuplicateAdjacentText(content, more[k]) {
        continue;
      }
      content := content + [more[k]];
    }
    assert more[..|more|] == more;
  }

  method MergeConsecutiveSameRole(msgs: seq<Message>) returns (out: seq<Message>)
    ensures out == Merged(msgs)
  {
    if |msgs| < 2 {
      assert |msgs| == 1 ==> Merged(msgs[..0]) == [];
      return msgs;
    }
    out := [];
    for i := 0 to |msgs|
      invariant out == Merged(msgs[..i])
    {
      assert msgs[..i + 1][..i] == msgs[..i];
      var m := msgs[i];
      if |out| == 0 {
        out := out + [m];
        continue;
      }
      var prev := out[|out| - 1];
      if prev.role != m.role || prev.role == System {
        out := out + [m];
        continue;
      }
      var content := ConcatenateParts(prev.parts, m.parts);
      prev := prev.(parts := content);
      if m.options != None {
        prev := prev.(options := m.options);
      }
      out := out[..|out| - 1] + [prev];
    }
    assert msgs[..|msgs|] == msgs;
  }

  // ------------------------------------------------------- what a merge keeps

  /** No two neighbours share a role, system messages aside. */
  ghost predicate Separated(msgs: seq<Message>) {
    forall i :: 0 < i < |msgs| ==> msgs[i - 1].role != msgs[i].role || msgs[i].role.System?
  }

  lemma {:induction false} MergeSeparates(msgs: seq<Message>)
    ensures Separated(Merged(msgs))
  {
    if msgs != [] {
      MergeSeparates(msgs[..|msgs| - 1]);
    }
  }

  lemma {:induction false} SeparatedUnchanged(msgs: seq<Message>)
    requires Separated(msgs)
    ensures Merged(msgs) == msgs
  {
    if msgs != [] {
      SeparatedUnchanged(msgs[..|msgs| - 1]);
    }
  }

  /** A transcript is left alone exactly when no two neighbours share a role; so a second merge changes nothing. */
  lemma MergeIdempotent(msgs: seq<Message>)
    ensures Merged(Merged(msgs)) == Merged(msgs)
    ensures Merged(msgs) == msgs <==> Separated(msgs)
  {
    MergeSeparates(msgs);
    SeparatedUnchanged(Merged(msgs));
    if Separated(msgs) {
      SeparatedUnchanged(msgs);
    }
  }

  /** The roles of the turns that start a run of one role; every system message is its own run. */
  function RunRoles(msgs: seq<Message>): seq<Role> {
    if msgs == [] then [] else
    var front, m := msgs[..|msgs| - 1], msgs[|msgs| - 1];
    RunRoles(front) + (if Continues(front, m) then [] else [m.role])
  }

  function Roles(msgs: seq<Message>): seq<Role> {
    seq(|msgs|, i requires 0 <= i < |msgs| => msgs[i].role)
  }

  lemma MergeOneRoles(out: seq<Message>, m: Message)
    ensures Roles(MergeOne(out, m)) == Roles(out) + (if Continues(out, m) then [] else [m.role])
    ensures MergeOne(out, m) != [] && MergeOne(out, m)[|MergeOne(out, m)| - 1].role == m.role
  {
    hide AppendParts;
  }

  /** One message per run comes out, in order. */
  lemma {:induction false} MergedRoles(msgs: seq<Message>)
    ensures Roles(Merged(msgs)) == RunRoles(msgs)
    ensures msgs != [] ==> Merged(msgs) != [] && Merged(msgs)[|Merged(msgs)| - 1].role == msgs[|msgs| - 1].role
  {
    if msgs != [] {
      hide Roles, MergeOne;
      MergedRoles(msgs[..|msgs| - 1]);
      MergeOneRoles(Merged(msgs[..|msgs| - 1]), msgs[|msgs| - 1]);
    }
  }

  function NonTexts(parts: seq<Part>): seq<Part> {
    if parts == [] then [] else
    NonTexts(parts[..|parts| - 1]) + (if parts[|parts| - 1].Text? then [] else [parts[|parts| - 1]])
  }

  function AllNonTexts(msgs: seq<Message>): seq<Part> {
    if msgs == [] then [] else AllNonTexts(msgs[..|msgs| - 1]) + NonTexts(msgs[|msgs| - 1].parts)
  }

  lemma {:induction false} AppendNonTexts(existing: seq<Part>, more: seq<Part>)
    ensures NonTexts(AppendParts(existing, more)) == NonTexts(existing) + NonTexts(more)
  {
    if more != [] {
      var front, p := more[..|more| - 1], more[|more| - 1];
      AppendNonTexts(existing, front);
      assert (AppendParts(existing, front) + [p])[..|AppendParts(existing, front)|] == AppendParts(existing, front);
    }
  }

  /** Everything that is not text survives, in order. */
  lemma {:induction false} MergeKeepsNonTexts(msgs: seq<Message>)
    ensures AllNonTexts(Merged(msgs)) == AllNonTexts(msgs)
  {
    if msgs != [] {
      var out, m := Merged(msgs[..|msgs| - 1]), msgs[|msgs| - 1];
      MergeKeepsNonTexts(msgs[..|msgs| - 1]);
      assert (out + [m])[..|out|] == out;
      if Continues(out, m) {
        var front, prev := out[..|out| - 1], out[|out| - 1];
        AppendNonTexts(prev.parts, m.parts);
        assert (front + [Absorb(prev, m)])[..|front|] == front;
      }
    }
  }

  predicate PartsSay(parts: seq<Part>, t: string) {
    && parts != []
    && (PartsSay(parts[..|parts| - 1], t) || (parts[|parts| - 1].Text? && Trim(parts[|parts| - 1].text) == t))
  }

  /** Some message of `role` carries the text `t`, up to surrounding white space. */
  predicate Says(msgs: seq<Message>, role: Role, t: string) {
    && msgs != []
    && (Says(msgs[..|msgs| - 1], role, t)
        || (msgs[|msgs| - 1].role == role && PartsSay(msgs[|msgs| - 1].parts, t)))
  }

  lemma {:induction false} AppendSays(existing: seq<Part>, more: seq<Part>, t: string)
    ensures PartsSay(AppendParts(existing, more), t) <==> PartsSay(existing, t) || PartsSay(more, t)
  {
    if more != [] {
      var front, p := more[..|more| - 1], more[|more| - 1];
      AppendSays(existing, front, t);
      assert (AppendParts(existing, front) + [p])[..|AppendParts(existing, front)|] == AppendParts(existing, front);
    }
  }

  /** Only repeats are dropped: every role still says what it said, and nothing else. */
  lemma {:induction false} MergeKeepsTexts(msgs: seq<Message>, role: Role, t: string)
    ensures Says(Merged(msgs), role, t) <==> Says(msgs, role, t)
  {
    if msgs != [] {
      var out, m := Merged(msgs[..|msgs| - 1]), msgs[|msgs| - 1];
      MergeKeepsTexts(msgs[..|msgs| - 1], role, t);
      assert (out + [m])[..|out|] == out;
      if Continues(out, m) {
        var front, prev := out[..|out| - 1], out[|out| - 1];
        AppendSays(prev.parts, m.parts, t);
        assert (front + [Absorb(prev, m)])[..|front|] == front;
      }
    }
  }

  // ---------------------------------------------------------------- pairing

  lemma {:induction false} AppendCallIds(scope: Scope, existing: seq<Part>, more: seq<Part>)
    ensures CallIds(scope, AppendParts(existing, more)) == CallIds(scope, existing) + CallIds(scope, more)
  {
    if more != [] {
      var front, p := more[..|more| - 1], more[|more| - 1];
      AppendCallIds(scope, existing, front);
      CallIdsAppend(scope, AppendParts(existing, front), p);
    }
  }

  /** A paired transcript never has two tool turns in a row, nor an unanswered turn before another. */
  lemma AbsorbKeepsPairing(scope: Scope, front: seq<Message>, prev: Message, m: Message)
    requires OpenPaired(scope, front + [prev]) && prev.role == m.role
    requires Follows(Pending(scope, front + [prev]), m)
    ensures OpenPaired(scope, front + [Absorb(prev, m)])
    ensures Pending(scope, front + [Absorb(prev, m)]) == if m.role.Assistant? then CallIds(scope, m.parts) else []
  {
    PairedAppend(scope, front, prev);
    PairedAppend(scope, front, Absorb(prev, m));
    AppendCallIds(scope, prev.parts, m.parts);
  }

  lemma {:induction false} MergeKeepsOpenPairing(scope: Scope, msgs: seq<Message>)
    requires OpenPaired(scope, msgs)
    ensures OpenPaired(scope, Merged(msgs)) && Pending(scope, Merged(msgs)) == Pending(scope, msgs)
  {
    hide CallIds, AppendParts, Follows;
    if msgs != [] {
      var before, m := msgs[..|msgs| - 1], msgs[|msgs| - 1];
      var out := Merged(before);
      assert msgs == before + [m];
      PairedAppend(scope, before, m);
      MergeKeepsOpenPairing(scope, before);
      if Continues(out, m) {
        assert out == out[..|out| - 1] + [out[|out| - 1]];
        AbsorbKeepsPairing(scope, out[..|out| - 1], out[|out| - 1], m);
      } else {
        PairedAppend(scope, out, m);
      }
    }
  }

  /** Merging keeps the pairing contract. */
  lemma MergeKeepsPairing(scope: Scope, msgs: seq<Message>)
    requires WellPaired(scope, msgs)
    ensures WellPaired(scope, Merged(msgs))
  {
    MergeKeepsOpenPairing(scope, msgs);
  }

  // -------------------------------------------------------------- run by run

  /** The parts of some messages, one after another. */
  function AllParts(msgs: seq<Message>): seq<Part> {
    if msgs == [] then [] else AllParts(msgs[..|msgs| - 1]) + msgs[|msgs| - 1].parts
  }

  /** Part `x` says, white space at its ends aside, just what the part before it says, and not nothing. */
  predicate Repeats(parts: seq<Part>, x: nat)
    requires 0 < x < |parts|
  {
    && parts[x].Text? && parts[x - 1].Text?
    && Trim(parts[x].text) == Trim(parts[x - 1].text) != ""
  }

  /** The first `n` parts, those from place `from` on without repeats. */
  function WithoutRepeats(parts: seq<Part>, from: nat, n: nat): seq<Part>
    requires from <= n <= |parts|
  {
    if n == from then parts[..from]
    else WithoutRepeats(parts, from, n - 1) + (if n > 1 && Repeats(parts, n - 1) then [] else [parts[n - 1]])
  }

  /** The options of the latest message that has any. */
  function LatestOptions(msgs: seq<Message>): Option<string> {
    if msgs == [] then None
    else if msgs[|msgs| - 1].options.Some? then msgs[|msgs| - 1].options
    else LatestOptions(msgs[..|msgs| - 1])
  }

  /** Messages of one role that belong together; a system message stands alone. */
  predicate IsRun(msgs: seq<Message>) {
    && msgs != []
    && (forall i :: 0 <= i < |msgs| ==> msgs[i].role == msgs[0].role)
    && (msgs[0].role.System? ==> |msgs| == 1)
  }

  /** Two parts before which a repeat is the same. */
  predicate Alike(p: Part, q: Part) {
    p == q || (p.Text? && q.Text? && Trim(p.text) == Trim(q.text) != "")
  }

  ghost predicate EndAlike(a: seq<Part>, b: seq<Part>) {
    (a == [] <==> b == []) && (a != [] ==> Alike(a[|a| - 1], b[|b| - 1]))
  }

  lemma RepeatsLocal(parts: seq<Part>, more: seq<Part>, from: nat, n: nat)
    requires from <= n <= |parts|
    ensures WithoutRepeats(parts + more, from, n) == WithoutRepeats(parts, from, n)
  {
    hide Trim;
    assert (parts + more)[..from] == parts[..from];
    if n > from {
      RepeatsLocal(parts, more, from, n - 1);
    }
  }

  lemma OnePartMore(before: seq<Part>, from: nat, p: Part)
    requires from <= |before| && EndAlike(WithoutRepeats(before, from, |before|), before)
    ensures var all := before + [p];
            && AppendPart(WithoutRepeats(before, from, |before|), p) == WithoutRepeats(all, from, |all|)
            && EndAlike(WithoutRepeats(all, from, |all|), all)
  {
    hide Trim;
    RepeatsLocal(before, [p], from, |before|);
  }

  lemma AppendsNothing(before: seq<Part>)
    ensures AppendParts(before, []) == before
  {
  }

  /** Adding parts to what is left of `before` leaves out exactly the repeats among them. */
  lemma {:induction false} AppendWithoutRepeats(before: seq<Part>, from: nat, more: seq<Part>)
    requires from <= |before| && EndAlike(WithoutRepeats(before, from, |before|), before)
    ensures var all := before + more;
            && AppendParts(WithoutRepeats(before, from, |before|), more) == WithoutRepeats(all, from, |all|)
            && EndAlike(WithoutRepeats(all, from, |all|), all)
    decreases |more|
  {
    hide WithoutRepeats, EndAlike, AppendPart;
    if more == [] {
      AppendsNothing(WithoutRepeats(before, from, |before|));
      assert before + more == before;
    } else {
      var front, p := more[..|more| - 1], more[|more| - 1];
      AppendWithoutRepeats(before, from, front);
      OnePartMore(before + front, from, p);
      assert before + more == before + front + [p];
    }
  }

  /**
  One run of one role becomes one message: the parts of its first message as
  they are, then those of the others without the texts that repeat the part
  before them, and the options of the latest message that has any.
  */
  lemma {:induction false} RunMerged(run: seq<Message>)
    requires IsRun(run)
    ensures var parts := AllParts(run);
            && |run[0].parts| <= |parts|
            && Merged(run) == [Message(run[0].role, WithoutRepeats(parts, |run[0].parts|, |parts|), LatestOptions(run))]
            && EndAlike(WithoutRepeats(parts, |run[0].parts|, |parts|), parts)
    decreases |run|
  {
    hide AppendParts, Trim;
    var front, m := run[..|run| - 1], run[|run| - 1];
    if front == [] {
      assert run == [m] && Merged(front) == [] && LatestOptions(front) == None;
      assert AllParts(front) == [] && AllParts(run) == m.parts;
      assert m.parts[..|m.parts|] == m.parts;
    } else {
      RunMerged(front);
      assert front[0] == run[0];
      AppendWithoutRepeats(AllParts(front), |run[0].parts|, m.parts);
    }
  }

  /** Where the role changes, or at a system message, what comes before and after is merged on its own. */
  lemma {:induction false} MergedApart(a: seq<Message>, b: seq<Message>)
    requires a == [] || b == [] || a[|a| - 1].role != b[0].role || b[0].role.System?
    ensures Merged(a + b) == Merged(a) + Merged(b)
    decreases |b|
  {
    hide AppendParts;
    if b == [] {
      assert a + b == a;
    } else {
      var front, m := b[..|b| - 1], b[|b| - 1];
      assert (a + b)[..|a + b| - 1] == a + front && (a + b)[|a + b| - 1] == m;
      MergedApart(a, front);
      if front == [] {
        MergedRoles(a);
        assert a + front == a && Merged(front) == [] && Merged(b) == [m];
      } else {
        MergedRoles(front);
        MergeOneBehind(Merged(a), Merged(front), m);
      }
    }
  }

  lemma MergeOneBehind(a: seq<Message>, b: seq<Message>, m: Message)
    requires b != []
    ensures MergeOne(a + b, m) == a + MergeOne(b, m)
  {
    hide AppendParts;
    assert (a + b)[|a + b| - 1] == b[|b| - 1];
    assert (a + b)[..|a + b| - 1] == a + b[..|b| - 1];
  }
}
