/**
Trimming of canceled prompt branches: assistant work that was canceled, or
never finished, and that a later user message supersedes.
*/
module CanceledBranches {
  import opened Common
  import opened Persisted

  const CANCELED := "canceled"

  const BOUNDARY_NOTE :=
    "Previous assistant work before this point was canceled before completion. Ignore unfinished tool activity from that attempt. Treat the next user message as the active instruction, and use earlier user messages only as background context."

  const BOUNDARY := Message(T.System, [TextPart(BOUNDARY_NOTE)], false)

  /** An assistant turn that was canceled or has no finish part. */
  predicate Unfinished(m: Message) {
    m.role.Assistant? && (FinishReason(m.parts) == CANCELED || FinishReason(m.parts) == "")
  }

  predicate AgentTurn(m: Message) {
    m.role.Assistant? || m.role.Tool?
  }

  ghost predicate UserBetween(msgs: seq<Message>, lo: int, hi: int)
    requires 0 <= lo && hi <= |msgs|
  {
    exists u :: lo <= u < hi && msgs[u].role.User?
  }

  /** An unfinished turn with a later user message. */
  ghost predicate Dead(msgs: seq<Message>, k: int)
    requires 0 <= k < |msgs|
  {
    Unfinished(msgs[k]) && UserBetween(msgs, k + 1, |msgs|)
  }

  /** `i` lies in the run of assistant and tool messages that ends in message `k`. */
  ghost predicate InRun(msgs: seq<Message>, i: int, k: int)
    requires 0 <= i
  {
    i <= k < |msgs| && forall j :: i <= j <= k ==> AgentTurn(msgs[j])
  }

  /** `i` lies in the run that ends in the dead turn `k`. */
  ghost predicate DroppedBy(msgs: seq<Message>, i: int, k: int)
    requires 0 <= i
  {
    InRun(msgs, i, k) && Dead(msgs, k)
  }

  ghost predicate Dropped(msgs: seq<Message>, i: int)
    requires 0 <= i
  {
    exists k :: DroppedBy(msgs, i, k)
  }

  /** `u` is the first user message after the dead turn `k`. */
  ghost predicate BoundaryFor(msgs: seq<Message>, u: int, k: int)
    requires 0 <= u < |msgs|
  {
    0 <= k < u && Dead(msgs, k) && msgs[u].role.User? && !UserBetween(msgs, k + 1, u)
  }

  ghost predicate BoundaryBefore(msgs: seq<Message>, u: int)
    requires 0 <= u < |msgs|
  {
    exists k :: BoundaryFor(msgs, u, k)
  }

  /** Dropped because of a dead turn at `lo` or later. */
  ghost predicate DroppedFrom(msgs: seq<Message>, i: int, lo: int)
    requires 0 <= i
  {
    exists k :: lo <= k && DroppedBy(msgs, i, k)
  }

  /** Given a note because of a dead turn at `lo` or later. */
  ghost predicate BoundaryFrom(msgs: seq<Message>, u: int, lo: int)
    requires 0 <= u < |msgs|
  {
    exists k :: lo <= k && BoundaryFor(msgs, u, k)
  }

  lemma FromStep(msgs: seq<Message>, lo: int)
    requires 0 <= lo < |msgs|
    ensures forall i :: 0 <= i ==> (DroppedFrom(msgs, i, lo) <==> DroppedFrom(msgs, i, lo + 1) || DroppedBy(msgs, i, lo))
    ensures forall u :: 0 <= u < |msgs| ==>
              (BoundaryFrom(msgs, u, lo) <==> BoundaryFrom(msgs, u, lo + 1) || BoundaryFor(msgs, u, lo))
  {
  }

  /** The first `n` messages, without those in `drops` and with a note before those in `notes`. */
  function Select(msgs: seq<Message>, drops: set<int>, notes: set<int>, n: nat): seq<Message>
    requires n <= |msgs|
  {
    if n == 0 then [] else
    Select(msgs, drops, notes, n - 1)
    + (if n - 1 in notes then [BOUNDARY] else [])
    + (if n - 1 in drops then [] else [msgs[n - 1]])
  }

  ghost function Drops(msgs: seq<Message>): set<int> {
    set i | 0 <= i < |msgs| && Dropped(msgs, i)
  }

  ghost function Notes(msgs: seq<Message>): set<int> {
    set u | 0 <= u < |msgs| && BoundaryBefore(msgs, u)
  }

  /** The first `n` messages, without the dropped ones and with a note before superseding users. */
  ghost function Kept(msgs: seq<Message>, n: nat): seq<Message>
    requires n <= |msgs|
  {
    Select(msgs, Drops(msgs), Notes(msgs), n)
  }

  ghost function Trimmed(msgs: seq<Message>): seq<Message> {
    Kept(msgs, |msgs|)
  }

  /** Without a dead turn nothing is dropped and no note is inserted. */
  lemma KeptAll(msgs: seq<Message>, n: nat)
    requires n <= |msgs| && forall k :: 0 <= k < |msgs| ==> !Dead(msgs, k)
    ensures Kept(msgs, n) == msgs[..n]
  {
    assert Drops(msgs) == {} && Notes(msgs) == {};
    SelectAll(msgs, n);
  }

  lemma {:induction false} SelectAll(msgs: seq<Message>, n: nat)
    requires n <= |msgs|
    ensures Select(msgs, {}, {}, n) == msgs[..n]
  {
    if n > 0 {
      SelectAll(msgs, n - 1);
    }
  }

  /** Marks an assistant turn and the assistant and tool messages directly before it. */
  method DropRun(msgs: seq<Message>, keep: array<bool>, i: nat)
    requires keep.Length == |msgs| && i < |msgs| && AgentTurn(msgs[i])
    modifies keep
    ensures forall x :: 0 <= x < |msgs| ==> keep[x] == (old(keep[x]) && !InRun(msgs, x, i))
  {
    keep[i] := false;
    var j := i - 1;
    while j >= 0 && AgentTurn(msgs[j])
      invariant -1 <= j < i
      invariant InRun(msgs, j + 1, i)
      invariant forall x :: j < x <= i ==> !keep[x]
      invariant forall x :: 0 <= x <= j || i < x < |msgs| ==> keep[x] == old(keep[x])
    {
      keep[j] := false;
      j := j - 1;
    }
  }

  /**
  Trims canceled branches.  A message goes exactly when it lies in a run of
  assistant and tool messages up to an unfinished assistant turn that a later
  user message supersedes.
  */
  method TrimCanceledPromptBranches(msgs: seq<Message>) returns (r: seq<Message>)
    ensures r == Trimmed(msgs)
  {
    var n := |msgs|;
    var hasLaterUser, laterUserIndex := false, -1;
    var keep := new bool[n](_ => true);
    var insertBoundaryBefore: set<int> := {};
    var removed := false;
    var i := n;
    while i > 0
      invariant 0 <= i <= n
      invariant hasLaterUser == UserBetween(msgs, i, n)
      invariant hasLaterUser ==>
                  i <= laterUserIndex < n && msgs[laterUserIndex].role.User? && !UserBetween(msgs, i, laterUserIndex)
      invariant forall j :: 0 <= j < n ==> (!keep[j] <==> DroppedFrom(msgs, j, i))
      invariant forall u :: 0 <= u < n ==> (u in insertBoundaryBefore <==> BoundaryFrom(msgs, u, i))
      invariant removed ==> exists k :: i <= k < n && Dead(msgs, k)
      invariant !removed ==> forall k :: i <= k < n ==> !Dead(msgs, k)
    {
      i := i - 1;
      FromStep(msgs, i);
      if msgs[i].role.User? {
        hasLaterUser, laterUserIndex := true, i;
        continue;
      }
      if !hasLaterUser || !Unfinished(msgs[i]) {
        continue;
      }
      assert Dead(msgs, i);
      DropRun(msgs, keep, i);
      removed := true;
      insertBoundaryBefore := insertBoundaryBefore + {laterUserIndex};
    }
    if !removed {
      KeptAll(msgs, n);
      return msgs;
    }
    assert forall j :: 0 <= j < n ==> (!keep[j] <==> j in Drops(msgs));
    assert forall u :: 0 <= u < n ==> (u in insertBoundaryBefore <==> u in Notes(msgs));
    r := Rebuild(msgs, keep[..], insertBoundaryBefore, Drops(msgs), Notes(msgs));
  }

  /** Copies what is kept, with a boundary note wherever one is due. */
  method Rebuild(msgs: seq<Message>, keep: seq<bool>, insertBoundaryBefore: set<int>,
                 ghost drops: set<int>, ghost notes: set<int>) returns (r: seq<Message>)
    requires |keep| == |msgs|
    requires forall j :: 0 <= j < |msgs| ==> (!keep[j] <==> j in drops)
    requires forall u :: 0 <= u < |msgs| ==> (u in insertBoundaryBefore <==> u in notes)
    ensures r == Select(msgs, drops, notes, |msgs|)
  {
    r := [];
    for i := 0 to |msgs|
      invariant r == Select(msgs, drops, notes, i)
    {
      if i in insertBoundaryBefore {
        r := r + [BOUNDARY];
      }
      if keep[i] {
        r := r + [msgs[i]];
      }
    }
  }

  // --------------------------------------------------------------- properties

  function Users(msgs: seq<Message>): seq<Message> {
    if msgs == [] then [] else
    var m := msgs[|msgs| - 1];
    Users(msgs[..|msgs| - 1]) + (if m.role.User? then [m] else [])
  }

  lemma UsersAppend(msgs: seq<Message>, m: Message)
    ensures Users(msgs + [m]) == Users(msgs) + (if m.role.User? then [m] else [])
  {
    assert (msgs + [m])[..|msgs|] == msgs;
  }

  lemma UsersStep(before: seq<Message>, noted: bool, dropped: bool, m: Message)
    requires m.role.User? ==> !dropped
    ensures Users(before + (if noted then [BOUNDARY] else []) + (if dropped then [] else [m]))
         == Users(before) + (if m.role.User? then [m] else [])
  {
    var b := before + (if noted then [BOUNDARY] else []);
    assert b == if noted then before + [BOUNDARY] else before;
    assert b + (if dropped then [] else [m]) == if dropped then b else b + [m];
    UsersAppend(before, BOUNDARY);
    UsersAppend(b, m);
  }

  lemma {:induction false} SelectUsers(msgs: seq<Message>, drops: set<int>, notes: set<int>, n: nat)
    requires n <= |msgs|
    requires forall i :: 0 <= i < |msgs| && msgs[i].role.User? ==> i !in drops
    ensures Users(Select(msgs, drops, notes, n)) == Users(msgs[..n])
  {
    if n > 0 {
      SelectUsers(msgs, drops, notes, n - 1);
      assert msgs[..n] == msgs[..n - 1] + [msgs[n - 1]];
      UsersAppend(msgs[..n - 1], msgs[n - 1]);
      UsersStep(Select(msgs, drops, notes, n - 1), n - 1 in notes, n - 1 in drops, msgs[n - 1]);
    }
  }

  /** Every user message survives, in order, and no other user message appears. */
  lemma UsersSurvive(msgs: seq<Message>)
    ensures Users(Trimmed(msgs)) == Users(msgs)
  {
    SelectUsers(msgs, Drops(msgs), Notes(msgs), |msgs|);
    assert msgs[..|msgs|] == msgs;
  }

  /** A kept unfinished turn has no user message after it. */
  lemma {:induction false} UnfinishedKeptIsLast(msgs: seq<Message>, n: nat, m: Message)
    requires n <= |msgs| && m in Kept(msgs, n) && Unfinished(m)
    ensures !UserBetween(msgs, n, |msgs|)
  {
    if m in Kept(msgs, n - 1) {
      UnfinishedKeptIsLast(msgs, n - 1, m);
    } else {
      assert msgs[n - 1] == m && !Dropped(msgs, n - 1);
      assert !DroppedBy(msgs, n - 1, n - 1);
    }
  }

  lemma {:induction false} KeptHasNoDead(msgs: seq<Message>, n: nat, p: nat, q: nat)
    requires n <= |msgs| && p < q < |Kept(msgs, n)| && Unfinished(Kept(msgs, n)[p])
    ensures !Kept(msgs, n)[q].role.User?
  {
    var before := Kept(msgs, n - 1);
    if q < |before| {
      KeptHasNoDead(msgs, n - 1, p, q);
    } else {
      assert p < |before| && before[p] in before;
      UnfinishedKeptIsLast(msgs, n - 1, before[p]);
    }
  }

  /** What trimming is for: no superseded unfinished turn is left. */
  lemma NoDeadTurnLeft(msgs: seq<Message>, p: nat)
    requires p < |Trimmed(msgs)|
    ensures !Dead(Trimmed(msgs), p)
  {
    var r := Trimmed(msgs);
    if Dead(r, p) {
      var u :| p + 1 <= u < |r| && r[u].role.User?;
      KeptHasNoDead(msgs, |msgs|, p, u);
    }
  }

  /** Trimming again changes nothing. */
  lemma TrimIdempotent(msgs: seq<Message>)
    ensures Trimmed(Trimmed(msgs)) == Trimmed(msgs)
  {
    var r := Trimmed(msgs);
    forall p | 0 <= p < |r| ensures !Dead(r, p) {
      NoDeadTurnLeft(msgs, p);
    }
    KeptAll(r, |r|);
  }

  /** Exact effect: the history is returned as it is if and only if it has no dead turn. */
  lemma TrimUnchangedIff(msgs: seq<Message>)
    ensures Trimmed(msgs) == msgs <==> forall k :: 0 <= k < |msgs| ==> !Dead(msgs, k)
  {
    if forall k :: 0 <= k < |msgs| ==> !Dead(msgs, k) {
      KeptAll(msgs, |msgs|);
    } else {
      var k :| 0 <= k < |msgs| && Dead(msgs, k);
      if Trimmed(msgs) == msgs {
        NoDeadTurnLeft(msgs, k);
      }
    }
  }

  lemma NoteStep(msgs: seq<Message>, u: nat)
    requires u < |msgs|
    ensures BoundaryBefore(msgs, u) ==> msgs[u].role.User? && Kept(msgs, u + 1) == Kept(msgs, u) + [BOUNDARY, msgs[u]]
    ensures !BoundaryBefore(msgs, u) ==> Kept(msgs, u + 1) == Kept(msgs, u) + (if Dropped(msgs, u) then [] else [msgs[u]])
  {
  }

  /** Every note in a trimmed history is followed directly by a user message. */
  lemma {:induction false} NotesPrecedeUsers(msgs: seq<Message>, n: nat)
    requires n <= |msgs| && BOUNDARY !in msgs
    ensures var kept := Kept(msgs, n);
            forall i :: 0 <= i < |kept| && kept[i] == BOUNDARY ==> i + 1 < |kept| && kept[i + 1].role.User?
  {
    hide Kept, BoundaryBefore, Dropped;
    if n == 0 {
      NothingKept(msgs);
    } else {
      NotesPrecedeUsers(msgs, n - 1);
      NoteStep(msgs, n - 1);
      assert msgs[n - 1] in msgs;
    }
  }

  lemma NothingKept(msgs: seq<Message>)
    ensures Kept(msgs, 0) == []
  {
  }
}
