/** Removal of redacted reasoning blocks, for endpoints that refuse them. */
module Redacted {
  import opened Common
  import opened Transcript

  predicate IsRedacted(p: Part) {
    p.Reasoning? && p.redacted
  }

  function KeptParts(parts: seq<Part>): seq<Part> {
    if parts == [] then [] else
    KeptParts(parts[..|parts| - 1]) + (if IsRedacted(parts[|parts| - 1]) then [] else [parts[|parts| - 1]])
  }

  function StrippedMessage(m: Message): Message {
    if m.role.Assistant? then m.(parts := KeptParts(m.parts)) else m
  }

  function Stripped(msgs: seq<Message>): seq<Message> {
    seq(|msgs|, i requires 0 <= i < |msgs| => StrippedMessage(msgs[i]))
  }

  predicate HasRedacted(m: Message) {
    m.role.Assistant? && exists p :: p in m.parts && IsRedacted(p)
  }

  method FilterParts(src: seq<Part>) returns (filtered: seq<Part>, stripped: bool)
    ensures filtered == KeptParts(src)
    ensures stripped <==> exists p :: p in src && IsRedacted(p)
  {
    filtered, stripped := [], false;
    for k := 0 to |src|
      invariant filtered == KeptParts(src[..k])
      invariant stripped <==> exists p :: p in src[..k] && IsRedacted(p)
    {
      assert src[..k + 1][..k] == src[..k];
      assert src[..k + 1] == src[..k] + [src[k]];
      if IsRedacted(src[k]) {
        stripped := true;
        continue;
      }
      filtered := filtered + [src[k]];
    }
    assert src[..|src|] == src;
  }

  /** Rewrites the messages in place and reports whether any of them had a redacted block. */
  method StripRedactedThinkingParts(messages: array<Message>) returns (changed: bool)
    modifies messages
    ensures messages[..] == Stripped(old(messages[..]))
    ensures changed <==> exists i :: 0 <= i < messages.Length && HasRedacted(old(messages[i]))
  {
    ghost var before := messages[..];
    changed := false;
    for i := 0 to messages.Length
      invariant forall k :: 0 <= k < i ==> messages[k] == StrippedMessage(before[k])
      invariant forall k :: i <= k < messages.Length ==> messages[k] == before[k]
      invariant changed <==> exists k :: 0 <= k < i && HasRedacted(before[k])
    {
      if messages[i].role != Assistant {
        continue;
      }
      var src := messages[i].parts;
      if |src| == 0 {
        continue;
      }
      var filtered, stripped := FilterParts(src);
      if stripped {
        messages[i] := messages[i].(parts := filtered);
        changed := true;
      } else {
        NothingToFilter(src);
      }
    }
  }

  lemma {:induction false} NothingToFilter(parts: seq<Part>)
    requires forall p :: p in parts ==> !IsRedacted(p)
    ensures KeptParts(parts) == parts
  {
    if parts != [] {
      NothingToFilter(parts[..|parts| - 1]);
    }
  }

  lemma {:induction false} KeptIsClean(parts: seq<Part>)
    ensures forall p :: p in KeptParts(parts) <==> p in parts && !IsRedacted(p)
  {
    if parts != [] {
      KeptIsClean(parts[..|parts| - 1]);
      assert parts == parts[..|parts| - 1] + [parts[|parts| - 1]];
    }
  }

  /** No assistant turn keeps a redacted block, and exactly the clean transcripts are left alone. */
  lemma StrippedIsClean(msgs: seq<Message>)
    ensures forall m :: m in Stripped(msgs) ==> !HasRedacted(m)
    ensures Stripped(msgs) == msgs <==> forall m :: m in msgs ==> !HasRedacted(m)
  {
    forall i | 0 <= i < |msgs| ensures !HasRedacted(Stripped(msgs)[i]) {
      KeptIsClean(msgs[i].parts);
    }
    if forall m :: m in msgs ==> !HasRedacted(m) {
      forall i | 0 <= i < |msgs| ensures Stripped(msgs)[i] == msgs[i] {
        assert !HasRedacted(msgs[i]);
        if msgs[i].role.Assistant? {
          NothingToFilter(msgs[i].parts);
        }
      }
    }
  }

  /** The parts are read one by one: a redacted reasoning block goes, anything else stays where it is. */
  lemma {:induction false} KeptReads(a: seq<Part>, p: Part, b: seq<Part>)
    ensures KeptParts(a + [p] + b) == KeptParts(a) + (if p.Reasoning? && p.redacted then [] else [p]) + KeptParts(b)
    decreases |b|
  {
    var all := a + [p] + b;
    if b == [] {
      assert all[..|all| - 1] == a && all[|all| - 1] == p;
    } else {
      assert all[..|all| - 1] == a + [p] + b[..|b| - 1] && all[|all| - 1] == b[|b| - 1];
      KeptReads(a, p, b[..|b| - 1]);
    }
  }

  /** Only the parts of assistant turns are touched. */
  lemma OnlyPartsChange(msgs: seq<Message>, i: nat)
    requires i < |msgs|
    ensures |Stripped(msgs)| == |msgs|
    ensures Stripped(msgs)[i] == if msgs[i].role.Assistant? then msgs[i].(parts := KeptParts(msgs[i].parts)) else msgs[i]
    ensures KeptParts([]) == []
  {
  }

  lemma {:induction false} KeptCallIds(scope: Scope, parts: seq<Part>)
    ensures CallIds(scope, KeptParts(parts)) == CallIds(scope, parts)
  {
    if parts != [] {
      var front, p := parts[..|parts| - 1], parts[|parts| - 1];
      KeptCallIds(scope, front);
      CallIdsAppend(scope, KeptParts(front), p);
      assert KeptParts(front) + [] == KeptParts(front);
    }
  }

  /** Stripping changes nothing about which calls are answered, in either direction. */
  lemma StrippedPairing(scope: Scope, msgs: seq<Message>)
    ensures WellPaired(scope, Stripped(msgs)) <==> WellPaired(scope, msgs)
  {
    hide Follows;
    forall i | 0 <= i <= |msgs| ensures OpenAt(scope, Stripped(msgs), i) == OpenAt(scope, msgs, i) {
      if i > 0 {
        KeptCallIds(scope, msgs[i - 1].parts);
      }
    }
    forall i | 0 <= i < |msgs|
      ensures Follows(OpenAt(scope, msgs, i), Stripped(msgs)[i]) <==> Follows(OpenAt(scope, msgs, i), msgs[i])
    {
      FollowsSame(OpenAt(scope, msgs, i), msgs[i]);
    }
  }

  lemma FollowsSame(pending: seq<Id>, m: Message)
    ensures Follows(pending, StrippedMessage(m)) <==> Follows(pending, m)
  {
  }
}
