/**
Clearing of old tool results: recent turns and a budget of recent results are
kept, and what lies beyond is cleared when it is worth it.
*/
module Prune {
  import opened Common
  import opened Persisted
  import opened TextOps
  import T = Transcript

  const PROTECT_TOKENS := 40_000
  const MIN_TOKENS := 20_000
  const RECENT_USER_TURNS := 2
  const NOTICE := "[Old tool result content cleared"
  const PROTECTED_TOOLS := {"skill", "goal"}

  // -------------------------------------------------------------- estimation

  function AsciiCount(s: string): nat {
    if s == "" then 0 else (if s[0] as int < 0x80 then 1 else 0) + AsciiCount(s[1..])
  }

  function NonAsciiCount(s: string): nat {
    if s == "" then 0 else (if s[0] as int < 0x80 then 0 else 1) + NonAsciiCount(s[1..])
  }

  /** A quarter token for each ASCII character, rounded up, and one for each other. */
  function EstimateTokens(s: string): nat {
    var ascii := AsciiCount(s);
    ascii / 4 + (if ascii % 4 != 0 then 1 else 0) + NonAsciiCount(s)
  }

  // ------------------------------------------------------------ specification

  /** `detail` is the wording of a notice after its prefix. */
  datatype Env = Env(
    protect: ToolResult -> bool,
    cacheProtected: set<nat>,
    archive: ToolResult -> string,
    detail: (nat, nat, string) -> string)

  /** A part, by its message and its place in it. */
  datatype Slot = Slot(i: nat, j: nat)

  datatype Scan = Scan(kept: nat, targets: seq<Slot>, prunable: nat, userTurns: nat, stopped: bool)

  const START := Scan(0, [], 0, 0, false)

  /** A result that may be cleared at all. */
  predicate Eligible(env: Env, p: Part) {
    && p.ResultPart? && !p.result.isError && p.result.content != ""
    && p.result.name !in PROTECTED_TOOLS && !env.protect(p.result)
  }

  function VisitPart(env: Env, s: Scan, slot: Slot, p: Part): Scan {
    if s.stopped || !Eligible(env, p) then s
    else if HasPrefix(p.result.content, NOTICE) then s.(stopped := true)
    else if s.kept < PROTECT_TOKENS then s.(kept := s.kept + EstimateTokens(p.result.content))
    else s.(targets := s.targets + [slot], prunable := s.prunable + EstimateTokens(p.result.content))
  }

  function VisitParts(env: Env, s: Scan, i: nat, parts: seq<Part>, n: nat): Scan
    requires n <= |parts|
  {
    if n == 0 then s else VisitPart(env, VisitParts(env, s, i, parts, n - 1), Slot(i, n - 1), parts[n - 1])
  }

  /** Whether the results of message `i` are looked at. */
  predicate Looked(env: Env, s: Scan, m: Message, i: nat) {
    m.role.Tool? && !s.stopped && s.userTurns >= RECENT_USER_TURNS && i !in env.cacheProtected
  }

  function VisitMessage(env: Env, s: Scan, m: Message, i: nat): Scan {
    if s.stopped then s
    else if m.role.User? then s.(userTurns := s.userTurns + 1)
    else if m.role.Assistant? && m.summary then s.(stopped := true)
    else if Looked(env, s, m, i) then VisitParts(env, s, i, m.parts, |m.parts|)
    else s
  }

  /** The walk from the last message down to message `k`. */
  function Walked(env: Env, msgs: seq<Message>, k: nat): Scan
    requires k <= |msgs|
    decreases |msgs| - k
  {
    if k == |msgs| then START else VisitMessage(env, Walked(env, msgs, k + 1), msgs[k], k)
  }

  function ClearedResult(env: Env, r: ToolResult): ToolResult {
    r.(content := NOTICE + env.detail(EstimateTokens(r.content), |r.content|, env.archive(r)))
  }

  function ClearedParts(env: Env, parts: seq<Part>, i: nat, targets: seq<Slot>): seq<Part> {
    seq(|parts|, j requires 0 <= j < |parts| =>
      if Slot(i, j) in targets && parts[j].ResultPart? then ResultPart(ClearedResult(env, parts[j].result)) else parts[j])
  }

  function Cleared(env: Env, msgs: seq<Message>, targets: seq<Slot>): seq<Message> {
    seq(|msgs|, i requires 0 <= i < |msgs| => msgs[i].(parts := ClearedParts(env, msgs[i].parts, i, targets)))
  }

  function Pruned(env: Env, msgs: seq<Message>): seq<Message> {
    var s := Walked(env, msgs, 0);
    if s.prunable <= MIN_TOKENS || s.targets == [] then msgs else Cleared(env, msgs, s.targets)
  }

  // ----------------------------------------------------------------- the code

  /** Slots that exist, hold results, and are each named once. */
  ghost predicate Targets(env: Env, msgs: seq<Message>, targets: seq<Slot>) {
    && (forall t :: t in targets ==>
          t.i < |msgs| && t.j < |msgs[t.i].parts| && msgs[t.i].role.Tool? && Eligible(env, msgs[t.i].parts[t.j]))
    && (forall a, b :: 0 <= a < b < |targets| ==> targets[a] != targets[b])
  }

  method ApplyPruning(env: Env, msgs: seq<Message>, targets: seq<Slot>) returns (result: seq<Message>)
    requires Targets(env, msgs, targets)
    ensures result == Cleared(env, msgs, targets)
  {
    hide ClearedResult;
    result := msgs;
    ClearedNone(env, msgs);
    for k := 0 to |targets|
      invariant result == Cleared(env, msgs, targets[..k])
    {
      var t := targets[k];
      assert targets[..k + 1] == targets[..k] + [t];
      assert t in targets;
      ClearedOne(env, msgs, targets[..k], t);
      var tr := result[t.i].parts[t.j].result;
      var parts := result[t.i].parts[t.j := ResultPart(ClearedResult(env, tr))];
      result := result[t.i := result[t.i].(parts := parts)];
    }
    assert targets[..|targets|] == targets;
  }

  lemma ClearedNone(env: Env, msgs: seq<Message>)
    ensures Cleared(env, msgs, []) == msgs
  {
    forall i | 0 <= i < |msgs| ensures Cleared(env, msgs, [])[i] == msgs[i] {
      assert ClearedParts(env, msgs[i].parts, i, []) == msgs[i].parts;
    }
  }

  lemma ClearedOne(env: Env, msgs: seq<Message>, targets: seq<Slot>, t: Slot)
    requires t.i < |msgs| && t.j < |msgs[t.i].parts| && msgs[t.i].parts[t.j].ResultPart? && t !in targets
    ensures var before, after := Cleared(env, msgs, targets), Cleared(env, msgs, targets + [t]);
            && before[t.i].parts[t.j] == msgs[t.i].parts[t.j] && |before[t.i].parts| == |msgs[t.i].parts|
            && after == before[t.i := before[t.i].(parts :=
                 before[t.i].parts[t.j := ResultPart(ClearedResult(env, msgs[t.i].parts[t.j].result))])]
  {
    hide ClearedResult;
    var before, after := Cleared(env, msgs, targets), Cleared(env, msgs, targets + [t]);
    forall i | 0 <= i < |msgs| && i != t.i ensures after[i] == before[i] {
      assert ClearedParts(env, msgs[i].parts, i, targets + [t]) == ClearedParts(env, msgs[i].parts, i, targets);
    }
    assert after[t.i].parts == before[t.i].parts[t.j := ResultPart(ClearedResult(env, msgs[t.i].parts[t.j].result))];
  }

  method ScanParts(env: Env, s0: Scan, i: nat, parts: seq<Part>) returns (s: Scan)
    requires !s0.stopped
    ensures s == VisitParts(env, s0, i, parts, |parts|)
  {
    hide EstimateTokens;
    s := s0;
    for j := 0 to |parts|
      invariant s == VisitParts(env, s0, i, parts, j) && !s.stopped
    {
      var part := parts[j];
      if !part.ResultPart? || part.result.isError || part.result.content == "" {
        continue;
      }
      var tr := part.result;
      if tr.name in PROTECTED_TOOLS {
        continue;
      }
      if env.protect(tr) {
        continue;
      }
      if HasPrefix(tr.content, NOTICE) {
        s := s.(stopped := true);
        StoppedParts(env, s0, i, parts, j + 1, |parts|);
        return s;
      }
      var tokenEstimate := EstimateTokens(tr.content);
      if s.kept < PROTECT_TOKENS {
        s := s.(kept := s.kept + tokenEstimate);
        continue;
      }
      s := s.(targets := s.targets + [Slot(i, j)], prunable := s.prunable + tokenEstimate);
    }
  }

  lemma {:induction false} StoppedParts(env: Env, s: Scan, i: nat, parts: seq<Part>, n: nat, k: nat)
    requires n <= k <= |parts| && VisitParts(env, s, i, parts, n).stopped
    ensures VisitParts(env, s, i, parts, k) == VisitParts(env, s, i, parts, n)
    decreases k
  {
    if n < k {
      StoppedParts(env, s, i, parts, n, k - 1);
    }
  }

  lemma {:induction false} StoppedWalk(env: Env, msgs: seq<Message>, n: nat, k: nat)
    requires k <= n <= |msgs| && Walked(env, msgs, n).stopped
    ensures Walked(env, msgs, k) == Walked(env, msgs, n)
    decreases n - k
  {
    if k < n {
      StoppedWalk(env, msgs, n, k + 1);
    }
  }

  method PruneToolResults(env: Env, msgs: seq<Message>) returns (result: seq<Message>)
    ensures result == Pruned(env, msgs)
  {
    hide VisitParts, Cleared;
    if |msgs| == 0 {
      return msgs;
    }
    var s := START;
    var i := |msgs|;
    while i > 0 && !s.stopped
      invariant 0 <= i <= |msgs| && s == Walked(env, msgs, i)
    {
      i := i - 1;
      var m := msgs[i];
      match m.role {
        case User =>
          s := s.(userTurns := s.userTurns + 1);
          if s.userTurns < RECENT_USER_TURNS {
            continue;
          }
        case Assistant =>
          if m.summary {
            s := s.(stopped := true);
            break;
          }
        case _ =>
      }
      if s.userTurns < RECENT_USER_TURNS {
        continue;
      }
      if m.role != T.Tool {
        continue;
      }
      if i in env.cacheProtected {
        continue;
      }
      s := ScanParts(env, s, i, m.parts);
    }
    if s.stopped {
      StoppedWalk(env, msgs, i, 0);
    }
    if s.prunable <= MIN_TOKENS || |s.targets| == 0 {
      return msgs;
    }
    WalkTargets(env, msgs, 0);
    result := ApplyPruning(env, msgs, s.targets);
  }

  // ----------------------------------------------------- what the walk finds

  /** Distinct eligible slots, none of them beyond part `n` of message `i` in the order of the walk. */
  ghost predicate Found(env: Env, msgs: seq<Message>, targets: seq<Slot>, i: nat, n: nat) {
    Targets(env, msgs, targets) && forall t :: t in targets ==> t.i > i || (t.i == i && t.j < n)
  }

  lemma {:induction false} PartsFound(env: Env, msgs: seq<Message>, s: Scan, i: nat, n: nat)
    requires i < |msgs| && n <= |msgs[i].parts| && msgs[i].role.Tool? && Found(env, msgs, s.targets, i, 0)
    ensures Found(env, msgs, VisitParts(env, s, i, msgs[i].parts, n).targets, i, n)
  {
    hide Eligible, EstimateTokens;
    if n > 0 {
      PartsFound(env, msgs, s, i, n - 1);
    }
  }

  lemma {:induction false} WalkTargets(env: Env, msgs: seq<Message>, k: nat)
    requires k <= |msgs|
    ensures Targets(env, msgs, Walked(env, msgs, k).targets)
    ensures forall t :: t in Walked(env, msgs, k).targets ==> t.i >= k
    decreases |msgs| - k
  {
    hide Eligible, VisitParts;
    if k < |msgs| {
      WalkTargets(env, msgs, k + 1);
      var s := Walked(env, msgs, k + 1);
      if Looked(env, s, msgs[k], k) {
        PartsFound(env, msgs, s, k, |msgs[k].parts|);
      }
    }
  }

  /** How many user turns there are from message `k` on. */
  function UsersFrom(msgs: seq<Message>, k: nat): nat
    requires k <= |msgs|
    decreases |msgs| - k
  {
    if k == |msgs| then 0 else UsersFrom(msgs, k + 1) + (if msgs[k].role.User? then 1 else 0)
  }

  predicate IsSummary(m: Message) {
    m.role.Assistant? && m.summary
  }

  /** A message behind two user turns and before no summary. */
  ghost predicate Old(msgs: seq<Message>, i: nat) {
    && i < |msgs| && UsersFrom(msgs, i) >= 2
    && forall k :: i <= k < |msgs| ==> !IsSummary(msgs[k])
  }

  lemma {:induction false} PartsTargetOwn(env: Env, s: Scan, i: nat, parts: seq<Part>, n: nat)
    requires n <= |parts|
    ensures VisitParts(env, s, i, parts, n).userTurns == s.userTurns
    ensures forall t :: t in VisitParts(env, s, i, parts, n).targets ==> t in s.targets || t.i == i
  {
    hide Eligible, EstimateTokens;
    if n > 0 {
      PartsTargetOwn(env, s, i, parts, n - 1);
    }
  }

  lemma {:induction false} TargetsAreOld(env: Env, msgs: seq<Message>, k: nat)
    requires k <= |msgs|
    ensures var s := Walked(env, msgs, k);
            && (!s.stopped ==> s.userTurns == UsersFrom(msgs, k) && forall j :: k <= j < |msgs| ==> !IsSummary(msgs[j]))
            && (forall t :: t in s.targets ==> Old(msgs, t.i) && t.i !in env.cacheProtected)
    decreases |msgs| - k
  {
    hide VisitParts;
    if k < |msgs| {
      TargetsAreOld(env, msgs, k + 1);
      var s := Walked(env, msgs, k + 1);
      if Looked(env, s, msgs[k], k) {
        PartsTargetOwn(env, s, k, msgs[k].parts, |msgs[k].parts|);
      }
    }
  }

  // -------------------------------------------------------------- the budgets

  function SlotTokens(msgs: seq<Message>, t: Slot): nat {
    if t.i < |msgs| && t.j < |msgs[t.i].parts| && msgs[t.i].parts[t.j].ResultPart? then
      EstimateTokens(msgs[t.i].parts[t.j].result.content)
    else 0
  }

  function Tokens(msgs: seq<Message>, slots: seq<Slot>): nat {
    if slots == [] then 0 else Tokens(msgs, slots[..|slots| - 1]) + SlotTokens(msgs, slots[|slots| - 1])
  }

  lemma TokensAppend(msgs: seq<Message>, slots: seq<Slot>, t: Slot)
    ensures Tokens(msgs, slots + [t]) == Tokens(msgs, slots) + SlotTokens(msgs, t)
  {
    assert (slots + [t])[..|slots|] == slots;
  }

  /** The part is passed because the protected budget lasts. */
  function SparedBy(env: Env, s: Scan, slot: Slot, p: Part): seq<Slot> {
    if !s.stopped && Eligible(env, p) && !HasPrefix(p.result.content, NOTICE) && s.kept < PROTECT_TOKENS then [slot] else []
  }

  /** The part is picked because the protected budget is used up. */
  function PickedBy(env: Env, s: Scan, slot: Slot, p: Part): seq<Slot> {
    if !s.stopped && Eligible(env, p) && !HasPrefix(p.result.content, NOTICE) && s.kept >= PROTECT_TOKENS then [slot] else []
  }

  function SparedParts(env: Env, s: Scan, i: nat, parts: seq<Part>, n: nat): seq<Slot>
    requires n <= |parts|
  {
    if n == 0 then [] else
    SparedParts(env, s, i, parts, n - 1) + SparedBy(env, VisitParts(env, s, i, parts, n - 1), Slot(i, n - 1), parts[n - 1])
  }

  function PickedParts(env: Env, s: Scan, i: nat, parts: seq<Part>, n: nat): seq<Slot>
    requires n <= |parts|
  {
    if n == 0 then [] else
    PickedParts(env, s, i, parts, n - 1) + PickedBy(env, VisitParts(env, s, i, parts, n - 1), Slot(i, n - 1), parts[n - 1])
  }

  /** The eligible results the walk passes while the protected budget lasts. */
  function Spared(env: Env, msgs: seq<Message>, k: nat): seq<Slot>
    requires k <= |msgs|
    decreases |msgs| - k
  {
    if k == |msgs| then [] else
    var s := Walked(env, msgs, k + 1);
    Spared(env, msgs, k + 1)
    + (if Looked(env, s, msgs[k], k) then SparedParts(env, s, k, msgs[k].parts, |msgs[k].parts|) else [])
  }

  /** From `s` to `s'` the counters grow by the tokens of what was spared and of what was picked. */
  ghost predicate Counted(msgs: seq<Message>, s: Scan, s': Scan, spared: seq<Slot>, picked: seq<Slot>) {
    && s'.kept == s.kept + Tokens(msgs, spared)
    && s'.prunable == s.prunable + Tokens(msgs, picked)
    && s'.targets == s.targets + picked
    && (picked != [] ==> s'.kept >= PROTECT_TOKENS)
  }

  lemma PartCounted(env: Env, msgs: seq<Message>, s: Scan, slot: Slot, p: Part)
    requires slot.i < |msgs| && slot.j < |msgs[slot.i].parts| && msgs[slot.i].parts[slot.j] == p
    ensures Counted(msgs, s, VisitPart(env, s, slot, p), SparedBy(env, s, slot, p), PickedBy(env, s, slot, p))
  {
    hide EstimateTokens, HasPrefix;
    TokensAppend(msgs, [], slot);
    assert [] + [slot] == [slot];
  }

  lemma {:induction false} TokensConcat(msgs: seq<Message>, a: seq<Slot>, b: seq<Slot>)
    ensures Tokens(msgs, a + b) == Tokens(msgs, a) + Tokens(msgs, b)
    decreases |b|
  {
    hide SlotTokens;
    if b == [] {
      assert a + b == a;
    } else {
      assert (a + b)[..|a + b| - 1] == a + b[..|b| - 1];
      TokensConcat(msgs, a, b[..|b| - 1]);
    }
  }

  lemma CountedTogether(msgs: seq<Message>, a: Scan, b: Scan, c: Scan,
                        spared: seq<Slot>, picked: seq<Slot>, spared': seq<Slot>, picked': seq<Slot>)
    requires Counted(msgs, a, b, spared, picked) && Counted(msgs, b, c, spared', picked')
    ensures Counted(msgs, a, c, spared + spared', picked + picked')
  {
    hide Tokens;
    TokensConcat(msgs, spared, spared');
    TokensConcat(msgs, picked, picked');
  }

  lemma CountedNothing(msgs: seq<Message>, s: Scan)
    ensures Counted(msgs, s, s, [], [])
  {
  }

  /** The counters are the tokens of what was spared and of what was picked. */
  lemma {:induction false} PartsCounted(env: Env, msgs: seq<Message>, s: Scan, i: nat, n: nat)
    requires i < |msgs| && n <= |msgs[i].parts|
    ensures Counted(msgs, s, VisitParts(env, s, i, msgs[i].parts, n), SparedParts(env, s, i, msgs[i].parts, n),
                    PickedParts(env, s, i, msgs[i].parts, n))
  {
    hide Counted, VisitPart, SparedBy, PickedBy;
    var parts := msgs[i].parts;
    if n == 0 {
      CountedNothing(msgs, s);
    } else {
      var before := VisitParts(env, s, i, parts, n - 1);
      PartsCounted(env, msgs, s, i, n - 1);
      PartCounted(env, msgs, before, Slot(i, n - 1), parts[n - 1]);
      CountedTogether(msgs, s, before, VisitParts(env, s, i, parts, n),
                      SparedParts(env, s, i, parts, n - 1), PickedParts(env, s, i, parts, n - 1),
                      SparedBy(env, before, Slot(i, n - 1), parts[n - 1]),
                      PickedBy(env, before, Slot(i, n - 1), parts[n - 1]));
    }
  }

  /** Spared and picked parts are of this message, and no part is both. */
  lemma {:induction false} PartsApart(env: Env, s: Scan, i: nat, parts: seq<Part>, n: nat)
    requires n <= |parts|
    ensures forall t :: t in SparedParts(env, s, i, parts, n) || t in PickedParts(env, s, i, parts, n) ==> t.i == i && t.j < n
    ensures forall t :: t in SparedParts(env, s, i, parts, n) ==> t !in PickedParts(env, s, i, parts, n)
  {
    hide VisitParts, Eligible, HasPrefix;
    if n > 0 {
      PartsApart(env, s, i, parts, n - 1);
    }
  }

  function Picked(env: Env, msgs: seq<Message>, k: nat): seq<Slot>
    requires k <= |msgs|
    decreases |msgs| - k
  {
    if k == |msgs| then [] else
    var s := Walked(env, msgs, k + 1);
    Picked(env, msgs, k + 1)
    + (if Looked(env, s, msgs[k], k) then PickedParts(env, s, k, msgs[k].parts, |msgs[k].parts|) else [])
  }

  lemma MessageCounted(env: Env, msgs: seq<Message>, k: nat)
    requires k < |msgs|
    ensures var s := Walked(env, msgs, k + 1);
            Counted(msgs, s, Walked(env, msgs, k),
                    if Looked(env, s, msgs[k], k) then SparedParts(env, s, k, msgs[k].parts, |msgs[k].parts|) else [],
                    if Looked(env, s, msgs[k], k) then PickedParts(env, s, k, msgs[k].parts, |msgs[k].parts|) else [])
  {
    hide VisitParts, SparedParts, PickedParts;
    var s := Walked(env, msgs, k + 1);
    if Looked(env, s, msgs[k], k) {
      PartsCounted(env, msgs, s, k, |msgs[k].parts|);
    } else {
      CountedNothing(msgs, s);
    }
  }

  lemma {:induction false} WalkCounted(env: Env, msgs: seq<Message>, k: nat)
    requires k <= |msgs|
    ensures Counted(msgs, START, Walked(env, msgs, k), Spared(env, msgs, k), Picked(env, msgs, k))
    decreases |msgs| - k
  {
    hide Counted, VisitMessage, SparedParts, PickedParts;
    if k == |msgs| {
      CountedNothing(msgs, START);
    } else {
      WalkCounted(env, msgs, k + 1);
      MessageCounted(env, msgs, k);
      var s := Walked(env, msgs, k + 1);
      var looked := Looked(env, s, msgs[k], k);
      CountedTogether(msgs, START, s, Walked(env, msgs, k), Spared(env, msgs, k + 1), Picked(env, msgs, k + 1),
                      if looked then SparedParts(env, s, k, msgs[k].parts, |msgs[k].parts|) else [],
                      if looked then PickedParts(env, s, k, msgs[k].parts, |msgs[k].parts|) else []);
    }
  }

  lemma {:induction false} WalkApart(env: Env, msgs: seq<Message>, k: nat)
    requires k <= |msgs|
    ensures forall t :: t in Spared(env, msgs, k) || t in Picked(env, msgs, k) ==> t.i >= k
    ensures forall t :: t in Spared(env, msgs, k) ==> t !in Picked(env, msgs, k)
    decreases |msgs| - k
  {
    hide Walked, Looked, SparedParts, PickedParts;
    if k < |msgs| {
      WalkApart(env, msgs, k + 1);
      PartsApart(env, Walked(env, msgs, k + 1), k, msgs[k].parts, |msgs[k].parts|);
    }
  }

  /** Only the content of eligible results behind two user turns and before no summary ever changes. */
  lemma OnlyOldResultsChange(env: Env, msgs: seq<Message>, i: nat, j: nat)
    requires i < |msgs| && j < |msgs[i].parts|
    ensures var r := Pruned(env, msgs);
            && |r| == |msgs| && |r[i].parts| == |msgs[i].parts|
            && r[i] == msgs[i].(parts := r[i].parts)
            && (r[i].parts[j] != msgs[i].parts[j] ==>
                  && Old(msgs, i) && i !in env.cacheProtected && Eligible(env, msgs[i].parts[j])
                  && r[i].parts[j] == ResultPart(msgs[i].parts[j].result.(content := r[i].parts[j].result.content)))
  {
    hide Walked, Old;
    TargetsAreOld(env, msgs, 0);
    WalkTargets(env, msgs, 0);
  }

  /**
  If anything is cleared, more than 20,000 estimated tokens are, and at least
  40,000 tokens of eligible results met before stay as they were.
  */
  lemma ClearingIsWorthIt(env: Env, msgs: seq<Message>)
    ensures Pruned(env, msgs) != msgs ==>
      && Tokens(msgs, Walked(env, msgs, 0).targets) > MIN_TOKENS
      && Tokens(msgs, Spared(env, msgs, 0)) >= PROTECT_TOKENS
      && forall t :: t in Spared(env, msgs, 0) && t.i < |msgs| && t.j < |msgs[t.i].parts| ==>
           Pruned(env, msgs)[t.i].parts[t.j] == msgs[t.i].parts[t.j]
  {
    hide Walked, Spared, Picked;
    WalkCounted(env, msgs, 0);
    WalkApart(env, msgs, 0);
    assert [] + Picked(env, msgs, 0) == Picked(env, msgs, 0);
  }

  // -------------------------------------------------------------- idempotence

  /** Protection that looks at anything but the content. */
  ghost predicate IgnoresContent(env: Env) {
    forall r: ToolResult, c :: env.protect(r) == env.protect(r.(content := c))
  }

  lemma {:induction false} PartsGrow(env: Env, s: Scan, i: nat, parts: seq<Part>, n: nat, k: nat)
    requires n <= k <= |parts|
    ensures var a, b := VisitParts(env, s, i, parts, n).targets, VisitParts(env, s, i, parts, k).targets;
            a <= b && forall x :: |a| <= x < |b| ==> b[x].i == i && b[x].j >= n
    decreases k
  {
    hide Eligible, EstimateTokens, HasPrefix;
    if n < k {
      PartsGrow(env, s, i, parts, n, k - 1);
    }
  }

  lemma {:induction false} WalkGrows(env: Env, msgs: seq<Message>, n: nat, k: nat)
    requires k <= n <= |msgs|
    ensures var a, b := Walked(env, msgs, n).targets, Walked(env, msgs, k).targets;
            a <= b && forall x :: |a| <= x < |b| ==> b[x].i < n
    decreases n - k
  {
    hide VisitParts;
    if k < n {
      WalkGrows(env, msgs, n, k + 1);
      var s := Walked(env, msgs, k + 1);
      if Looked(env, s, msgs[k], k) {
        PartsNone(env, s, k, msgs[k].parts);
        PartsGrow(env, s, k, msgs[k].parts, 0, |msgs[k].parts|);
      }
    }
  }

  lemma PartsNone(env: Env, s: Scan, i: nat, parts: seq<Part>)
    ensures VisitParts(env, s, i, parts, 0) == s
  {
  }

  /** A cleared result stays eligible and begins with the notice. */
  lemma ClearedStops(env: Env, s: Scan, slot: Slot, r: ToolResult)
    requires IgnoresContent(env) && Eligible(env, ResultPart(r)) && !s.stopped
    ensures VisitPart(env, s, slot, ResultPart(ClearedResult(env, r))) == s.(stopped := true)
  {
    hide EstimateTokens;
    assert ClearedResult(env, r) == r.(content := ClearedResult(env, r).content);
    assert NOTICE <= ClearedResult(env, r).content;
  }

  /** The second walk goes along with the first until its first target, and stops there. */
  ghost predicate Follows(first: Scan, second: Scan) {
    if first.targets == [] then second == first else second.stopped && second.targets == []
  }

  lemma {:induction false} SecondParts(env: Env, s: Scan, i: nat, parts: seq<Part>, targets: seq<Slot>, n: nat)
    requires IgnoresContent(env) && n <= |parts| && s.targets == []
    requires forall j :: 0 <= j < n ==> (Slot(i, j) in targets <==> Slot(i, j) in VisitParts(env, s, i, parts, n).targets)
    ensures Follows(VisitParts(env, s, i, parts, n), VisitParts(env, s, i, ClearedParts(env, parts, i, targets), n))
  {
    hide ClearedResult, EstimateTokens, HasPrefix, IgnoresContent;
    if n > 0 {
      var first := VisitParts(env, s, i, parts, n - 1);
      var parts' := ClearedParts(env, parts, i, targets);
      PartsGrow(env, s, i, parts, n - 1, n);
      forall j | 0 <= j < n - 1 ensures Slot(i, j) in targets <==> Slot(i, j) in first.targets {
        var all := VisitParts(env, s, i, parts, n).targets;
        assert all == first.targets + all[|first.targets|..];
      }
      SecondParts(env, s, i, parts, targets, n - 1);
      SecondPart(env, s, i, parts, targets, n);
    }
  }

  lemma SecondPart(env: Env, s: Scan, i: nat, parts: seq<Part>, targets: seq<Slot>, n: nat)
    requires IgnoresContent(env) && 0 < n <= |parts|
    requires Slot(i, n - 1) in targets <==> Slot(i, n - 1) in VisitParts(env, s, i, parts, n).targets
    requires Follows(VisitParts(env, s, i, parts, n - 1), VisitParts(env, s, i, ClearedParts(env, parts, i, targets), n - 1))
    ensures Follows(VisitParts(env, s, i, parts, n), VisitParts(env, s, i, ClearedParts(env, parts, i, targets), n))
  {
    hide ClearedResult, EstimateTokens, HasPrefix, IgnoresContent;
    var first := VisitParts(env, s, i, parts, n - 1);
    if first.targets == [] && VisitPart(env, first, Slot(i, n - 1), parts[n - 1]).targets != [] {
      ClearedStops(env, first, Slot(i, n - 1), parts[n - 1].result);
    }
  }

  /** What the whole walk picks in message `k` is what it picks while there. */
  lemma PickedHere(env: Env, msgs: seq<Message>, k: nat, j: nat)
    requires k < |msgs|
    ensures Slot(k, j) in Walked(env, msgs, 0).targets <==> Slot(k, j) in Walked(env, msgs, k).targets
  {
    hide Walked;
    WalkGrows(env, msgs, k, 0);
    var a, b := Walked(env, msgs, k).targets, Walked(env, msgs, 0).targets;
    assert b == a + b[|a|..];
  }

  lemma SameMessage(env: Env, msgs: seq<Message>, targets: seq<Slot>, k: nat)
    requires k < |msgs|
    ensures Cleared(env, msgs, targets)[k] == msgs[k].(parts := ClearedParts(env, msgs[k].parts, k, targets))
  {
  }

  lemma SecondMessage(env: Env, msgs: seq<Message>, s: Scan, k: nat, targets: seq<Slot>)
    requires IgnoresContent(env) && k < |msgs| && s.targets == []
    requires Looked(env, s, msgs[k], k) ==> forall j :: 0 <= j < |msgs[k].parts| ==>
      (Slot(k, j) in targets <==> Slot(k, j) in VisitParts(env, s, k, msgs[k].parts, |msgs[k].parts|).targets)
    ensures Follows(VisitMessage(env, s, msgs[k], k), VisitMessage(env, s, Cleared(env, msgs, targets)[k], k))
  {
    hide VisitParts, ClearedParts, IgnoresContent;
    SameMessage(env, msgs, targets, k);
    if Looked(env, s, msgs[k], k) {
      ClearedLength(env, msgs[k].parts, k, targets);
      SecondParts(env, s, k, msgs[k].parts, targets, |msgs[k].parts|);
    }
  }

  lemma ClearedLength(env: Env, parts: seq<Part>, i: nat, targets: seq<Slot>)
    ensures |ClearedParts(env, parts, i, targets)| == |parts|
  {
  }

  lemma {:induction false} SecondWalk(env: Env, msgs: seq<Message>, k: nat)
    requires IgnoresContent(env) && k <= |msgs|
    ensures Follows(Walked(env, msgs, k), Walked(env, Cleared(env, msgs, Walked(env, msgs, 0).targets), k))
    decreases |msgs| - k
  {
    hide VisitMessage, IgnoresContent, ClearedParts;
    var targets := Walked(env, msgs, 0).targets;
    if k < |msgs| {
      SecondWalk(env, msgs, k + 1);
      var s := Walked(env, msgs, k + 1);
      if s.targets == [] {
        forall j: nat ensures Slot(k, j) in targets <==> Slot(k, j) in Walked(env, msgs, k).targets {
          PickedHere(env, msgs, k, j);
        }
        VisitLooked(env, s, msgs[k], k);
        SecondMessage(env, msgs, s, k, targets);
      } else {
        VisitStopped(env, Walked(env, Cleared(env, msgs, targets), k + 1), Cleared(env, msgs, targets)[k], k);
        WalkGrows(env, msgs, k + 1, k);
      }
    }
  }

  lemma VisitLooked(env: Env, s: Scan, m: Message, i: nat)
    ensures Looked(env, s, m, i) ==> VisitMessage(env, s, m, i) == VisitParts(env, s, i, m.parts, |m.parts|)
  {
    hide VisitParts;
  }

  lemma VisitStopped(env: Env, s: Scan, m: Message, i: nat)
    requires s.stopped
    ensures VisitMessage(env, s, m, i) == s
  {
    hide VisitParts;
  }

  /** Pruning twice is pruning once, when protection does not depend on the content. */
  lemma PruneIdempotent(env: Env, msgs: seq<Message>)
    requires IgnoresContent(env)
    ensures Pruned(env, Pruned(env, msgs)) == Pruned(env, msgs)
  {
    hide Walked, Cleared, IgnoresContent;
    SecondWalk(env, msgs, 0);
  }
}
