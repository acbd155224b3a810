/**
Exactly what pruning clears, told from positions and token counts alone: of the
old results met from the end and before the first notice, those beyond the
protected budget, when they are worth it.
*/
module PruneBudget {
  import opened Common
  import opened Persisted
  import opened TextOps
  import opened Prune

  // ------------------------------------------------------------- estimation

  /** Every character is counted once, as one of the two kinds. */
  lemma {:induction false} CountsSplit(a: string, c: char, b: string)
    ensures NonAsciiCount(a + [c] + b) == NonAsciiCount(a) + (if c as int < 0x80 then 0 else 1) + NonAsciiCount(b)
    ensures AsciiCount(a + [c] + b) == AsciiCount(a) + (if c as int < 0x80 then 1 else 0) + AsciiCount(b)
    decreases |a|
  {
    var s := a + [c] + b;
    if a == "" {
      assert s[1..] == b;
    } else {
      assert s[1..] == a[1..] + [c] + b;
      CountsSplit(a[1..], c, b);
    }
  }

  lemma {:induction false} CountsAll(s: string)
    ensures AsciiCount(s) + NonAsciiCount(s) == |s|
  {
    if s != "" {
      CountsAll(s[1..]);
    }
  }

  /** One token for each character outside ASCII, and for the others a quarter of their number, rounded up. */
  lemma EstimateIsQuarter(s: string)
    ensures var wide := NonAsciiCount(s);
            var quarters := EstimateTokens(s) - wide;
            4 * quarters - 4 < |s| - wide <= 4 * quarters
  {
    CountsAll(s);
  }

  // -------------------------------------------------- which results are met

  /** The walk goes from the last message to the first, and through the parts of each in order. */
  predicate Earlier(a: Slot, b: Slot) {
    a.i > b.i || (a.i == b.i && a.j < b.j)
  }

  /** An old result that may be cleared: of a tool message, not cache protected, and eligible. */
  ghost predicate Clearable(env: Env, msgs: seq<Message>, t: Slot) {
    && t.i < |msgs| && t.j < |msgs[t.i].parts| && msgs[t.i].role.Tool?
    && Old(msgs, t.i) && t.i !in env.cacheProtected && Eligible(env, msgs[t.i].parts[t.j])
  }

  ghost predicate Noticed(env: Env, msgs: seq<Message>, t: Slot) {
    Clearable(env, msgs, t) && HasPrefix(msgs[t.i].parts[t.j].result.content, NOTICE)
  }

  /** Such a result that no earlier clearing has replaced, met before any that one has. */
  ghost predicate Met(env: Env, msgs: seq<Message>, t: Slot) {
    && Clearable(env, msgs, t) && !Noticed(env, msgs, t)
    && forall u :: Noticed(env, msgs, u) ==> !Earlier(u, t)
  }

  ghost function MetParts(env: Env, msgs: seq<Message>, i: nat, n: nat): seq<Slot> {
    if n == 0 then [] else
    MetParts(env, msgs, i, n - 1) + (if Met(env, msgs, Slot(i, n - 1)) then [Slot(i, n - 1)] else [])
  }

  /** The results met in message `k` and later ones, in the order of the walk. */
  ghost function MetFrom(env: Env, msgs: seq<Message>, k: nat): seq<Slot>
    requires k <= |msgs|
    decreases |msgs| - k
  {
    if k == |msgs| then [] else MetFrom(env, msgs, k + 1) + MetParts(env, msgs, k, |msgs[k].parts|)
  }

  ghost predicate InOrder(slots: seq<Slot>) {
    forall a, b :: 0 <= a < b < |slots| ==> Earlier(slots[a], slots[b])
  }

  lemma {:induction false} MetPartsAre(env: Env, msgs: seq<Message>, i: nat, n: nat)
    ensures InOrder(MetParts(env, msgs, i, n))
    ensures forall t :: t in MetParts(env, msgs, i, n) <==> t.i == i && t.j < n && Met(env, msgs, t)
  {
    hide Met;
    if n > 0 {
      MetPartsAre(env, msgs, i, n - 1);
    }
  }

  /** The list holds exactly the results met, each once, in the order of the walk. */
  lemma {:induction false} MetFromAre(env: Env, msgs: seq<Message>, k: nat)
    requires k <= |msgs|
    ensures InOrder(MetFrom(env, msgs, k))
    ensures forall t :: t in MetFrom(env, msgs, k) <==> t.i >= k && Met(env, msgs, t)
    decreases |msgs| - k
  {
    hide MetParts;
    if k < |msgs| {
      MetFromAre(env, msgs, k + 1);
      MetPartsAre(env, msgs, k, |msgs[k].parts|);
      var later, here := MetFrom(env, msgs, k + 1), MetParts(env, msgs, k, |msgs[k].parts|);
      forall t: Slot ensures t in later + here <==> t.i >= k && Met(env, msgs, t) {
        assert Met(env, msgs, t) && t.i == k ==> t.j < |msgs[k].parts|;
      }
      forall a, b | 0 <= a < b < |later + here| ensures Earlier((later + here)[a], (later + here)[b]) {
        assert a < |later| ==> later[a] in later;
        assert b >= |later| ==> here[b - |later|] in here;
      }
    }
  }

  // --------------------------------------------------------------- the budget

  /** The first `n` of the slots use up the protected budget, and fewer do not. */
  ghost predicate Protects(msgs: seq<Message>, slots: seq<Slot>, n: nat) {
    && n <= |slots|
    && (forall x :: 0 <= x < n ==> Tokens(msgs, slots[..x]) < 40_000)
    && (n < |slots| ==> Tokens(msgs, slots[..n]) >= 40_000)
  }

  /** What the counters of the walk mean. */
  ghost predicate Budgeted(msgs: seq<Message>, slots: seq<Slot>, s: Scan) {
    exists n :: BudgetedAt(msgs, slots, s, n)
  }

  ghost predicate BudgetedAt(msgs: seq<Message>, slots: seq<Slot>, s: Scan, n: nat) {
    && Protects(msgs, slots, n)
    && s.kept == Tokens(msgs, slots[..n])
    && s.targets == slots[n..]
    && s.prunable == Tokens(msgs, slots[n..])
  }

  lemma OneMore(msgs: seq<Message>, slots: seq<Slot>, s: Scan, t: Slot, s': Scan)
    requires Budgeted(msgs, slots, s)
    requires s'.kept == s.kept + (if s.kept < PROTECT_TOKENS then SlotTokens(msgs, t) else 0)
    requires s'.prunable == s.prunable + (if s.kept < PROTECT_TOKENS then 0 else SlotTokens(msgs, t))
    requires s'.targets == s.targets + (if s.kept < PROTECT_TOKENS then [] else [t])
    ensures Budgeted(msgs, slots + [t], s')
  {
    hide Tokens, SlotTokens;
    var n: nat :| BudgetedAt(msgs, slots, s, n);
    TokensAppend(msgs, slots[..n], t);
    TokensAppend(msgs, slots[n..], t);
    var more := slots + [t];
    assert forall x :: 0 <= x <= |slots| ==> more[..x] == slots[..x];
    if s.kept < PROTECT_TOKENS {
      assert n == |slots| && slots[..n] == slots;
      assert more[..n + 1] == slots[..n] + [t] && more[n + 1..] == slots[n..];
      assert BudgetedAt(msgs, more, s', n + 1);
    } else {
      assert more[n..] == slots[n..] + [t];
      assert BudgetedAt(msgs, more, s', n);
    }
  }

  lemma NothingYet(msgs: seq<Message>)
    ensures Budgeted(msgs, [], START)
  {
    assert BudgetedAt(msgs, [], START, 0);
  }

  // ------------------------------------------------------- the walk, exactly

  /** Whether the walk has stopped before message `k`. */
  ghost predicate StopsBefore(env: Env, msgs: seq<Message>, k: nat) {
    || (exists m :: k <= m < |msgs| && IsSummary(msgs[m]))
    || (exists u :: Noticed(env, msgs, u) && u.i >= k)
  }

  ghost predicate StopsWithin(env: Env, msgs: seq<Message>, k: nat, n: nat) {
    StopsBefore(env, msgs, k + 1) || exists j :: 0 <= j < n && Noticed(env, msgs, Slot(k, j))
  }

  lemma VisitsExactly(env: Env, msgs: seq<Message>, s: Scan, k: nat, j: nat, slots: seq<Slot>)
    requires k < |msgs| && j < |msgs[k].parts| && msgs[k].role.Tool? && Old(msgs, k) && k !in env.cacheProtected
    requires Budgeted(msgs, slots, s) && (s.stopped <==> StopsWithin(env, msgs, k, j))
    ensures var t, p := Slot(k, j), msgs[k].parts[j];
            var s' := VisitPart(env, s, t, p);
            && Budgeted(msgs, slots + (if Met(env, msgs, t) then [t] else []), s')
            && (s'.stopped <==> StopsWithin(env, msgs, k, j + 1))
  {
    hide Budgeted, EstimateTokens, HasPrefix, Old, Met, StopsWithin;
    var t, p := Slot(k, j), msgs[k].parts[j];
    MetIff(env, msgs, k, j);
    StopsIff(env, msgs, k, j);
    if Met(env, msgs, t) {
      OneMore(msgs, slots, s, t, VisitPart(env, s, t, p));
    } else {
      assert slots + [] == slots;
      SameCounters(msgs, slots, s, VisitPart(env, s, t, p));
    }
  }

  lemma SameCounters(msgs: seq<Message>, slots: seq<Slot>, s: Scan, s': Scan)
    requires Budgeted(msgs, slots, s)
    requires s'.kept == s.kept && s'.prunable == s.prunable && s'.targets == s.targets
    ensures Budgeted(msgs, slots, s')
  {
    var n: nat :| BudgetedAt(msgs, slots, s, n);
    assert BudgetedAt(msgs, slots, s', n);
  }

  lemma StopsIff(env: Env, msgs: seq<Message>, k: nat, j: nat)
    ensures StopsWithin(env, msgs, k, j + 1) <==> StopsWithin(env, msgs, k, j) || Noticed(env, msgs, Slot(k, j))
  {
    hide Noticed, StopsBefore;
  }

  lemma MetIff(env: Env, msgs: seq<Message>, k: nat, j: nat)
    requires k < |msgs| && j < |msgs[k].parts| && msgs[k].role.Tool? && Old(msgs, k) && k !in env.cacheProtected
    ensures Met(env, msgs, Slot(k, j)) <==>
              !StopsWithin(env, msgs, k, j) && Eligible(env, msgs[k].parts[j])
              && !HasPrefix(msgs[k].parts[j].result.content, NOTICE)
  {
    hide HasPrefix, Eligible;
    var t := Slot(k, j);
    if StopsWithin(env, msgs, k, j) {
      if u :| Noticed(env, msgs, u) && u.i >= k + 1 {
        assert Earlier(u, t);
      } else {
        var i :| 0 <= i < j && Noticed(env, msgs, Slot(k, i));
        assert Earlier(Slot(k, i), t);
      }
    } else {
      forall u | Noticed(env, msgs, u) ensures !Earlier(u, t) {
        assert u == Slot(u.i, u.j);
      }
    }
  }

  lemma StartsWithin(env: Env, msgs: seq<Message>, k: nat)
    ensures StopsWithin(env, msgs, k, 0) <==> StopsBefore(env, msgs, k + 1)
  {
    hide StopsBefore, Noticed;
  }

  lemma {:induction false} VisitPartsExactly(env: Env, msgs: seq<Message>, s: Scan, k: nat, n: nat, slots: seq<Slot>)
    requires k < |msgs| && n <= |msgs[k].parts| && msgs[k].role.Tool? && Old(msgs, k) && k !in env.cacheProtected
    requires Budgeted(msgs, slots, s) && (s.stopped <==> StopsBefore(env, msgs, k + 1))
    ensures var s' := VisitParts(env, s, k, msgs[k].parts, n);
            && Budgeted(msgs, slots + MetParts(env, msgs, k, n), s')
            && (s'.stopped <==> StopsWithin(env, msgs, k, n))
  {
    hide Budgeted, VisitPart, Old, Met, StopsWithin, StopsBefore;
    if n == 0 {
      StartsWithin(env, msgs, k);
      assert slots + [] == slots;
    } else {
      VisitPartsExactly(env, msgs, s, k, n - 1, slots);
      var before := slots + MetParts(env, msgs, k, n - 1);
      VisitsExactly(env, msgs, VisitParts(env, s, k, msgs[k].parts, n - 1), k, n - 1, before);
      var one := if Met(env, msgs, Slot(k, n - 1)) then [Slot(k, n - 1)] else [];
      assert slots + MetParts(env, msgs, k, n) == before + one;
    }
  }

  /** Nothing is met in a message the walk does not look at. */
  lemma {:induction false} NoneMet(env: Env, msgs: seq<Message>, k: nat, n: nat)
    requires k < |msgs|
    requires !msgs[k].role.Tool? || !Old(msgs, k) || k in env.cacheProtected || StopsBefore(env, msgs, k + 1)
    ensures MetParts(env, msgs, k, n) == []
  {
    hide Old, Eligible;
    if n > 0 {
      NoneMet(env, msgs, k, n - 1);
      var t := Slot(k, n - 1);
      if Met(env, msgs, t) {
        NotStopped(env, msgs, k, t);
      }
    }
  }

  lemma NotStopped(env: Env, msgs: seq<Message>, k: nat, t: Slot)
    requires t.i == k && Met(env, msgs, t)
    ensures !StopsBefore(env, msgs, k + 1)
  {
    if u :| Noticed(env, msgs, u) && u.i >= k + 1 {
      assert Earlier(u, t);
    }
  }

  /** One more message moves the stop only if it is a summary or holds a cleared result. */
  lemma StopsFrom(env: Env, msgs: seq<Message>, k: nat)
    requires k < |msgs|
    ensures StopsBefore(env, msgs, k) <==> IsSummary(msgs[k]) || StopsWithin(env, msgs, k, |msgs[k].parts|)
  {
    hide HasPrefix, Eligible, Old;
    if u :| Noticed(env, msgs, u) && u.i == k {
      assert Noticed(env, msgs, Slot(k, u.j));
    }
  }

  lemma QuietWithin(env: Env, msgs: seq<Message>, k: nat)
    requires k < |msgs| && (!msgs[k].role.Tool? || !Old(msgs, k) || k in env.cacheProtected)
    ensures StopsWithin(env, msgs, k, |msgs[k].parts|) <==> StopsBefore(env, msgs, k + 1)
  {
    hide HasPrefix, Eligible, Old, StopsBefore;
  }

  lemma LookedIsOld(env: Env, msgs: seq<Message>, k: nat)
    requires k < |msgs|
    ensures var s := Walked(env, msgs, k + 1);
            !s.stopped ==> (Looked(env, s, msgs[k], k) <==> msgs[k].role.Tool? && Old(msgs, k) && k !in env.cacheProtected)
  {
    hide Walked;
    TargetsAreOld(env, msgs, k + 1);
  }

  lemma {:induction false} WalksExactly(env: Env, msgs: seq<Message>, k: nat)
    requires k <= |msgs|
    ensures var s := Walked(env, msgs, k);
            Budgeted(msgs, MetFrom(env, msgs, k), s) && (s.stopped <==> StopsBefore(env, msgs, k))
    decreases |msgs| - k
  {
    hide Budgeted, VisitParts, Old, MetParts, StopsWithin, StopsBefore, Looked;
    if k == |msgs| {
      NothingYet(msgs);
      StartsBefore(env, msgs);
    } else {
      WalksExactly(env, msgs, k + 1);
      var s, slots := Walked(env, msgs, k + 1), MetFrom(env, msgs, k + 1);
      StopsFrom(env, msgs, k);
      LookedIsOld(env, msgs, k);
      if !s.stopped && msgs[k].role.Tool? && Old(msgs, k) && k !in env.cacheProtected {
        VisitPartsExactly(env, msgs, s, k, |msgs[k].parts|, slots);
      } else {
        NoneMet(env, msgs, k, |msgs[k].parts|);
        assert slots + [] == slots;
        SameCounters(msgs, slots, s, Walked(env, msgs, k));
        if s.stopped {
          StopsStay(env, msgs, k);
        } else {
          QuietWithin(env, msgs, k);
        }
      }
    }
  }

  lemma StopsStay(env: Env, msgs: seq<Message>, k: nat)
    requires k < |msgs| && StopsBefore(env, msgs, k + 1)
    ensures StopsBefore(env, msgs, k)
  {
  }

  lemma StartsBefore(env: Env, msgs: seq<Message>)
    ensures !StopsBefore(env, msgs, |msgs|)
  {
  }

  /** A part after clearing. */
  ghost predicate IsCleared(env: Env, before: Part, after: Part) {
    && before.ResultPart? && after.ResultPart?
    && HasPrefix(after.result.content, "[Old tool result content cleared")
    && after.result == before.result.(content := after.result.content)
  }

  lemma UniqueSplit(msgs: seq<Message>, slots: seq<Slot>, n: nat, m: nat)
    requires Protects(msgs, slots, n) && Protects(msgs, slots, m)
    ensures n == m
  {
  }

  /**
  Exactly what pruning does, for every history.  Take the old results that may
  be cleared and are met before the first notice, in the order of the walk, and
  leave out the first ones, which use up 40,000 tokens.  If the others come to
  more than 20,000 tokens, each of them is cleared and begins with the notice
  afterwards, and everything else is as it was; otherwise nothing changes.
  */
  lemma PrunesExactly(env: Env, msgs: seq<Message>, n: nat)
    requires Protects(msgs, MetFrom(env, msgs, 0), n)
    ensures var beyond, r := MetFrom(env, msgs, 0)[n..], Pruned(env, msgs);
            if Tokens(msgs, beyond) > 20_000 then
              && |r| == |msgs|
              && forall i :: 0 <= i < |msgs| ==>
                   && r[i] == msgs[i].(parts := r[i].parts) && |r[i].parts| == |msgs[i].parts|
                   && forall j :: 0 <= j < |msgs[i].parts| ==>
                        if Slot(i, j) in beyond then IsCleared(env, msgs[i].parts[j], r[i].parts[j])
                        else r[i].parts[j] == msgs[i].parts[j]
            else r == msgs
  {
    hide Walked, MetFrom, EstimateTokens;
    var slots, s := MetFrom(env, msgs, 0), Walked(env, msgs, 0);
    WalksExactly(env, msgs, 0);
    var m: nat :| BudgetedAt(msgs, slots, s, m);
    UniqueSplit(msgs, slots, n, m);
    WalkTargets(env, msgs, 0);
    if Tokens(msgs, slots[n..]) > MIN_TOKENS {
      BeyondNotEmpty(msgs, slots[n..]);
      var r := Cleared(env, msgs, slots[n..]);
      forall i, j | 0 <= i < |msgs| && 0 <= j < |msgs[i].parts|
        ensures if Slot(i, j) in slots[n..] then IsCleared(env, msgs[i].parts[j], r[i].parts[j])
                else r[i].parts[j] == msgs[i].parts[j]
      {
        if Slot(i, j) in slots[n..] {
          assert Eligible(env, msgs[i].parts[j]);
          ClearedIsNoticed(env, msgs[i].parts[j].result);
        }
      }
    }
  }

  lemma BeyondNotEmpty(msgs: seq<Message>, slots: seq<Slot>)
    requires Tokens(msgs, slots) > MIN_TOKENS
    ensures slots != []
  {
  }

  lemma ClearedIsNoticed(env: Env, r: ToolResult)
    ensures HasPrefix(ClearedResult(env, r).content, NOTICE)
    ensures ClearedResult(env, r) == r.(content := ClearedResult(env, r).content)
  {
  }

  /** There is always such a split. */
  lemma {:induction false} SplitExists(msgs: seq<Message>, slots: seq<Slot>) returns (n: nat)
    ensures Protects(msgs, slots, n)
    decreases |slots|
  {
    hide Tokens;
    if slots == [] {
      n := 0;
    } else {
      var front := slots[..|slots| - 1];
      n := SplitExists(msgs, front);
      assert forall x :: 0 <= x <= |front| ==> front[..x] == slots[..x];
      if n == |front| && Tokens(msgs, slots[..n]) < PROTECT_TOKENS {
        n := |slots|;
      }
    }
  }
}
