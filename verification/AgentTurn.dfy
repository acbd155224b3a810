/**
One whole turn: from a persisted history, over prompt assembly, the rewriting
passes and the step loop, to every prompt the model is sent.
*/
module AgentTurn {
  import opened Common
  import P = Persisted
  import A = Prompt
  import AP = PromptPairing
  import C = CanceledBranches
  import S = PrepareStep
  import SP = StepPrompts
  import L = StepLoop
  import StepStream
  import T = Transcript

  /** The call's messages are the prompt assembled from a persisted history. */
  ghost predicate CalledWith(call: SP.Call, env: A.Env, persisted: seq<P.Message>) {
    SP.Accepted(call) && call.messages == A.Assembled(env, C.Trimmed(persisted))
  }

  /** The run's preparation is the sequence of rewriting passes, with messages that may join each step. */
  ghost predicate UsesPasses(prep: SP.Preparation, settings: S.Settings, injected: nat -> seq<T.Message>) {
    && (forall k :: S.Quiet(injected(k)))
    && (forall k, msgs :: prep.messages(k, msgs) == Some(S.Prepared(settings, msgs, injected(k))))
    && (forall k :: prep.system(k).None?)
  }

  lemma PassesPreparePaired(prep: SP.Preparation, settings: S.Settings, injected: nat -> seq<T.Message>)
    requires UsesPasses(prep, settings, injected)
    ensures SP.PreparesPaired(prep)
  {
    hide S.Prepared, T.WellPaired, S.Quiet;
    forall k, msgs | prep.messages(k, msgs).Some? && SP.Paired(msgs)
      ensures SP.Paired(prep.messages(k, msgs).value)
    {
      S.PreparedKeepsPairing(T.ClientCalls, settings, msgs, injected(k));
    }
  }

  /**
  The first prompt of a turn, as far as it comes from the history: for every
  persisted history it is well paired, counting the client's calls, exactly
  when no surviving turn hides its calls or carries one the provider executed.
  */
  lemma FirstPromptPaired(env: A.Env, persisted: seq<P.Message>, call: SP.Call)
    requires CalledWith(call, env, persisted)
    ensures SP.Paired(SP.PromptUnder(call.system, call)) <==>
      forall m :: m in C.Trimmed(persisted) ==> !AP.HidesCalls(m) && !AP.ProviderCalls(m)
  {
    hide C.Trimmed, AP.HidesCalls, AP.ProviderCalls, A.Steps, A.IndexOf, SP.CreatePrompt, T.WellPaired;
    AP.PairedIffMatched(env, T.ClientCalls, persisted);
    assert forall m :: AP.Mismatched(T.ClientCalls, m) <==> AP.HidesCalls(m) || AP.ProviderCalls(m);
    SP.CreatePromptPaired(call.system, call);
  }

  /**
  The whole turn: for every persisted history with a well-paired first prompt,
  every model behaviour, every tool schedule and any number of steps, each
  prompt sent is well paired.
  */
  lemma TurnPromptsPaired(env: A.Env, persisted: seq<P.Message>, run: L.Run, settings: S.Settings,
                          injected: nat -> seq<T.Message>, k: nat)
    requires CalledWith(run.call, env, persisted)
    requires forall m :: m in C.Trimmed(persisted) ==> !AP.HidesCalls(m) && !AP.ProviderCalls(m)
    requires UsesPasses(run.prep, settings, injected)
    requires L.Executes(run) && StepStream.KeepsClientCalls(run.validator) && k <= |run.streams|
    ensures SP.Paired(L.SentAt(run, k))
  {
    hide C.Trimmed, AP.HidesCalls, AP.ProviderCalls, A.Steps, A.IndexOf, L.SentAt, SP.CreatePrompt, L.Executes,
         StepStream.KeepsClientCalls, SP.PreparesPaired, T.WellPaired, SP.InitialAt, SP.Fits, SP.StandingSystem, S.Prepared;
    FirstPromptPaired(env, persisted, run.call);
    SP.CreatePromptPaired(run.call.system, run.call);
    PassesPreparePaired(run.prep, settings, injected);
    L.NothingWrittenThrough(run, k);
    L.PromptsPaired(run, k);
  }
}
