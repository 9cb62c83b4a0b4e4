/**
 * The loop of `installContext`: for each configured context-factory
 * identifier, in order, look the factory up (a miss is logged and skipped),
 * ask it whether it is compatible with the configuration (no: skipped), and
 * if so create the context (an initialisation or linkage failure is logged
 * and skipped). The first context created ends the loop.
 *
 * `RunContexts(reg, ids, n)` is the loop after its first `n` iterations;
 * `ContextCallsUpTo` is the reference definition of the calls it makes.
 */
module ContextSelection {
  import opened SecurityTypes

  /** What the context loop makes of one identifier. */
  datatype ContextAttempt =
    | ContextMissing
    | ContextIncompatible
    | ContextInitializeFailed
    | ContextLinkageFailed
    | ContextChosen(context: Option<Context>)

  function AttemptContext(reg: Registry, id: string): ContextAttempt {
    if id !in reg.contextFactories then ContextMissing
    else
      var f := reg.contextFactories[id];
      if !f.compatible then ContextIncompatible
      else match f.createContext
        case Created(c) => ContextChosen(c)
        case InitializeFailure => ContextInitializeFailed
        case LinkageFailure => ContextLinkageFailed
  }

  /** The calls the context loop makes for one identifier. */
  function ContextCalls(reg: Registry, id: string): seq<Call> {
    if id !in reg.contextFactories then [FindContextFactory(id)]
    else if !reg.contextFactories[id].compatible then [FindContextFactory(id), CheckCompatible(id)]
    else [FindContextFactory(id), CheckCompatible(id), CreateContext(id)]
  }

  /** The factory is registered, reports itself compatible, and `createContext` returns. */
  predicate Chosen(reg: Registry, id: string) {
    id in reg.contextFactories && reg.contextFactories[id].compatible
    && reg.contextFactories[id].createContext.Created?
  }

  /** `ids[k]` is the first identifier of `ids` that is chosen. */
  predicate FirstChosen(reg: Registry, ids: seq<string>, k: int) {
    0 <= k < |ids| && Chosen(reg, ids[k]) && forall j :: 0 <= j < k ==> !Chosen(reg, ids[j])
  }

  /** Whether the loop has broken out, and with which (possibly null) context. */
  datatype Selection = Pending | Selected(context: Option<Context>)

  datatype ContextRun = ContextRun(selection: Selection, calls: seq<Call>)

  /** The context loop after its first `n` iterations over `ids`. */
  function RunContexts(reg: Registry, ids: seq<string>, n: nat): ContextRun
    requires n <= |ids|
  {
    if n == 0 then ContextRun(Pending, [])
    else ExtendContexts(reg, RunContexts(reg, ids, n - 1), ids[n - 1])
  }

  /** One more iteration of the context loop, unless it has already broken out. */
  function ExtendContexts(reg: Registry, before: ContextRun, id: string): ContextRun {
    if before.selection.Selected? then before
    else ContextRun(Select(AttemptContext(reg, id)), before.calls + ContextCalls(reg, id))
  }

  function Select(attempt: ContextAttempt): Selection {
    if attempt.ContextChosen? then Selected(attempt.context) else Pending
  }

  /** Reference definition: the calls for the first `n` identifiers, each identifier's calls in turn. */
  function ContextCallsUpTo(reg: Registry, ids: seq<string>, n: nat): seq<Call>
    requires n <= |ids|
  {
    if n == 0 then [] else ContextCallsUpTo(reg, ids, n - 1) + ContextCalls(reg, ids[n - 1])
  }

  /** One iteration of the context loop, spelled out call by call, branch by branch. */
  lemma ContextsLoopStep(reg: Registry, ids: seq<string>, i: nat)
    requires i < |ids| && RunContexts(reg, ids, i).selection.Pending?
    ensures var before, id := RunContexts(reg, ids, i), ids[i];
      id !in reg.contextFactories ==>
        RunContexts(reg, ids, i + 1) == ContextRun(Pending, before.calls + [FindContextFactory(id)])
    ensures var before, id := RunContexts(reg, ids, i), ids[i];
      id in reg.contextFactories && !reg.contextFactories[id].compatible ==>
        RunContexts(reg, ids, i + 1) == ContextRun(Pending, before.calls + [FindContextFactory(id), CheckCompatible(id)])
    ensures var before, id := RunContexts(reg, ids, i), ids[i];
      id in reg.contextFactories && reg.contextFactories[id].compatible ==>
        var calls := before.calls + [FindContextFactory(id), CheckCompatible(id), CreateContext(id)];
        RunContexts(reg, ids, i + 1) ==
          if reg.contextFactories[id].createContext.Created?
          then ContextRun(Selected(reg.contextFactories[id].createContext.context), calls)
          else ContextRun(Pending, calls)
  {
  }

  /** Once the context loop has broken out, the remaining iterations change nothing. */
  lemma {:induction false} RunContextsSettled(reg: Registry, ids: seq<string>, n: nat, m: nat)
    requires n <= m <= |ids|
    requires RunContexts(reg, ids, n).selection.Selected?
    ensures RunContexts(reg, ids, m) == RunContexts(reg, ids, n)
    decreases m
  {
    if n < m {
      RunContextsSettled(reg, ids, n, m - 1);
    }
  }

  /**
   * The first `n` iterations run without breaking out exactly when none of
   * those identifiers is chosen; they then have made every identifier's
   * calls, in order.
   */
  lemma {:induction false} RunContextsExhausted(reg: Registry, ids: seq<string>, n: nat)
    requires n <= |ids|
    ensures RunContexts(reg, ids, n).selection.Pending? <==> forall k :: 0 <= k < n ==> !Chosen(reg, ids[k])
    ensures RunContexts(reg, ids, n).selection.Pending? ==> RunContexts(reg, ids, n).calls == ContextCallsUpTo(reg, ids, n)
  {
    if n > 0 {
      RunContextsExhausted(reg, ids, n - 1);
      if Chosen(reg, ids[n - 1]) {
        assert RunContexts(reg, ids, n).selection.Selected?;
      }
    }
  }

  /**
   * First success wins: the loop breaks out with the context made by the
   * first chosen identifier, having made the calls of that identifier and
   * of those before it.
   */
  lemma FirstSuccessWins(reg: Registry, ids: seq<string>, k: nat)
    requires FirstChosen(reg, ids, k)
    ensures RunContexts(reg, ids, |ids|).selection == Selected(reg.contextFactories[ids[k]].createContext.context)
    ensures RunContexts(reg, ids, |ids|).calls == ContextCallsUpTo(reg, ids, k + 1)
  {
    RunContextsExhausted(reg, ids, k);
    RunContextsSettled(reg, ids, k + 1, |ids|);
  }

  /**
   * After the first chosen identifier, no identifier that only appears later
   * is looked up, asked whether it is compatible, or asked to create a context.
   */
  lemma LaterContextsUntouched(reg: Registry, ids: seq<string>, k: nat)
    requires FirstChosen(reg, ids, k)
    ensures forall j, c :: k < j < |ids| && ids[j] !in ids[..k + 1] && c in RunContexts(reg, ids, |ids|).calls ==>
      c.FactoryId() != Some(ids[j])
  {
    FirstSuccessWins(reg, ids, k);
    forall j, c | k < j < |ids| && ids[j] !in ids[..k + 1] && c in ContextCallsUpTo(reg, ids, k + 1)
      ensures c.FactoryId() != Some(ids[j])
    {
      if c.FactoryId() == Some(ids[j]) {
        ContextCallsWithin(reg, ids, k + 1, c);
      }
    }
  }

  /** The first `n` identifiers' calls name only those identifiers. */
  lemma {:induction false} ContextCallsWithin(reg: Registry, ids: seq<string>, n: nat, c: Call)
    requires n <= |ids|
    requires c in ContextCallsUpTo(reg, ids, n) && c.FactoryId().Some?
    ensures c.FactoryId().value in ids[..n]
  {
    if c in ContextCalls(reg, ids[n - 1]) {
      assert ids[..n][n - 1] == c.FactoryId().value;
    } else {
      ContextCallsWithin(reg, ids, n - 1, c);
      assert ids[..n - 1] <= ids[..n];
    }
  }

  /** When the loop has broken out, it did so at the first chosen identifier. */
  lemma {:induction false} RunContextsSelectedFirst(reg: Registry, ids: seq<string>, n: nat)
    requires n <= |ids|
    requires RunContexts(reg, ids, n).selection.Selected?
    ensures exists k :: k < n && FirstChosen(reg, ids, k) &&
                        RunContexts(reg, ids, n).selection.context == reg.contextFactories[ids[k]].createContext.context
  {
    RunContextsExhausted(reg, ids, n - 1);
    if RunContexts(reg, ids, n - 1).selection.Selected? {
      RunContextsSelectedFirst(reg, ids, n - 1);
    } else {
      assert FirstChosen(reg, ids, n - 1);
    }
  }

  /** `createContext` is called only on a factory that was found and reported itself compatible. */
  lemma {:induction false} NeverCreatesIncompatible(reg: Registry, ids: seq<string>, n: nat, id: string)
    requires n <= |ids|
    requires CreateContext(id) in RunContexts(reg, ids, n).calls
    ensures id in reg.contextFactories && reg.contextFactories[id].compatible
  {
    if CreateContext(id) in RunContexts(reg, ids, n - 1).calls {
      NeverCreatesIncompatible(reg, ids, n - 1, id);
    }
  }

  /** The context loop calls only context factories. */
  lemma {:induction false} RunContextsCallsKind(reg: Registry, ids: seq<string>, n: nat)
    requires n <= |ids|
    ensures forall c :: c in RunContexts(reg, ids, n).calls ==> c.IsContextCall()
  {
    if n > 0 {
      RunContextsCallsKind(reg, ids, n - 1);
    }
  }
}
