/**
 ActionRegistry: the dictionary of registered actions, filled in place, and execute, which consumes
 approvals, calls the handler and stores its result (sean_os/policy.py:33-110).
 */
module PolicyClass {
  import opened Basics
  import opened Store
  import opened Policy

  /** The four steps of one execution taken in a row; a step that does not apply changes nothing. */
  function Executed(w: World, x: nat, work: WorkItem, scopes: set<Scope>, at: Instant, outcome: Handled): World {
    var ready := NextWorld(NextWorld(w, Begin(x, work)), Authorize(x, scopes, at));
    NextWorld(NextWorld(ready, Handle(x, outcome)), Record(x))
  }

  lemma ReplayedIs(w: World, x: nat, work: WorkItem, scopes: set<Scope>, at: Instant, outcome: Handled)
    requires x !in w.pcs && HasResult(w, work)
    ensures var v := Executed(w, x, work, scopes, at, outcome);
      var stored := w.results[work.id.value];
      v == At(w, x, if stored.taskType == work.taskType then Returned(work, w.clock, stored.value) else Stopped)
        .(clock := w.clock + 4)
  {
    var w1 := NextWorld(w, Begin(x, work));
    assert NextWorld(w1, Authorize(x, scopes, at)) == w1.(clock := w.clock + 2);
    hide Allowed, Evolves;
  }

  lemma DeniedIs(w: World, x: nat, work: WorkItem, scopes: set<Scope>, at: Instant, outcome: Handled)
    requires x !in w.pcs && !HasResult(w, work) && !Allowed(w, work, scopes, at)
    ensures Executed(w, x, work, scopes, at, outcome) == At(w, x, Stopped).(clock := w.clock + 4)
  {
    var w1 := NextWorld(w, Begin(x, work));
    assert w1 == At(w, x, Checked(work, w.clock)).(clock := w.clock + 1);
    assert !Allowed(w1, work, scopes, at);
    hide Allowed, Evolves;
    assert NextWorld(w1, Authorize(x, scopes, at)) == At(w, x, Stopped).(clock := w.clock + 2);
  }

  function ApprovalsAfter(w: World, work: WorkItem): Approvals
    requires work.taskType in w.registry
    requires SpentBy(w, work).Some? ==> SpentBy(w, work).value in w.approvals
  {
    if SpentBy(w, work).Some? then ConsumeOf(w.approvals, SpentBy(w, work).value) else w.approvals
  }

  /** The world once an allowed action's handler is about to be called. */
  lemma AllowedIs(w: World, x: nat, work: WorkItem, scopes: set<Scope>, at: Instant)
    requires x !in w.pcs && !HasResult(w, work) && Allowed(w, work, scopes, at)
    ensures SpentBy(w, work).Some? ==> SpentBy(w, work).value in w.approvals
    ensures NextWorld(NextWorld(w, Begin(x, work)), Authorize(x, scopes, at)) ==
      At(w.(approvals := ApprovalsAfter(w, work)), x, Authorized(work, w.clock, SpentBy(w, work)))
        .(clock := w.clock + 2)
  {
    var w1 := NextWorld(w, Begin(x, work));
    assert w1 == At(w, x, Checked(work, w.clock)).(clock := w.clock + 1);
    assert Allowed(w1, work, scopes, at);
    hide Permitted, Consumable, Evolves;
  }

  lemma HandledIs(w: World, x: nat, work: WorkItem, scopes: set<Scope>, at: Instant, outcome: Handled)
    requires x !in w.pcs && !HasResult(w, work) && Allowed(w, work, scopes, at)
    ensures SpentBy(w, work).Some? ==> SpentBy(w, work).value in w.approvals
    ensures var v := Executed(w, x, work, scopes, at, outcome);
      && x in v.pcs && v.registry == w.registry && v.killSwitch == w.killSwitch
      && v.approvals == ApprovalsAfter(w, work) && v.runs == w.runs + [HandlerRun(work, w.clock, SpentBy(w, work))]
      && if outcome.HandlerRaised? || (work.id.Some? && !outcome.clean) then
           v.results == w.results && v.pcs[x] == Stopped
         else
           && v.pcs[x] == Returned(work, w.clock, outcome.value)
           && v.results == if work.id.None? then w.results
                else w.results[work.id.value := Stored(work.taskType, outcome.value, w.clock + 3)]
  {
    AllowedIs(w, x, work, scopes, at);
    var w2 := NextWorld(NextWorld(w, Begin(x, work)), Authorize(x, scopes, at));
    hide Allowed, Permitted, Consumable, Evolves, SpentBy, ApprovalsAfter, AfterAuthorize, AfterBegin;
    var w3 := NextWorld(w2, Handle(x, outcome));
    assert w3.results == w.results;
  }

  /** The part of SeanOSStore that the registry uses. */
  class ResultStore {
    var killSwitch: bool
    var approvals: Approvals
    var results: map<string, (string, string)>

    constructor (approvals: Approvals)
      ensures !killSwitch && this.approvals == approvals && results == map[]
    {
      killSwitch, this.approvals, results := false, approvals, map[];
    }

    /** completed_action_result: the stored result, none, or an error for another type of action. */
    method CompletedActionResult(id: string, taskType: string) returns (r: Result<Option<string>>)
      ensures r == if id !in results then Ok(None)
        else if results[id].0 != taskType then Err("another action type") else Ok(Some(results[id].1))
    {
      if id !in results {
        return Ok(None);
      }
      var (storedType, value) := results[id];
      r := if storedType != taskType then Err("another action type") else Ok(Some(value));
    }

    method ConsumeApproval(
      id: string, action: string, target: string, scope: Scope, scopes: set<Scope>, at: Instant) returns (ok: bool)
      modifies this`approvals
      ensures ok <==> scope in scopes && Consumable(old(approvals), id, action, target, scope, None, at)
      ensures approvals == if ok then ConsumeOf(old(approvals), id) else old(approvals)
    {
      ok := id in approvals && approvals[id].scope in scopes && approvals[id].scope == scope
        && approvals[id].status.Approved? && approvals[id].action == action && approvals[id].target == target
        && at < approvals[id].expiresAt;
      if ok && !approvals[id].reusable {
        approvals := approvals[id := approvals[id].(status := Consumed)];
      }
    }

    /** record_action_result: insert or ignore, unless the result is refused. */
    method RecordActionResult(id: string, taskType: string, value: string, clean: bool) returns (ok: bool)
      modifies this`results
      ensures ok == clean
      ensures results ==
        if clean && id !in old(results) then old(results)[id := (taskType, value)] else old(results)
    {
      ok := clean;
      if ok && id !in results {
        results := results[id := (taskType, value)];
      }
    }
  }

  ghost predicate SameResults(results: map<string, (string, string)>, stored: map<string, Stored>) {
    && results.Keys == stored.Keys
    && forall id | id in results :: results[id] == (stored[id].taskType, stored[id].value)
  }

  class ActionRegistry {
    var entries: Registry
    const store: ResultStore
    ghost var world: World

    ghost predicate Valid() reads this, store {
      && entries == world.registry && store.killSwitch == world.killSwitch && store.approvals == world.approvals
      && SameResults(store.results, world.results)
    }

    constructor (store: ResultStore)
      requires !store.killSwitch && store.results == map[]
      ensures Valid() && this.store == store && world == Start(map[], store.approvals)
    {
      entries := map[];
      this.store := store;
      world := Start(map[], store.approvals);
    }

    /** register: a name is registered once and for all. */
    method Register(name: string, policy: ActionPolicy) returns (ok: bool)
      requires Valid()
      modifies this
      ensures Valid() && ok == (name !in old(entries))
      ensures world == NextWorld(old(world), Policy.Step.Register(name, policy))
    {
      ok := name !in entries;
      if ok {
        entries := entries[name := policy];
      }
      world := NextWorld(world, Policy.Step.Register(name, policy));
    }

    /** The checks of execute between the replay and the handler; the approval is consumed last. */
    method Permit(work: WorkItem, scopes: set<Scope>, at: Instant) returns (ok: bool)
      requires Valid()
      modifies store`approvals
      ensures ok <==> Allowed(old(world), work, scopes, at)
      ensures store.approvals ==
        if ok && entries[work.taskType].approvalRequired then ConsumeOf(old(store.approvals), work.approval.value)
        else old(store.approvals)
    {
      if store.killSwitch || work.taskType !in entries {
        return false;
      }
      var policy := entries[work.taskType];
      if policy.prohibited || work.scope !in policy.scopes {
        return false;
      }
      if (work.estimate > 0.0 && !policy.costBearing) || (policy.costBearing && work.estimate <= 0.0) {
        return false;
      }
      if (policy.externalEffect && !policy.approvalRequired) || (!policy.reversible && !policy.approvalRequired) {
        return false;
      }
      if !policy.approvalRequired {
        return true;
      }
      if work.approval.None? || work.target.None? {
        return false;
      }
      ok := store.ConsumeApproval(work.approval.value, work.taskType, work.target.value, work.scope, scopes, at);
    }

    /** execute up to its result, on the store; the handler's outcome is used only if it is called. */
    method Perform(work: WorkItem, scopes: set<Scope>, at: Instant, outcome: Handled) returns (r: Result<string>)
      requires Valid()
      modifies store
      ensures store.killSwitch == old(store.killSwitch)
      ensures HasResult(world, work) ==>
        && store.approvals == old(store.approvals) && store.results == old(store.results)
        && (r.Ok? <==> world.results[work.id.value].taskType == work.taskType)
        && (r.Ok? ==> r.value == world.results[work.id.value].value)
      ensures !HasResult(world, work) && !Allowed(world, work, scopes, at) ==>
        r.Err? && store.approvals == old(store.approvals) && store.results == old(store.results)
      ensures !HasResult(world, work) && Allowed(world, work, scopes, at) ==>
        && (SpentBy(world, work).Some? ==> SpentBy(world, work).value in world.approvals)
        && store.approvals == ApprovalsAfter(world, work)
        && (r.Err? <==> outcome.HandlerRaised? || (work.id.Some? && !outcome.clean))
        && (r.Ok? ==> r.value == outcome.value)
        && store.results == if r.Ok? && work.id.Some?
             then old(store.results)[work.id.value := (work.taskType, outcome.value)] else old(store.results)
    {
      if work.id.Some? {
        var replay := store.CompletedActionResult(work.id.value, work.taskType);
        if replay.Err? {
          return Err(replay.error);
        }
        if replay.value.Some? {
          return Ok(replay.value.value);
        }
      }
      var ok := Permit(work, scopes, at);
      if !ok {
        return Err("denied");
      }
      if outcome.HandlerRaised? {
        return Err("handler failed");
      }
      if work.id.Some? {
        var recorded := store.RecordActionResult(work.id.value, work.taskType, outcome.value, outcome.clean);
        if !recorded {
          return Err("secret-like result");
        }
      }
      r := Ok(outcome.value);
    }

    /** execute, as execution x: the four steps of the model taken in a row, and nothing else. */
    method Execute(work: WorkItem, scopes: set<Scope>, at: Instant, outcome: Handled, ghost x: nat)
      returns (r: Result<string>)
      requires Valid() && x !in world.pcs
      modifies this, store
      ensures Valid() && world == Executed(old(world), x, work, scopes, at, outcome)
      ensures x in world.pcs && (r.Ok? <==> world.pcs[x].Returned?)
      ensures r.Ok? ==> r.value == world.pcs[x].value
    {
      r := Perform(work, scopes, at, outcome);
      hide Executed, Allowed, SpentBy, ApprovalsAfter;
      if HasResult(world, work) {
        ReplayedIs(world, x, work, scopes, at, outcome);
      } else if Allowed(world, work, scopes, at) {
        HandledIs(world, x, work, scopes, at, outcome);
      } else {
        DeniedIs(world, x, work, scopes, at, outcome);
      }
      world := Executed(world, x, work, scopes, at, outcome);
    }
  }
}
