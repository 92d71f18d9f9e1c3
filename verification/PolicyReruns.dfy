/**
 When a handler can be called again for an item whose result is stored: exactly when nothing that is
 checked between the replay and the handler can be used up (sean_os/policy.py:51-110).
 */
module PolicyReruns {
  import opened Basics
  import opened Policy
  import Store

  /** The last step of a run calls the handler of an item whose result is already stored. */
  predicate RunsAgain(start: World, steps: seq<Step>, work: WorkItem) {
    && |steps| > 0
    && var before, after := Run(start, steps[..|steps| - 1]), Run(start, steps);
      && HasResult(before, work) && |after.runs| == |before.runs| + 1
      && after.runs[|before.runs|].work.id == work.id
  }

  /** An item is one row: every execution under its id is given the same one. */
  predicate SameItem(steps: seq<Step>, work: WorkItem) {
    forall s | s in steps && s.Begin? && s.work.id == work.id :: s.work == work
  }

  /** The item names an approval that can be taken any number of times, now or once it is decided. */
  predicate PaysAgain(approvals: Store.Approvals, work: WorkItem) {
    && work.approval.Some? && work.target.Some?
    && (work.approval.value in approvals ==>
          var a := approvals[work.approval.value];
          && a.action == work.taskType && a.target == work.target.value && a.scope == work.scope
          && a.reusable && (a.status.Approved? || a.status.Pending?))
  }

  /** What a caller can read off before any run: the item, its action's policy, and its approval. */
  predicate RerunPossible(registry: Registry, approvals: Store.Approvals, work: WorkItem) {
    && work.id.Some?
    && (work.taskType in registry ==>
          && Permitted(registry[work.taskType], work)
          && (registry[work.taskType].approvalRequired ==> PaysAgain(approvals, work)))
  }

  // ---------------------------------------------------------------- never, in any schedule

  /** What any number of transactions leave of an approval: its terms, and an end once reached. */
  predicate Since(a: Store.Approvals, b: Store.Approvals) {
    forall id | id in a ::
      && id in b && b[id] == a[id].(status := b[id].status)
      && (a[id].status.Denied? || a[id].status.Expired? || a[id].status.Consumed? ==> b[id] == a[id])
  }

  predicate KeptPolicies(a: Registry, b: Registry) {
    forall name | name in a :: name in b && b[name] == a[name]
  }

  lemma {:induction false} RunSince(start: World, steps: seq<Step>)
    ensures KeptPolicies(start.registry, Run(start, steps).registry)
    ensures Since(start.approvals, Run(start, steps).approvals)
    decreases |steps|
  {
    hide NextWorld;
    if steps != [] {
      RunSince(start, steps[..|steps| - 1]);
      MovedFollows(Run(start, steps[..|steps| - 1]), steps[|steps| - 1]);
    }
  }

  /** Every execution and call under this item's id is for this item. */
  ghost predicate OneItem(w: World, work: WorkItem) {
    && (forall x | x in w.pcs && Live(w.pcs[x]) && w.pcs[x].work.id == work.id :: w.pcs[x].work == work)
    && forall i | 0 <= i < |w.runs| && w.runs[i].work.id == work.id :: w.runs[i].work == work
  }

  /** A step keeps the item of every execution under way. */
  lemma ItemStays(w: World, s: Step, x: nat)
    requires x in Moved(w, s).pcs && Live(Moved(w, s).pcs[x])
    ensures (x in w.pcs && Live(w.pcs[x]) && w.pcs[x].work == Moved(w, s).pcs[x].work)
      || (s.Begin? && s.work == Moved(w, s).pcs[x].work)
  {
    hide Evolves, AfterBegin, AfterAuthorize, AfterHandle, AfterRecord;
    if s.Begin? {
      BeganItem(w, s.x, s.work);
    } else if s.Authorize? && s.x in w.pcs && w.pcs[s.x].Checked? {
      AuthorizedItem(w, s.x, s.scopes, s.at);
    } else if s.Handle? && s.x in w.pcs && w.pcs[s.x].Authorized? {
      HandledItem(w, s.x, s.outcome);
    } else if s.Record? && s.x in w.pcs && w.pcs[s.x].Ran? {
      RecordedPc(w, s.x);
      RecordedItem(w, s.x);
    }
  }

  lemma BeganItem(w: World, x: nat, work: WorkItem)
    ensures x in AfterBegin(w, x, work).pcs
    ensures var pc := AfterBegin(w, x, work).pcs[x];
      AfterBegin(w, x, work).pcs == w.pcs[x := pc] && (Live(pc) ==> pc.work == work)
  {
  }

  lemma AuthorizedItem(w: World, x: nat, scopes: set<Store.Scope>, at: Instant)
    requires x in w.pcs && w.pcs[x].Checked?
    ensures x in AfterAuthorize(w, x, scopes, at).pcs
    ensures var pc := AfterAuthorize(w, x, scopes, at).pcs[x];
      AfterAuthorize(w, x, scopes, at).pcs == w.pcs[x := pc] && (Live(pc) ==> pc.work == w.pcs[x].work)
  {
    hide Permitted, Store.Consumable;
  }

  lemma HandledItem(w: World, x: nat, outcome: Handled)
    requires x in w.pcs && w.pcs[x].Authorized?
    ensures x in AfterHandle(w, x, outcome).pcs
    ensures var pc := AfterHandle(w, x, outcome).pcs[x];
      AfterHandle(w, x, outcome).pcs == w.pcs[x := pc] && (Live(pc) ==> pc.work == w.pcs[x].work)
  {
  }

  lemma RecordedItem(w: World, x: nat)
    requires x in w.pcs && w.pcs[x].Ran?
    ensures x in AfterRecord(w, x).pcs && !Live(AfterRecord(w, x).pcs[x])
  {
  }

  lemma OneItemNext(w: World, s: Step, work: WorkItem)
    requires OneItem(w, work) && SameItem([s], work)
    ensures OneItem(NextWorld(w, s), work)
  {
    assert s in [s];
    var v := NextWorld(w, s);
    RunsGrow(w, s);
    forall x | x in v.pcs && Live(v.pcs[x]) && v.pcs[x].work.id == work.id ensures v.pcs[x].work == work {
      ItemStays(w, s, x);
    }
    hide NextWorld;
    forall i | 0 <= i < |v.runs| && v.runs[i].work.id == work.id ensures v.runs[i].work == work {
      if i < |w.runs| { assert v.runs[i] == w.runs[i]; }
    }
  }

  lemma {:induction false} RunOneItem(registry: Registry, approvals: Store.Approvals, steps: seq<Step>, work: WorkItem)
    requires SameItem(steps, work)
    ensures OneItem(Run(Start(registry, approvals), steps), work)
    decreases |steps|
  {
    hide NextWorld, OneItem;
    if steps == [] {
      StartOneItem(registry, approvals, work);
    } else {
      var before, last := steps[..|steps| - 1], steps[|steps| - 1];
      assert forall s | s in before :: s in steps;
      assert forall s | s in [last] :: s in steps;
      RunOneItem(registry, approvals, before, work);
      OneItemNext(Run(Start(registry, approvals), before), last, work);
    }
  }

  lemma StartOneItem(registry: Registry, approvals: Store.Approvals, work: WorkItem)
    ensures OneItem(Start(registry, approvals), work)
  {
  }

  /** A stored result was paid for once; a call after it would have to be paid for again. */
  lemma NeverReruns(registry: Registry, approvals: Store.Approvals, steps: seq<Step>, work: WorkItem)
    requires SameItem(steps, work) && !RerunPossible(registry, approvals, work)
    ensures !RunsAgain(Start(registry, approvals), steps, work)
  {
    var start := Start(registry, approvals);
    if RunsAgain(start, steps, work) {
      var before, w := Run(start, steps[..|steps| - 1]), Run(start, steps);
      var n := |before.runs|;
      RunGranted(registry, approvals, steps[..|steps| - 1]);
      RunOneItem(registry, approvals, steps, work);
      RunsGrow(before, steps[|steps| - 1]);
      EveryRunJustified(registry, approvals, steps, n);
      RunSince(start, steps);
      assert w.runs[n].work == work;
      assert HasRun(before, work.id);
      var i :| 0 <= i < |before.runs| && before.runs[i].work.id == work.id;
      assert w.runs[i] == before.runs[i] && w.runs[i].work == work;
      hide Run, NextWorld, Granted, OneItem, Permitted;
      if work.taskType in registry && registry[work.taskType].approvalRequired {
        ApprovalSpentOnce(registry, approvals, steps, i, n);
      }
    }
  }

  // ---------------------------------------------------------------- otherwise, in some schedule

  /** A policy under which an unregistered action is permitted. */
  function EasyPolicy(work: WorkItem): ActionPolicy {
    ActionPolicy({work.scope}, false, true, false, work.estimate > 0.0, false)
  }

  /** The approval that the item names, granted; reusable if it was not there before. */
  function Granting(approvals: Store.Approvals, work: WorkItem): Store.Approvals {
    if work.approval.None? || work.target.None? then approvals
    else if work.approval.value !in approvals then
      approvals[work.approval.value :=
        Store.Approval(
          work.taskType, work.target.value, work.scope, Store.NoConditions, Store.Approved, 1, true)]
    else if approvals[work.approval.value].status.Pending? then
      approvals[work.approval.value := approvals[work.approval.value].(status := Store.Approved)]
    else approvals
  }

  function GrantedAt(approvals: Store.Approvals, work: WorkItem): Instant {
    var granted := Granting(approvals, work);
    if work.approval.Some? && work.approval.value in granted then granted[work.approval.value].expiresAt - 1 else 0
  }

  /** The item's action is allowed, and taking its approval changes nothing. */
  predicate Repeatable(w: World, work: WorkItem, at: Instant) {
    && Allowed(w, work, {work.scope}, at)
    && (SpentBy(w, work).Some? ==>
          SpentBy(w, work).value in w.approvals && w.approvals[SpentBy(w, work).value].reusable)
  }

  /** Nothing has begun. */
  predicate Idle(w: World) {
    w.pcs == map[] && w.runs == [] && w.results == map[]
  }

  lemma Prepared(registry: Registry, approvals: Store.Approvals, work: WorkItem)
    requires RerunPossible(registry, approvals, work)
    ensures var w := Run(Start(registry, approvals), Preparation(approvals, work));
      Idle(w) && Repeatable(w, work, GrantedAt(approvals, work))
  {
    var start := Start(registry, approvals);
    var first := Register(work.taskType, EasyPolicy(work));
    RunSnoc(start, [], first);
    assert [] + [first] == [first];
    RunSnoc(start, [first], OtherTransactions(Granting(approvals, work), false));
    assert [first] + [OtherTransactions(Granting(approvals, work), false)]
      == Preparation(approvals, work);
    assert Run(start, []) == start;
    hide Run;
    GrantingEvolves(approvals, work);
    hide Evolves, Granting;
    GrantingAllows(registry, approvals, work,
      NextWorld(NextWorld(start, first), OtherTransactions(Granting(approvals, work), false)));
  }

  lemma GrantingEvolves(approvals: Store.Approvals, work: WorkItem)
    ensures Evolves(approvals, Granting(approvals, work))
  {
  }

  lemma GrantingAllows(registry: Registry, approvals: Store.Approvals, work: WorkItem, w: World)
    requires RerunPossible(registry, approvals, work)
    requires w.approvals == Granting(approvals, work) && !w.killSwitch
    requires w.registry == if work.taskType in registry then registry else registry[work.taskType := EasyPolicy(work)]
    ensures Repeatable(w, work, GrantedAt(approvals, work))
  {
  }

  lemma RunSnoc(start: World, steps: seq<Step>, s: Step)
    ensures Run(start, steps + [s]) == NextWorld(Run(start, steps), s)
  {
    assert (steps + [s])[..|steps|] == steps;
    hide NextWorld;
  }

  lemma BeginIs(w: World, x: nat, work: WorkItem)
    requires x !in w.pcs && !HasResult(w, work)
    ensures NextWorld(w, Begin(x, work)) == At(w, x, Checked(work, w.clock)).(clock := w.clock + 1)
  {
  }

  lemma AuthorizeIs(w: World, x: nat, work: WorkItem, at: Instant)
    requires x in w.pcs && w.pcs[x].Checked? && w.pcs[x].work == work && Repeatable(w, work, at)
    ensures NextWorld(w, Authorize(x, {work.scope}, at)) ==
      At(w, x, Authorized(work, w.pcs[x].began, SpentBy(w, work))).(clock := w.clock + 1)
  {
    hide Permitted;
  }

  /** Two executions of one item past every check, neither of which has called the handler. */
  predicate BothReady(w: World, work: WorkItem) {
    && w.runs == [] && w.results == map[]
    && 0 in w.pcs && w.pcs[0].Authorized? && w.pcs[0].work == work
    && 1 in w.pcs && w.pcs[1].Authorized? && w.pcs[1].work == work
  }

  lemma BothAuthorized(w: World, work: WorkItem, at: Instant)
    requires Idle(w) && Repeatable(w, work, at)
    ensures var w2 := NextWorld(NextWorld(w, Begin(0, work)), Begin(1, work));
      BothReady(NextWorld(NextWorld(w2, Authorize(0, {work.scope}, at)), Authorize(1, {work.scope}, at)), work)
  {
    hide NextWorld, Permitted, ApprovalUsable;
    BeginIs(w, 0, work);
    var w1 := NextWorld(w, Begin(0, work));
    BeginIs(w1, 1, work);
    var w2 := NextWorld(w1, Begin(1, work));
    UsableStill(w, w2, work, at);
    AuthorizeIs(w2, 0, work, at);
    var w3 := NextWorld(w2, Authorize(0, {work.scope}, at));
    UsableStill(w, w3, work, at);
    AuthorizeIs(w3, 1, work, at);
  }

  lemma UsableStill(w: World, v: World, work: WorkItem, at: Instant)
    requires Repeatable(w, work, at)
    requires v.registry == w.registry && v.approvals == w.approvals && v.killSwitch == w.killSwitch
    ensures Repeatable(v, work, at)
  {
  }

  /** The first execution stores its result; the second then calls the handler all the same. */
  lemma FirstRecords(w: World, work: WorkItem)
    requires work.id.Some? && BothReady(w, work)
    ensures var w6 := NextWorld(NextWorld(w, Handle(0, Result("first", true))), Record(0));
      var w7 := NextWorld(w6, Handle(1, Result("second", true)));
      && HasResult(w6, work) && |w6.runs| == 1 && |w7.runs| == 2 && w7.runs[1].work == work
  {
  }

  /** The action registered and its approval granted, unless they are. */
  function Preparation(approvals: Store.Approvals, work: WorkItem): seq<Step> {
    [Register(work.taskType, EasyPolicy(work)), OtherTransactions(Granting(approvals, work), false)]
  }

  /** Two executions that overlap: both are past the checks when the first one stores its result. */
  function Overlap(work: WorkItem, at: Instant): seq<Step> {
    [Begin(0, work), Begin(1, work), Authorize(0, {work.scope}, at), Authorize(1, {work.scope}, at),
     Handle(0, Result("first", true)), Record(0), Handle(1, Result("second", true))]
  }

  lemma SevenSteps(start: World, steps: seq<Step>, race: seq<Step>)
    requires |race| == 7
    ensures Run(start, steps + race[..4]) ==
      NextWorld(NextWorld(NextWorld(NextWorld(Run(start, steps), race[0]), race[1]), race[2]), race[3])
    ensures Run(start, steps + race[..6]) ==
      NextWorld(NextWorld(Run(start, steps + race[..4]), race[4]), race[5])
    ensures Run(start, steps + race) == NextWorld(Run(start, steps + race[..6]), race[6])
  {
    hide NextWorld, Run;
    assert steps + race[..0] == steps && race[..7] == race;
    Prefix(start, steps, race, 0);
    Prefix(start, steps, race, 1);
    Prefix(start, steps, race, 2);
    Prefix(start, steps, race, 3);
    Prefix(start, steps, race, 4);
    Prefix(start, steps, race, 5);
    Prefix(start, steps, race, 6);
  }

  lemma Prefix(start: World, steps: seq<Step>, race: seq<Step>, i: nat)
    requires i < |race|
    ensures Run(start, steps + race[..i + 1]) == NextWorld(Run(start, steps + race[..i]), race[i])
  {
    assert steps + race[..i + 1] == (steps + race[..i]) + [race[i]];
    RunSnoc(start, steps + race[..i], race[i]);
  }

  lemma OverlapSameItem(approvals: Store.Approvals, work: WorkItem, at: Instant)
    ensures SameItem(Preparation(approvals, work) + Overlap(work, at), work)
  {
    hide Granting, EasyPolicy;
  }

  lemma RaceRunsAgain(start: World, prepare: seq<Step>, work: WorkItem, at: Instant)
    requires work.id.Some? && Idle(Run(start, prepare)) && Repeatable(Run(start, prepare), work, at)
    ensures RunsAgain(start, prepare + Overlap(work, at), work)
  {
    hide NextWorld, Run, BothReady, Idle, Repeatable;
    var race := Overlap(work, at);
    SevenSteps(start, prepare, race);
    BothAuthorized(Run(start, prepare), work, at);
    FirstRecords(Run(start, prepare + race[..4]), work);
    assert (prepare + race)[..|prepare + race| - 1] == prepare + race[..6];
  }

  lemma OverlapRunsTwice(registry: Registry, approvals: Store.Approvals, work: WorkItem)
    requires RerunPossible(registry, approvals, work)
    ensures var steps := Preparation(approvals, work) + Overlap(work, GrantedAt(approvals, work));
      SameItem(steps, work) && RunsAgain(Start(registry, approvals), steps, work)
  {
    Prepared(registry, approvals, work);
    OverlapSameItem(approvals, work, GrantedAt(approvals, work));
    hide RunsAgain, SameItem, Idle, Repeatable, Preparation, Overlap, GrantedAt, Run;
    RaceRunsAgain(Start(registry, approvals), Preparation(approvals, work), work, GrantedAt(approvals, work));
  }

  /**
   The exact condition, over all schedules of any executions, crashes and other transactions: the
   handler of an item can be called once its result is stored if and only if its action is not
   refused and does not require an approval, or the approval it names is reusable. An action that is
   not registered yet, or an approval that is not there yet, can still become such a one.
   */
  lemma RerunsExactly(registry: Registry, approvals: Store.Approvals, work: WorkItem)
    ensures (exists steps: seq<Step> :: SameItem(steps, work) && RunsAgain(Start(registry, approvals), steps, work))
      <==> RerunPossible(registry, approvals, work)
  {
    if RerunPossible(registry, approvals, work) {
      OverlapRunsTwice(registry, approvals, work);
    } else {
      forall steps: seq<Step> | SameItem(steps, work)
        ensures !RunsAgain(Start(registry, approvals), steps, work)
      {
        NeverReruns(registry, approvals, steps, work);
      }
    }
  }

  /**
   For an item under an action that is registered and an approval that has been granted for it: the
   handler is never called again exactly if the action is refused, or needs that approval and the
   approval is for one use.
   */
  lemma GrantedReruns(registry: Registry, approvals: Store.Approvals, work: WorkItem)
    requires work.id.Some? && work.taskType in registry && work.approval.Some? && work.target.Some?
    requires work.approval.value in approvals
    requires var a := approvals[work.approval.value];
      a.action == work.taskType && a.target == work.target.value && a.scope == work.scope && a.status.Approved?
    ensures (forall steps: seq<Step> | SameItem(steps, work) :: !RunsAgain(Start(registry, approvals), steps, work))
      <==> (|| !Permitted(registry[work.taskType], work)
            || (registry[work.taskType].approvalRequired && !approvals[work.approval.value].reusable))
  {
    RerunsExactly(registry, approvals, work);
    hide RunsAgain, SameItem, Permitted;
  }

  // ---------------------------------------------------------------- executions that do not overlap

  /** An execution of an item begins only while no other execution of it is under way. */
  predicate Serial(w: World, s: Step) {
    s.Begin? && s.work.id.Some? ==> forall x | x in w.pcs && Live(w.pcs[x]) :: w.pcs[x].work.id != s.work.id
  }

  predicate AllSerial(start: World, steps: seq<Step>)
    decreases |steps|
  {
    steps == [] || (AllSerial(start, steps[..|steps| - 1])
                    && Serial(Run(start, steps[..|steps| - 1]), steps[|steps| - 1]))
  }

  /** At most one execution of an item is under way, and none once it has a result. */
  ghost predicate Exclusive(w: World) {
    forall x | x in w.pcs && Live(w.pcs[x]) ::
      && !HasResult(w, w.pcs[x].work)
      && forall y | y in w.pcs && y != x && Live(w.pcs[y]) && w.pcs[x].work.id.Some? ::
           w.pcs[y].work.id != w.pcs[x].work.id
  }

  /** One execution moves on, ends or begins alone; the results are as before. */
  lemma ExclusiveAt(w: World, v: World, x: nat, pc: Pc)
    requires Exclusive(w) && v.pcs == w.pcs[x := pc] && v.results == w.results
    requires Live(pc) ==>
      || (x in w.pcs && Live(w.pcs[x]) && w.pcs[x].work == pc.work)
      || (!HasResult(w, pc.work)
          && forall y | y in w.pcs && Live(w.pcs[y]) && pc.work.id.Some? :: w.pcs[y].work.id != pc.work.id)
    ensures Exclusive(v)
  {
  }

  lemma RecordKeepsExclusive(w: World, x: nat)
    requires Exclusive(w) && x in w.pcs && w.pcs[x].Ran?
    ensures Exclusive(AfterRecord(w, x))
  {
    var v := AfterRecord(w, x);
    assert !Live(v.pcs[x]) && forall y | y in w.pcs && y != x :: v.pcs[y] == w.pcs[y];
    assert forall id | id in v.results :: id in w.results || w.pcs[x].work.id == Some(id);
    hide AfterRecord;
  }

  lemma SerialKeepsExclusive(w: World, s: Step)
    requires Exclusive(w) && Serial(w, s)
    ensures Exclusive(Moved(w, s))
  {
    hide Exclusive, Evolves, Allowed;
    match s
    case Register(_, _) => SameExclusive(w, Moved(w, s));
    case OtherTransactions(_, _) => SameExclusive(w, Moved(w, s));
    case Begin(x, _) => if x !in w.pcs { ExclusiveAt(w, Moved(w, s), x, Moved(w, s).pcs[x]); }
    case Authorize(x, _, _) =>
      if x in w.pcs && w.pcs[x].Checked? { ExclusiveAt(w, Moved(w, s), x, Moved(w, s).pcs[x]); }
    case Handle(x, _) =>
      if x in w.pcs && w.pcs[x].Authorized? { ExclusiveAt(w, Moved(w, s), x, Moved(w, s).pcs[x]); }
    case Record(x) => if x in w.pcs && w.pcs[x].Ran? { RecordKeepsExclusive(w, x); }
    case Crash(x) => if x in w.pcs { ExclusiveAt(w, Moved(w, s), x, Stopped); }
  }

  lemma SameExclusive(w: World, v: World)
    requires Exclusive(w) && v.pcs == w.pcs && v.results == w.results
    ensures Exclusive(v)
  {
  }

  /** Without overlapping executions, a handler is never called for an item that has a result. */
  lemma {:induction false} SerialNeverReruns(registry: Registry, approvals: Store.Approvals, steps: seq<Step>)
    requires AllSerial(Start(registry, approvals), steps)
    ensures var w := Run(Start(registry, approvals), steps);
      && Exclusive(w)
      && forall x | x in w.pcs && w.pcs[x].Authorized? :: !HasResult(w, w.pcs[x].work)
    decreases |steps|
  {
    hide Moved, Serial;
    if steps != [] {
      var before, last := steps[..|steps| - 1], steps[|steps| - 1];
      SerialNeverReruns(registry, approvals, before);
      var w := Run(Start(registry, approvals), before);
      SerialKeepsExclusive(w, last);
      SameExclusive(Moved(w, last), NextWorld(w, last));
    }
  }
}
