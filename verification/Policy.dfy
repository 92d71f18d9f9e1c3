/**
 At-most-once execution of approved actions: the order replay check, policy and approval, handler,
 stored result, under any interleaving of executions, crashes and other transactions
 (sean_os/policy.py:33-110, sean_os/store.py:402-433, sean_os/store.py:2356-2389).
 */
module Policy {
  import opened Basics
  import Evidence
  import Outbox
  import opened Store

  datatype ActionPolicy = ActionPolicy(
    scopes: set<Scope>, externalEffect: bool, reversible: bool, approvalRequired: bool, costBearing: bool,
    prohibited: bool)

  type Registry = map<string, ActionPolicy>

  /** A work item; an empty id, approval id or target counts as none. */
  datatype WorkItem = WorkItem(
    id: Option<string>, taskType: string, scope: Scope, estimate: real, approval: Option<string>,
    target: Option<string>)

  /** What a handler call comes to; a result with secret-like material is refused by the store. */
  datatype Handled = Result(value: string, clean: bool) | HandlerRaised

  datatype Stored = Stored(taskType: string, value: string, at: nat)

  /** How far one execution has come. */
  datatype Pc =
    | Checked(work: WorkItem, began: nat)
    | Authorized(work: WorkItem, began: nat, spent: Option<string>)
    | Ran(work: WorkItem, began: nat, value: string, clean: bool)
    | Returned(work: WorkItem, began: nat, value: string)
    | Stopped

  /** One handler call: for which item, in an execution begun when, under which consumed approval. */
  datatype HandlerRun = HandlerRun(work: WorkItem, began: nat, spent: Option<string>)

  datatype World = World(
    registry: Registry, killSwitch: bool, approvals: Approvals, results: map<string, Stored>,
    pcs: map<nat, Pc>, runs: seq<HandlerRun>, clock: nat)

  datatype Step =
    | Register(name: string, policy: ActionPolicy)
    | OtherTransactions(approvals: Approvals, killSwitch: bool)
    | Begin(x: nat, work: WorkItem)
    | Authorize(x: nat, scopes: set<Scope>, at: Instant)
    | Handle(x: nat, outcome: Handled)
    | Record(x: nat)
    | Crash(x: nat)

  /** A pending approval is decided or expires, a one-time one is consumed; nothing else happens to one. */
  predicate Proceeds(a: Approval, b: Approval) {
    && b == a.(status := b.status)
    && (|| b.status == a.status
        || (a.status.Pending? && (b.status.Approved? || b.status.Denied? || b.status.Expired?))
        || (a.status.Approved? && !a.reusable && b.status.Consumed?))
  }

  /** Other transactions may add approvals, and take those that are there a step further. */
  predicate Evolves(a: Approvals, b: Approvals) {
    forall id | id in a :: id in b && Proceeds(a[id], b[id])
  }

  lemma StoreEvolves(db: Db, e: Event)
    ensures Evolves(db.approvals, NextApprovals(db, e))
  {
  }

  // ---------------------------------------------------------------- one execution

  predicate Permitted(policy: ActionPolicy, work: WorkItem) {
    && !policy.prohibited && work.scope in policy.scopes
    && (work.estimate > 0.0 <==> policy.costBearing)
    && (policy.externalEffect || !policy.reversible ==> policy.approvalRequired)
  }

  predicate ApprovalUsable(w: World, work: WorkItem, scopes: set<Scope>, at: Instant) {
    && work.approval.Some? && work.target.Some? && work.scope in scopes
    && Consumable(w.approvals, work.approval.value, work.taskType, work.target.value, work.scope, None, at)
  }

  /** Everything between the replay check and the handler that may deny the action. */
  predicate Allowed(w: World, work: WorkItem, scopes: set<Scope>, at: Instant) {
    && !w.killSwitch && work.taskType in w.registry && Permitted(w.registry[work.taskType], work)
    && (w.registry[work.taskType].approvalRequired ==> ApprovalUsable(w, work, scopes, at))
  }

  function At(w: World, x: nat, pc: Pc): World {
    w.(pcs := w.pcs[x := pc])
  }

  predicate HasResult(w: World, work: WorkItem) {
    work.id.Some? && work.id.value in w.results
  }

  function AfterBegin(w: World, x: nat, work: WorkItem): World {
    if !HasResult(w, work) then At(w, x, Checked(work, w.clock))
    else
      var stored := w.results[work.id.value];
      At(w, x, if stored.taskType == work.taskType then Returned(work, w.clock, stored.value) else Stopped)
  }

  function AfterAuthorize(w: World, x: nat, scopes: set<Scope>, at: Instant): World
    requires x in w.pcs && w.pcs[x].Checked?
  {
    var pc := w.pcs[x];
    if !Allowed(w, pc.work, scopes, at) then At(w, x, Stopped)
    else if w.registry[pc.work.taskType].approvalRequired then
      At(w.(approvals := ConsumeOf(w.approvals, pc.work.approval.value)), x,
         Authorized(pc.work, pc.began, pc.work.approval))
    else At(w, x, Authorized(pc.work, pc.began, None))
  }

  function AfterHandle(w: World, x: nat, outcome: Handled): World
    requires x in w.pcs && w.pcs[x].Authorized?
  {
    var pc := w.pcs[x];
    At(w, x, if outcome.HandlerRaised? then Stopped else Ran(pc.work, pc.began, outcome.value, outcome.clean))
      .(runs := w.runs + [HandlerRun(pc.work, pc.began, pc.spent)])
  }

  /** The result is stored unless one already is; the execution returns its own result. */
  function AfterRecord(w: World, x: nat): World
    requires x in w.pcs && w.pcs[x].Ran?
  {
    var pc := w.pcs[x];
    if pc.work.id.None? then At(w, x, Returned(pc.work, pc.began, pc.value))
    else if !pc.clean then At(w, x, Stopped)
    else
      At(w, x, Returned(pc.work, pc.began, pc.value)).(
        results := if pc.work.id.value in w.results then w.results
                   else w.results[pc.work.id.value := Stored(pc.work.taskType, pc.value, w.clock)])
  }

  function Moved(w: World, s: Step): World {
    match s
    case Register(name, policy) => if name in w.registry then w else w.(registry := w.registry[name := policy])
    case OtherTransactions(approvals, killSwitch) =>
      if Evolves(w.approvals, approvals) then w.(approvals := approvals, killSwitch := killSwitch) else w
    case Begin(x, work) => if x in w.pcs then w else AfterBegin(w, x, work)
    case Authorize(x, scopes, at) => if x in w.pcs && w.pcs[x].Checked? then AfterAuthorize(w, x, scopes, at) else w
    case Handle(x, outcome) => if x in w.pcs && w.pcs[x].Authorized? then AfterHandle(w, x, outcome) else w
    case Record(x) => if x in w.pcs && w.pcs[x].Ran? then AfterRecord(w, x) else w
    case Crash(x) => if x in w.pcs then At(w, x, Stopped) else w
  }

  function NextWorld(w: World, s: Step): World {
    Moved(w, s).(clock := w.clock + 1)
  }

  function Start(registry: Registry, approvals: Approvals): World {
    World(registry, false, approvals, map[], map[], [], 0)
  }

  function Run(w: World, steps: seq<Step>): World
    decreases |steps|
  {
    if steps == [] then w else NextWorld(Run(w, steps[..|steps| - 1]), steps[|steps| - 1])
  }

  // ---------------------------------------------------------------- the invariant

  predicate Live(pc: Pc) {
    pc.Checked? || pc.Authorized? || pc.Ran?
  }

  /** An approval that is not reusable and was spent: it is consumed for good. */
  predicate SpentFor(w: World, id: string) {
    id in w.approvals && (w.approvals[id].reusable || w.approvals[id].status.Consumed?)
  }

  predicate Once(w: World, id: string) {
    id in w.approvals && !w.approvals[id].reusable
  }

  ghost predicate PcOk(w: World, x: nat)
    requires x in w.pcs
  {
    var pc := w.pcs[x];
    && (Live(pc) ==> pc.began < w.clock)
    && (Live(pc) && HasResult(w, pc.work) ==> pc.began <= w.results[pc.work.id.value].at)
    && (pc.Authorized? && pc.spent.Some? ==>
          && SpentFor(w, pc.spent.value)
          && (Once(w, pc.spent.value) ==>
                && (forall i | 0 <= i < |w.runs| :: w.runs[i].spent != pc.spent)
                && forall y | y in w.pcs && y != x && w.pcs[y].Authorized? :: w.pcs[y].spent != pc.spent))
  }

  ghost predicate RunOk(w: World, i: int)
    requires 0 <= i < |w.runs|
  {
    var r := w.runs[i];
    && r.began < w.clock
    && (HasResult(w, r.work) ==> r.began <= w.results[r.work.id.value].at)
    && (r.spent.Some? ==>
          && SpentFor(w, r.spent.value)
          && (Once(w, r.spent.value) ==> forall j | 0 <= j < |w.runs| && j != i :: w.runs[j].spent != r.spent))
  }

  ghost predicate Inv(w: World) {
    && (forall x | x in w.pcs :: PcOk(w, x))
    && (forall i | 0 <= i < |w.runs| :: RunOk(w, i))
    && (forall id | id in w.results :: w.results[id].at < w.clock)
  }

  /** Approvals evolve under every step. */
  lemma MovedEvolves(w: World, s: Step)
    ensures Evolves(w.approvals, Moved(w, s).approvals)
  {
  }

  lemma SpentStays(w: World, v: World, id: string)
    requires Evolves(w.approvals, v.approvals) && SpentFor(w, id)
    ensures SpentFor(v, id) && Once(v, id) == Once(w, id)
  {
  }

  /** Nothing but approvals, registry and clock changes, and approvals only evolve. */
  lemma QuietKeepsInv(w: World, v: World)
    requires Inv(w) && Evolves(w.approvals, v.approvals)
    requires v.pcs == w.pcs && v.runs == w.runs && v.results == w.results && v.clock == w.clock + 1
    ensures Inv(v)
  {
    forall x | x in v.pcs ensures PcOk(v, x) {
      assert PcOk(w, x);
      var pc := w.pcs[x];
      if pc.Authorized? && pc.spent.Some? { SpentStays(w, v, pc.spent.value); }
    }
    forall i | 0 <= i < |v.runs| ensures RunOk(v, i) {
      assert RunOk(w, i);
      var r := w.runs[i];
      if r.spent.Some? { SpentStays(w, v, r.spent.value); }
    }
  }

  /** One execution moves to a state without a spent approval; results and runs stay. */
  lemma PcKeepsInv(w: World, x: nat, pc: Pc)
    requires Inv(w) && !pc.Authorized?
    requires Live(pc) ==> pc.began <= w.clock && (HasResult(w, pc.work) ==> pc.began <= w.results[pc.work.id.value].at)
    ensures Inv(At(w, x, pc).(clock := w.clock + 1))
  {
    var v := At(w, x, pc).(clock := w.clock + 1);
    forall y | y in v.pcs ensures PcOk(v, y) {
      assert y != x ==> PcOk(w, y);
    }
    forall i | 0 <= i < |v.runs| ensures RunOk(v, i) { assert RunOk(w, i); }
  }

  lemma AuthorizeKeepsInv(w: World, x: nat, scopes: set<Scope>, at: Instant)
    requires Inv(w) && x in w.pcs && w.pcs[x].Checked? && Allowed(w, w.pcs[x].work, scopes, at)
    ensures Inv(AfterAuthorize(w, x, scopes, at).(clock := w.clock + 1))
  {
    var pc := w.pcs[x];
    var v := AfterAuthorize(w, x, scopes, at).(clock := w.clock + 1);
    assert PcOk(w, x);
    forall y | y in v.pcs ensures PcOk(v, y) {
      if y != x { assert PcOk(w, y); }
      if v.pcs[y].Authorized? && v.pcs[y].spent.Some? {
        forall i | 0 <= i < |v.runs| && Once(v, v.pcs[y].spent.value) ensures v.runs[i].spent != v.pcs[y].spent {
          assert RunOk(w, i);
        }
        forall z | z in v.pcs && z != y && v.pcs[z].Authorized? && Once(v, v.pcs[y].spent.value)
          ensures v.pcs[z].spent != v.pcs[y].spent
        {
          if z != x { assert PcOk(w, z); }
        }
      }
    }
    forall i | 0 <= i < |v.runs| ensures RunOk(v, i) { assert RunOk(w, i); }
  }

  lemma HandleKeepsInv(w: World, x: nat, outcome: Handled)
    requires Inv(w) && x in w.pcs && w.pcs[x].Authorized?
    ensures Inv(AfterHandle(w, x, outcome).(clock := w.clock + 1))
  {
    var pc := w.pcs[x];
    var v := AfterHandle(w, x, outcome).(clock := w.clock + 1);
    assert PcOk(w, x);
    forall y | y in v.pcs ensures PcOk(v, y) {
      if y != x { assert PcOk(w, y); }
    }
    forall i | 0 <= i < |v.runs| ensures RunOk(v, i) {
      if i < |w.runs| { assert RunOk(w, i); }
    }
  }

  lemma StoredPcOk(w: World, x: nat, y: nat)
    requires Inv(w) && x in w.pcs && w.pcs[x].Ran? && y in w.pcs
    ensures PcOk(AfterRecord(w, x).(clock := w.clock + 1), y)
  {
    assert PcOk(w, y);
    hide Inv;
  }

  lemma StoredRunOk(w: World, x: nat, i: nat)
    requires Inv(w) && x in w.pcs && w.pcs[x].Ran? && i < |w.runs|
    ensures RunOk(AfterRecord(w, x).(clock := w.clock + 1), i)
  {
    assert RunOk(w, i);
    hide Inv, PcOk;
  }

  lemma RecordKeepsInv(w: World, x: nat)
    requires Inv(w) && x in w.pcs && w.pcs[x].Ran?
    ensures Inv(AfterRecord(w, x).(clock := w.clock + 1))
  {
    var v := AfterRecord(w, x).(clock := w.clock + 1);
    forall y | y in v.pcs ensures PcOk(v, y) { StoredPcOk(w, x, y); }
    forall i | 0 <= i < |v.runs| ensures RunOk(v, i) { StoredRunOk(w, x, i); }
    hide PcOk, RunOk;
  }

  lemma UnmovedKeepsInv(w: World, s: Step)
    requires Inv(w) && Moved(w, s).pcs == w.pcs && Moved(w, s).runs == w.runs && Moved(w, s).results == w.results
    requires Moved(w, s).clock == w.clock
    ensures Inv(NextWorld(w, s))
  {
    MovedEvolves(w, s);
    hide Inv, Moved, Evolves;
    QuietKeepsInv(w, NextWorld(w, s));
  }

  lemma BeginKeepsInv(w: World, x: nat, work: WorkItem)
    requires Inv(w)
    ensures Inv(AfterBegin(w, x, work).(clock := w.clock + 1))
  {
    PcKeepsInv(w, x, AfterBegin(w, x, work).pcs[x]);
    hide Inv;
  }

  lemma NextKeepsInv(w: World, s: Step)
    requires Inv(w)
    ensures Inv(NextWorld(w, s))
  {
    hide Inv, Evolves, Allowed, AfterBegin, AfterAuthorize, AfterHandle, AfterRecord;
    match s
    case Register(_, _) => UnmovedKeepsInv(w, s);
    case OtherTransactions(_, _) => UnmovedKeepsInv(w, s);
    case Begin(x, work) =>
      if x in w.pcs { UnmovedKeepsInv(w, s); } else { BeginKeepsInv(w, x, work); }
    case Authorize(x, scopes, at) =>
      if x !in w.pcs || !w.pcs[x].Checked? { UnmovedKeepsInv(w, s); }
      else if Allowed(w, w.pcs[x].work, scopes, at) { AuthorizeKeepsInv(w, x, scopes, at); }
      else { DeniedKeepsInv(w, x, scopes, at); }
    case Handle(x, outcome) =>
      if x in w.pcs && w.pcs[x].Authorized? { HandleKeepsInv(w, x, outcome); } else { UnmovedKeepsInv(w, s); }
    case Record(x) =>
      if x in w.pcs && w.pcs[x].Ran? { RecordKeepsInv(w, x); } else { UnmovedKeepsInv(w, s); }
    case Crash(x) =>
      if x in w.pcs { PcKeepsInv(w, x, Stopped); } else { UnmovedKeepsInv(w, s); }
  }

  lemma DeniedKeepsInv(w: World, x: nat, scopes: set<Scope>, at: Instant)
    requires Inv(w) && x in w.pcs && w.pcs[x].Checked? && !Allowed(w, w.pcs[x].work, scopes, at)
    ensures Inv(AfterAuthorize(w, x, scopes, at).(clock := w.clock + 1))
  {
    PcKeepsInv(w, x, Stopped);
    hide Inv, Allowed;
  }

  lemma {:induction false} RunKeepsInv(registry: Registry, approvals: Approvals, steps: seq<Step>)
    ensures Inv(Run(Start(registry, approvals), steps))
    decreases |steps|
  {
    hide NextWorld, Inv;
    if steps == [] {
      StartInv(registry, approvals);
    } else {
      RunKeepsInv(registry, approvals, steps[..|steps| - 1]);
      NextKeepsInv(Run(Start(registry, approvals), steps[..|steps| - 1]), steps[|steps| - 1]);
    }
  }

  lemma StartInv(registry: Registry, approvals: Approvals)
    ensures Inv(Start(registry, approvals))
  {
  }

  // ---------------------------------------------------------------- why a handler was called

  /** The approval that an action takes: the one its work item names, if its policy demands one. */
  function SpentBy(w: World, work: WorkItem): Option<string>
    requires work.taskType in w.registry
  {
    if w.registry[work.taskType].approvalRequired then work.approval else None
  }

  /** The work item names an approval for exactly this action, and it has been taken. */
  predicate Paid(w: World, work: WorkItem) {
    && work.approval.Some? && work.target.Some? && work.approval.value in w.approvals
    && var a := w.approvals[work.approval.value];
      && a.action == work.taskType && a.target == work.target.value && a.scope == work.scope
      && a.status == if a.reusable then Approved else Consumed
  }

  /** What stands behind a handler call: a permitted action and, where its policy demands it, its approval. */
  predicate Justified(w: World, work: WorkItem, spent: Option<string>) {
    && work.taskType in w.registry && Permitted(w.registry[work.taskType], work)
    && spent == SpentBy(w, work)
    && (w.registry[work.taskType].approvalRequired ==> Paid(w, work))
  }

  predicate HasRun(w: World, id: Option<string>) {
    exists i :: 0 <= i < |w.runs| && w.runs[i].work.id == id
  }

  predicate PcJustified(w: World, x: nat)
    requires x in w.pcs
  {
    && (w.pcs[x].Authorized? ==> Justified(w, w.pcs[x].work, w.pcs[x].spent))
    && (w.pcs[x].Ran? ==> HasRun(w, w.pcs[x].work.id))
  }

  ghost predicate Granted(w: World) {
    && (forall x | x in w.pcs :: PcJustified(w, x))
    && (forall i | 0 <= i < |w.runs| :: Justified(w, w.runs[i].work, w.runs[i].spent))
    && (forall id | id in w.results :: HasRun(w, Some(id)))
  }

  /** Registered policies stay, and approvals evolve. */
  predicate Follows(w: World, v: World) {
    && (forall name | name in w.registry :: name in v.registry && v.registry[name] == w.registry[name])
    && Evolves(w.approvals, v.approvals)
  }

  lemma MovedFollows(w: World, s: Step)
    ensures Follows(w, NextWorld(w, s))
  {
    MovedEvolves(w, s);
    hide Evolves, Allowed;
  }

  lemma JustifiedStays(w: World, v: World, work: WorkItem, spent: Option<string>)
    requires Follows(w, v) && Justified(w, work, spent)
    ensures Justified(v, work, spent)
  {
    hide Permitted;
  }

  lemma HasRunStays(w: World, v: World, id: Option<string>)
    requires w.runs <= v.runs && HasRun(w, id)
    ensures HasRun(v, id)
  {
    var i :| 0 <= i < |w.runs| && w.runs[i].work.id == id;
    assert v.runs[i] == w.runs[i];
  }

  /** The state of an execution that a step leaves or makes is justified. */
  lemma PcGranted(w: World, s: Step, x: nat)
    requires Granted(w) && x in NextWorld(w, s).pcs
    ensures PcJustified(NextWorld(w, s), x)
  {
    var v := NextWorld(w, s);
    MovedFollows(w, s);
    if x in w.pcs && v.pcs[x] == w.pcs[x] {
      hide Moved, Follows, Justified, NextWorld;
      if w.pcs[x].Authorized? { JustifiedStays(w, v, w.pcs[x].work, w.pcs[x].spent); }
      if w.pcs[x].Ran? {
        RunsGrow(w, s);
        HasRunStays(w, v, w.pcs[x].work.id);
      }
    } else if s.Handle? {
      NewRan(w, s, x);
    } else if s.Authorize? {
      NewAuthorized(w, s, x);
    } else {
      NewPc(w, s, x);
      hide Moved, Justified, HasRun;
    }
  }

  /** Only an authorization reaches the handler, and only the handler's call passes it. */
  lemma NewPc(w: World, s: Step, x: nat)
    requires !s.Handle? && !s.Authorize?
    requires x in Moved(w, s).pcs && (x !in w.pcs || Moved(w, s).pcs[x] != w.pcs[x])
    ensures !Moved(w, s).pcs[x].Authorized? && !Moved(w, s).pcs[x].Ran?
  {
    hide Evolves, AfterBegin, AfterAuthorize, AfterHandle, AfterRecord;
    if s.Begin? {
      BeganPc(w, s.x, s.work);
    } else if s.Record? && s.x in w.pcs && w.pcs[s.x].Ran? {
      RecordedPc(w, s.x);
    }
  }

  lemma BeganPc(w: World, x: nat, work: WorkItem)
    ensures x in AfterBegin(w, x, work).pcs
    ensures var pc := AfterBegin(w, x, work).pcs[x];
      AfterBegin(w, x, work).pcs == w.pcs[x := pc] && !pc.Authorized? && !pc.Ran?
  {
  }

  lemma RecordedPc(w: World, x: nat)
    requires x in w.pcs && w.pcs[x].Ran?
    ensures x in AfterRecord(w, x).pcs
    ensures var pc := AfterRecord(w, x).pcs[x];
      AfterRecord(w, x).pcs == w.pcs[x := pc] && !pc.Authorized? && !pc.Ran?
  {
  }

  lemma NewAuthorized(w: World, s: Step, x: nat)
    requires s.Authorize? && x in NextWorld(w, s).pcs && (x !in w.pcs || NextWorld(w, s).pcs[x] != w.pcs[x])
    ensures PcJustified(NextWorld(w, s), x)
  {
    assert x == s.x && w.pcs[x].Checked?;
    if Allowed(w, w.pcs[x].work, s.scopes, s.at) {
      AuthorizeGrants(w, x, s.scopes, s.at);
      hide NextWorld, Moved;
    }
    hide Allowed, Justified, HasRun;
  }

  lemma NewRan(w: World, s: Step, x: nat)
    requires s.Handle? && x in NextWorld(w, s).pcs && (x !in w.pcs || NextWorld(w, s).pcs[x] != w.pcs[x])
    ensures PcJustified(NextWorld(w, s), x)
  {
    var v := NextWorld(w, s);
    assert x == s.x && v.runs[|w.runs|].work == w.pcs[x].work;
    hide Justified;
  }

  lemma AuthorizeGrants(w: World, x: nat, scopes: set<Scope>, at: Instant)
    requires x in w.pcs && w.pcs[x].Checked? && Allowed(w, w.pcs[x].work, scopes, at)
    ensures var v := NextWorld(w, Authorize(x, scopes, at));
      x in v.pcs && v.pcs[x].Authorized? && Justified(v, v.pcs[x].work, v.pcs[x].spent)
  {
    hide Permitted;
  }

  lemma RunsGrow(w: World, s: Step)
    ensures w.runs <= NextWorld(w, s).runs
    ensures |NextWorld(w, s).runs| <= |w.runs| + 1
    ensures |NextWorld(w, s).runs| > |w.runs| ==>
      s.Handle? && s.x in w.pcs && w.pcs[s.x].Authorized?
      && NextWorld(w, s).runs == w.runs + [HandlerRun(w.pcs[s.x].work, w.pcs[s.x].began, w.pcs[s.x].spent)]
  {
    hide Evolves, Allowed;
  }

  lemma NewResult(w: World, s: Step, id: string)
    requires id in NextWorld(w, s).results && id !in w.results
    ensures s.Record? && s.x in w.pcs && w.pcs[s.x].Ran? && w.pcs[s.x].work.id == Some(id)
  {
    hide Evolves, Allowed;
  }

  lemma GrantedNext(w: World, s: Step)
    requires Granted(w)
    ensures Granted(NextWorld(w, s))
  {
    var v := NextWorld(w, s);
    RunsGrow(w, s);
    MovedFollows(w, s);
    forall x | x in v.pcs ensures PcJustified(v, x) {
      PcGranted(w, s, x);
    }
    hide NextWorld, Follows, HasRun, Justified;
    forall i | 0 <= i < |v.runs| ensures Justified(v, v.runs[i].work, v.runs[i].spent) {
      if i < |w.runs| {
        JustifiedStays(w, v, w.runs[i].work, w.runs[i].spent);
      } else {
        JustifiedStays(w, v, w.pcs[s.x].work, w.pcs[s.x].spent);
      }
    }
    forall id | id in v.results ensures HasRun(v, Some(id)) {
      if id !in w.results { NewResult(w, s, id); }
      HasRunStays(w, v, Some(id));
    }
  }

  lemma {:induction false} RunGranted(registry: Registry, approvals: Approvals, steps: seq<Step>)
    ensures Granted(Run(Start(registry, approvals), steps))
    decreases |steps|
  {
    hide NextWorld;
    if steps != [] {
      RunGranted(registry, approvals, steps[..|steps| - 1]);
      GrantedNext(Run(Start(registry, approvals), steps[..|steps| - 1]), steps[|steps| - 1]);
    }
  }

  // ---------------------------------------------------------------- what every run keeps

  /**
   Over all runs: an approval that is not reusable is behind at most one handler call, over all work
   items that name it and whose action requires an approval.
   */
  lemma ApprovalSpentOnce(registry: Registry, approvals: Approvals, steps: seq<Step>, i: nat, j: nat)
    requires var w := Run(Start(registry, approvals), steps);
      && i < j < |w.runs|
      && w.runs[i].work.taskType in w.registry && w.registry[w.runs[i].work.taskType].approvalRequired
      && w.runs[j].work.taskType in w.registry && w.registry[w.runs[j].work.taskType].approvalRequired
      && w.runs[i].work.approval == w.runs[j].work.approval
    ensures var w := Run(Start(registry, approvals), steps);
      var id := w.runs[i].work.approval;
      id.Some? && id.value in w.approvals && w.approvals[id.value].reusable
  {
    var w := Run(Start(registry, approvals), steps);
    RunKeepsInv(registry, approvals, steps);
    RunGranted(registry, approvals, steps);
    assert RunOk(w, i);
    assert Justified(w, w.runs[i].work, w.runs[i].spent) && Justified(w, w.runs[j].work, w.runs[j].spent);
    hide Run, Permitted, Inv;
  }

  /** Every handler call was permitted, and paid for by the approval that its work item names. */
  lemma EveryRunJustified(registry: Registry, approvals: Approvals, steps: seq<Step>, i: nat)
    requires i < |Run(Start(registry, approvals), steps).runs|
    ensures var w := Run(Start(registry, approvals), steps); Justified(w, w.runs[i].work, w.runs[i].spent)
  {
    RunGranted(registry, approvals, steps);
  }

  /** Every handler call of an item was begun before the item's result was stored. */
  lemma NoRunBegunAfterResult(registry: Registry, approvals: Approvals, steps: seq<Step>, i: nat)
    requires var w := Run(Start(registry, approvals), steps); i < |w.runs| && HasResult(w, w.runs[i].work)
    ensures var w := Run(Start(registry, approvals), steps);
      w.runs[i].began <= w.results[w.runs[i].work.id.value].at
  {
    RunKeepsInv(registry, approvals, steps);
    assert RunOk(Run(Start(registry, approvals), steps), i);
  }

  lemma ResultStays(w: World, s: Step, id: string)
    requires id in w.results
    ensures id in NextWorld(w, s).results && NextWorld(w, s).results[id] == w.results[id]
  {
  }

  /** A stored result is never replaced or lost. */
  lemma {:induction false} ResultForEver(w: World, steps: seq<Step>, id: string)
    requires id in w.results
    ensures id in Run(w, steps).results && Run(w, steps).results[id] == w.results[id]
    decreases |steps|
  {
    hide NextWorld;
    if steps != [] {
      ResultForEver(w, steps[..|steps| - 1], id);
      ResultStays(Run(w, steps[..|steps| - 1]), steps[|steps| - 1], id);
    }
  }

  lemma {:induction false} RunClock(w: World, steps: seq<Step>)
    ensures Run(w, steps).clock == w.clock + |steps|
    decreases |steps|
  {
    if steps != [] { RunClock(w, steps[..|steps| - 1]); }
  }

  /**
   Whatever happened after a result was stored, an execution that begins then returns that very
   result, or is refused as another type of action; it never reaches the handler.
   */
  lemma ReplayReturnsResult(w: World, steps: seq<Step>, x: nat, work: WorkItem)
    requires HasResult(w, work) && x !in Run(w, steps).pcs
    ensures var v := NextWorld(Run(w, steps), Begin(x, work));
      var stored := w.results[work.id.value];
      && v.pcs[x] == (
           if stored.taskType == work.taskType then Returned(work, w.clock + |steps|, stored.value) else Stopped)
      && v.runs == Run(w, steps).runs
  {
    ResultForEver(w, steps, work.id.value);
    RunClock(w, steps);
  }
}
