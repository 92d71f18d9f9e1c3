/**
 The worker loop that joins the queue and the registry: an item is executed by the worker that claimed
 it, between the claim and the completion, failure or block (scripts/worker.py:218-239). While
 executions end within their leases, they never overlap, so a handler is never called for an item that
 has a result.
 */
module LeasedExecutions {
  import opened Basics
  import Queue = WorkQueue
  import opened Policy
  import opened PolicyReruns
  import Store

  /** Under which claim an execution was begun. */
  datatype Exec = Exec(id: string, worker: string, until: Instant)

  datatype State = State(queue: Queue.Ledger, world: World, execs: map<nat, Exec>)

  /** A transaction of the queue, a step of the registry, or a worker taking up the item it has claimed. */
  datatype Joint = Queued(e: Queue.Event) | Act(s: Step) | TakeUp(x: nat, work: WorkItem, worker: string)

  function NextState(j: State, s: Joint): State {
    match s
    case Queued(e) => j.(queue := Queue.Next(j.queue, e))
    case Act(s) => j.(world := NextWorld(j.world, s))
    case TakeUp(x, work, worker) =>
      var begun := j.(world := NextWorld(j.world, Begin(x, work)));
      if work.id.Some? && Queue.Held(j.queue, work.id.value, worker) then
        var lease := j.queue.work[work.id.value].lease.value;
        begun.(execs := j.execs[x := Exec(work.id.value, worker, lease.expiresAt)])
      else begun
  }

  function Run(registry: Registry, approvals: Store.Approvals, joint: seq<Joint>): State
    decreases |joint|
  {
    if joint == [] then State(Queue.EMPTY, Start(registry, approvals), map[])
    else NextState(Run(registry, approvals, joint[..|joint| - 1]), joint[|joint| - 1])
  }

  predicate Executing(j: State, x: nat) {
    x in j.execs && x in j.world.pcs && Live(j.world.pcs[x])
  }

  /**
   A worker takes up an item that it holds, while it executes nothing else; it gives an item back only
   when it executes nothing; and a claim comes before the end of every lease that is being executed under.
   */
  ghost predicate Disciplined(j: State, s: Joint) {
    match s
    case Queued(e) =>
      && (e.Claim? ==> forall x | Executing(j, x) :: e.at < j.execs[x].until)
      && (e.Block? || e.Complete? || e.Fail? ==> forall x | Executing(j, x) :: j.execs[x].worker != e.worker)
    case Act(s) => !(s.Begin? && s.work.id.Some?)
    case TakeUp(x, work, worker) =>
      && x !in j.world.pcs && work.id.Some? && Queue.Held(j.queue, work.id.value, worker)
      && forall y | Executing(j, y) :: j.execs[y].worker != worker
  }

  ghost predicate AllDisciplined(registry: Registry, approvals: Store.Approvals, joint: seq<Joint>)
    decreases |joint|
  {
    joint == [] || (AllDisciplined(registry, approvals, joint[..|joint| - 1])
                    && Disciplined(Run(registry, approvals, joint[..|joint| - 1]), joint[|joint| - 1]))
  }

  /** What the registry sees of a joint run. */
  function Steps(joint: seq<Joint>): seq<Step>
    decreases |joint|
  {
    if joint == [] then []
    else
      var last := joint[|joint| - 1];
      Steps(joint[..|joint| - 1]) + match last {
        case Queued(_) => []
        case Act(s) => [s]
        case TakeUp(x, work, _) => [Begin(x, work)] }
  }

  /** An item under execution is leased to its worker, under the very lease it was taken up with. */
  ghost predicate LeaseHeld(j: State, x: nat)
    requires x in j.world.pcs && Live(j.world.pcs[x]) && j.world.pcs[x].work.id.Some?
  {
    var id := j.world.pcs[x].work.id.value;
    && x in j.execs && j.execs[x].id == id && id in j.queue.work && j.queue.work[id].status.Running?
    && j.queue.work[id].lease == Some(Queue.WorkLease(j.execs[x].worker, j.execs[x].until))
  }

  ghost predicate Inv(j: State) {
    forall x | x in j.world.pcs && Live(j.world.pcs[x]) && j.world.pcs[x].work.id.Some? :: LeaseHeld(j, x)
  }

  /** The lease of an item under execution outlasts every disciplined transaction of the queue. */
  lemma LeaseOutlasts(j: State, e: Queue.Event, x: nat)
    requires Inv(j) && Disciplined(j, Queued(e))
    requires x in j.world.pcs && Live(j.world.pcs[x]) && j.world.pcs[x].work.id.Some?
    ensures LeaseHeld(j.(queue := Queue.Next(j.queue, e)), x)
  {
    assert LeaseHeld(j, x) && Executing(j, x);
    var id := j.world.pcs[x].work.id.value;
    hide Queue.Affordable, Queue.Reserve;
    if e.Claim? {
      ClaimSpares(j.queue, e, id);
    }
  }

  lemma ClaimSpares(s: Queue.Ledger, e: Queue.Event, id: string)
    requires e.Claim? && id in s.work && s.work[id].status.Running? && s.work[id].lease.Some?
    requires e.at < s.work[id].lease.value.expiresAt
    ensures id in Queue.Next(s, e).work && Queue.Next(s, e).work[id] == s.work[id]
  {
    hide Queue.Affordable;
  }

  lemma StepKeepsInv(j: State, s: Joint)
    requires Inv(j) && Disciplined(j, s)
    ensures Inv(NextState(j, s))
  {
    var j' := NextState(j, s);
    forall x | x in j'.world.pcs && Live(j'.world.pcs[x]) && j'.world.pcs[x].work.id.Some? ensures LeaseHeld(j', x) {
      match s
      case Queued(e) => LeaseOutlasts(j, e, x);
      case Act(t) => {
        ItemStays(j.world, t, x);
        assert LeaseHeld(j, x);
      }
      case TakeUp(y, work, worker) => {
        ItemStays(j.world, Begin(y, work), x);
        BegunIs(j.world, y, work, x);
        if x != y { assert LeaseHeld(j, x); }
      }
    }
  }

  lemma BegunIs(w: World, y: nat, work: WorkItem, x: nat)
    requires y !in w.pcs && x in NextWorld(w, Begin(y, work)).pcs
    ensures x != y ==> x in w.pcs && NextWorld(w, Begin(y, work)).pcs[x] == w.pcs[x]
    ensures x == y && Live(NextWorld(w, Begin(y, work)).pcs[x]) ==> NextWorld(w, Begin(y, work)).pcs[x].work == work
  {
  }

  /** Nobody else executes the item that is taken up. */
  lemma TakeUpIsSerial(j: State, x: nat, work: WorkItem, worker: string)
    requires Inv(j) && Disciplined(j, TakeUp(x, work, worker))
    ensures Serial(j.world, Begin(x, work))
  {
    forall y | y in j.world.pcs && Live(j.world.pcs[y]) ensures j.world.pcs[y].work.id != work.id {
      if j.world.pcs[y].work.id == work.id {
        assert LeaseHeld(j, y) && Executing(j, y);
      }
    }
  }

  lemma {:induction false} RunsTogether(registry: Registry, approvals: Store.Approvals, joint: seq<Joint>)
    ensures Run(registry, approvals, joint).world == Policy.Run(Start(registry, approvals), Steps(joint))
    decreases |joint|
  {
    hide NextWorld, Queue.Next;
    if joint != [] {
      var before, last := joint[..|joint| - 1], joint[|joint| - 1];
      RunsTogether(registry, approvals, before);
      match last
      case Queued(_) => assert Steps(joint) == Steps(before);
      case Act(s) => RunSnoc(Start(registry, approvals), Steps(before), s);
      case TakeUp(x, work, _) => RunSnoc(Start(registry, approvals), Steps(before), Begin(x, work));
    }
  }

  lemma {:induction false} DisciplinedIsSerial(registry: Registry, approvals: Store.Approvals, joint: seq<Joint>)
    requires AllDisciplined(registry, approvals, joint)
    ensures Inv(Run(registry, approvals, joint)) && AllSerial(Start(registry, approvals), Steps(joint))
    decreases |joint|
  {
    hide NextState, Disciplined, Inv, Serial, Policy.Run;
    if joint == [] {
      StartInv(registry, approvals);
    } else {
      var before, last := joint[..|joint| - 1], joint[|joint| - 1];
      DisciplinedIsSerial(registry, approvals, before);
      RunsTogether(registry, approvals, before);
      var j := Run(registry, approvals, before);
      StepKeepsInv(j, last);
      var start := Start(registry, approvals);
      match last
      case Queued(_) => assert Steps(joint) == Steps(before);
      case Act(s) => {
        PlainIsSerial(j, s);
        SerialSnoc(start, Steps(before), s);
      }
      case TakeUp(x, work, worker) => {
        TakeUpIsSerial(j, x, work, worker);
        SerialSnoc(start, Steps(before), Begin(x, work));
      }
    }
  }

  lemma StartInv(registry: Registry, approvals: Store.Approvals)
    ensures Inv(Run(registry, approvals, []))
  {
  }

  lemma PlainIsSerial(j: State, s: Step)
    requires Disciplined(j, Act(s))
    ensures Serial(j.world, s)
  {
  }

  lemma SerialSnoc(start: World, steps: seq<Step>, s: Step)
    requires AllSerial(start, steps) && Serial(Policy.Run(start, steps), s)
    ensures AllSerial(start, steps + [s])
  {
    hide Policy.Run, Serial;
    assert (steps + [s])[..|steps|] == steps;
  }

  /**
   Over every run of queue and registry in which executions end within their leases: no execution that
   may call its handler is for an item that has a result.
   */
  lemma LeasedNeverReruns(registry: Registry, approvals: Store.Approvals, joint: seq<Joint>)
    requires AllDisciplined(registry, approvals, joint)
    ensures var w := Run(registry, approvals, joint).world;
      forall x | x in w.pcs && w.pcs[x].Authorized? :: !HasResult(w, w.pcs[x].work)
  {
    hide Run, Policy.Run, AllSerial, AllDisciplined;
    DisciplinedIsSerial(registry, approvals, joint);
    RunsTogether(registry, approvals, joint);
    SerialNeverReruns(registry, approvals, Steps(joint));
  }
}
