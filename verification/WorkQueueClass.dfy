/**
 The work-queue methods of SeanOSStore, which update rows, reservations and budgets in place
 (sean_os/store.py:1903-1933, sean_os/store.py:2212-2434). Each is proved to have exactly the effect
 of its transaction in module WorkQueue, and so to keep the budgets balanced.
 */
module WorkQueueClass {
  import opened Basics
  import opened WorkQueue

  ghost predicate NothingPrecedes(work: map<string, Work>, due: set<string>, pick: string)
    requires due <= work.Keys
  {
    pick in due && forall k | k in due :: !Precedes(work[k], work[pick])
  }

  /** Among finitely many due items there is one that none precedes. */
  lemma {:induction false} SomeFirst(work: map<string, Work>, due: set<string>) returns (pick: string)
    requires due <= work.Keys && due != {}
    ensures NothingPrecedes(work, due, pick)
    decreases |due|
  {
    var k :| k in due;
    var rest := due - {k};
    if rest == {} {
      pick := k;
      assert forall j | j in due :: j == k || j in rest;
    } else {
      var other := SomeFirst(work, rest);
      pick := if Precedes(work[k], work[other]) then k else other;
      assert forall j | j in due :: j == k || j in rest;
    }
  }

  /** The effect of a claim, in the order in which it is made: reserve, then lease. */
  lemma ClaimInSteps(s: Ledger, e: Event)
    requires e.Claim? && !s.killSwitch && FirstDue(s.work, e.scopes, e.at, e.pick)
    ensures var w := s.work[e.pick];
      var account := Account(w.scope, e.period);
      var lease := LeasedWork(w, e.worker, e.leaseUntil);
      Next(s, e) ==
        if Covered(s, e.pick) then WithWork(s, e.pick, lease)
        else if Affordable(s, account, w.units) then WithWork(Reserve(s, e.pick, account, w.units), e.pick, lease)
        else WithWork(s, e.pick, w.(status := BudgetBlocked))
  {
  }

  class WorkStore {
    var killSwitch: bool
    var work: map<string, Work>
    var budgets: map<Account, Budget>
    var reservations: map<string, Reservation>
    var usage: seq<Usage>
    ghost var history: History

    function View(): Ledger reads this {
      Ledger(killSwitch, work, budgets, reservations, usage)
    }

    ghost predicate Valid() reads this {
      Inv(View(), history)
    }

    constructor ()
      ensures Valid() && View() == EMPTY && history == History(map[], map[])
    {
      killSwitch, work, budgets, reservations, usage := false, map[], map[], map[], [];
      history := History(map[], map[]);
    }

    ghost predicate Stepped(s: Ledger, h: History, e: Event) reads this {
      Valid() && View() == Next(s, e) && history == NextHistory(h, s, e)
    }

    method ConfigureBudget(scope: string, limit: real, period: string) returns (ok: bool)
      requires Valid()
      modifies this
      ensures ok <==> limit >= 0.0 && scope in SCOPES
      ensures Stepped(old(View()), old(history), Configure(Account(scope, period), limit))
    {
      NextKeepsInv(View(), history, Configure(Account(scope, period), limit));
      history := NextHistory(history, View(), Configure(Account(scope, period), limit));
      hide Inv;
      ok := limit >= 0.0 && scope in SCOPES;
      if ok {
        var account := Account(scope, period);
        if account in budgets {
          budgets := budgets[account := budgets[account].(limit := limit)];
        } else {
          budgets := budgets[account := Budget(limit, 0.0, 0.0)];
        }
      }
    }

    method EnqueueWork(
      id: string, scope: string, units: real, priority: int, maxAttempts: nat, availableAt: Instant, at: Instant)
      returns (ok: bool)
      requires Valid()
      modifies this
      ensures ok <==> id !in old(work) && 1 <= maxAttempts <= 10
      ensures Stepped(old(View()), old(history), Enqueue(id, scope, units, priority, maxAttempts, availableAt, at))
    {
      NextKeepsInv(View(), history, Enqueue(id, scope, units, priority, maxAttempts, availableAt, at));
      history := NextHistory(history, View(), Enqueue(id, scope, units, priority, maxAttempts, availableAt, at));
      hide Inv;
      ok := id !in work && 1 <= maxAttempts <= 10;
      if ok {
        work := work[id := Work(scope, units, Queued, priority, 0, maxAttempts, availableAt, None, at)];
      }
    }

    /** _reserve_cost: nothing to do, refused and blocked, or reserved; never committed on its own. */
    method ReserveCost(id: string, period: string) returns (ok: bool)
      requires id in work
      modifies this
      ensures killSwitch == old(killSwitch) && usage == old(usage) && history == old(history)
      ensures var w := old(work)[id];
        var account := Account(w.scope, period);
        if Covered(old(View()), id) then ok && View() == old(View())
        else if Affordable(old(View()), account, w.units) then
          ok && View() == Reserve(old(View()), id, account, w.units)
        else !ok && View() == WithWork(old(View()), id, w.(status := BudgetBlocked))
    {
      var w := work[id];
      if w.units <= 0.0 || id in reservations {
        return true;
      }
      var account := Account(w.scope, period);
      if account !in budgets || budgets[account].used + budgets[account].reserved + w.units > budgets[account].limit {
        work := work[id := w.(status := BudgetBlocked)];
        return false;
      }
      budgets := budgets[account := budgets[account].(reserved := budgets[account].reserved + w.units)];
      reservations := reservations[id := Reservation(account, w.units)];
      return true;
    }

    method SettleCost(id: string, consume: bool)
      modifies this
      ensures View() == Settle(old(View()), id, consume) && history == old(history)
    {
      if id !in reservations {
        return;
      }
      var r := reservations[id];
      if r.account in budgets {
        var b := budgets[r.account];
        if consume {
          budgets := budgets[r.account := b.(reserved := b.reserved - r.units, used := b.used + r.units)];
        } else {
          budgets := budgets[r.account := b.(reserved := b.reserved - r.units)];
        }
      }
      if consume {
        usage := usage + [Usage(id, r.account, r.units)];
      }
      reservations := reservations - {id};
    }

    /** The query of claim_work: the first due row, or none when no row is due. */
    method SelectDue(scopes: set<string>, at: Instant) returns (pick: Option<string>)
      ensures pick.Some? ==> FirstDue(work, scopes, at, pick.value)
      ensures pick.None? ==> forall k | k in work :: !Due(work[k], scopes, at)
    {
      var due := set k | k in work && Due(work[k], scopes, at);
      if due == {} {
        assert forall k | k in work :: Due(work[k], scopes, at) ==> k in due;
        return None;
      }
      ghost var first := SomeFirst(work, due);
      assert FirstDue(work, scopes, at, first);
      var chosen :| chosen in due && FirstDue(work, scopes, at, chosen);
      return Some(chosen);
    }

    /** claim_work: at most one item, leased and paid for, or blocked for lack of budget. */
    method ClaimWork(worker: string, scopes: set<string>, period: string, at: Instant, leaseSeconds: int)
      returns (claimed: Option<Work>, pick: Option<string>)
      requires Valid()
      modifies this
      ensures pick.Some? ==>
        && !old(killSwitch) && FirstDue(old(work), scopes, at, pick.value)
        && Stepped(old(View()), old(history), Claim(pick.value, worker, scopes, period, at, at + leaseSeconds))
        && claimed == if work[pick.value].status.Running? then Some(work[pick.value]) else None
      ensures pick.None? ==>
        && claimed.None? && View() == old(View()) && history == old(history)
        && (killSwitch || forall k | k in work :: !Due(work[k], scopes, at))
    {
      claimed, pick := None, None;
      if killSwitch {
        return;
      }
      pick := SelectDue(scopes, at);
      if pick.None? {
        return;
      }
      var leased := LeaseDue(pick.value, worker, scopes, period, at, at + leaseSeconds);
      if leased {
        claimed := Some(work[pick.value]);
      }
    }

    /** The rest of the claim's transaction: reserve the cost, then lease the row. */
    method LeaseDue(
      id: string, worker: string, ghost scopes: set<string>, period: string, at: Instant, leaseUntil: Instant)
      returns (leased: bool)
      requires Valid() && !killSwitch && FirstDue(work, scopes, at, id)
      modifies this
      ensures Stepped(old(View()), old(history), Claim(id, worker, scopes, period, at, leaseUntil))
      ensures id in work && (leased <==> work[id].status.Running?)
    {
      ghost var before := View();
      var w := work[id];
      NextKeepsInv(before, history, Claim(id, worker, scopes, period, at, leaseUntil));
      ClaimInSteps(before, Claim(id, worker, scopes, period, at, leaseUntil));
      assert NextHistory(history, before, Claim(id, worker, scopes, period, at, leaseUntil)) == history;
      hide Inv, FirstDue, Next, Covered, Affordable;
      leased := ReserveCost(id, period);
      if !leased {
        return;
      }
      work := work[id := LeasedWork(w, worker, leaseUntil)];
      assert View() == if Covered(before, id) then WithWork(before, id, work[id])
        else WithWork(Reserve(before, id, Account(w.scope, period), w.units), id, work[id]);
    }

    method BlockWork(id: string, worker: string, approvalRequired: bool) returns (ok: bool)
      requires Valid()
      modifies this
      ensures ok <==> Held(old(View()), id, worker)
      ensures Stepped(old(View()), old(history), Block(id, worker, approvalRequired))
    {
      NextKeepsInv(View(), history, Block(id, worker, approvalRequired));
      hide Inv, Settle;
      ok := Held(View(), id, worker);
      if ok {
        var status := if approvalRequired then ApprovalBlocked else PolicyBlocked;
        work := work[id := work[id].(status := status, lease := None)];
        SettleCost(id, false);
      }
    }

    method CompleteWork(id: string, worker: string, resultUnits: real) returns (ok: bool)
      requires Valid()
      modifies this
      ensures ok <==> Held(old(View()), id, worker)
      ensures Stepped(old(View()), old(history), Complete(id, worker, resultUnits))
    {
      NextKeepsInv(View(), history, Complete(id, worker, resultUnits));
      hide Inv, Settle;
      ok := Held(View(), id, worker);
      if ok {
        work := work[id := work[id].(status := Succeeded, units := resultUnits, lease := None)];
        SettleCost(id, true);
      }
    }

    method FailWork(id: string, worker: string, at: Instant, retrySeconds: int) returns (ok: bool)
      requires Valid()
      modifies this
      ensures ok <==> Held(old(View()), id, worker)
      ensures Stepped(old(View()), old(history), Fail(id, worker, at + retrySeconds))
    {
      NextKeepsInv(View(), history, Fail(id, worker, at + retrySeconds));
      hide Inv, Settle;
      ghost var before := View();
      ok := Held(View(), id, worker);
      if ok {
        var status := if work[id].attempts >= work[id].maxAttempts then DeadLetter else Queued;
        work := work[id := work[id].(status := status, availableAt := at + retrySeconds, lease := None)];
        assert View() == WithWork(before, id, work[id]);
        hide Held;
        SettleCost(id, false);
      }
    }
  }
}
