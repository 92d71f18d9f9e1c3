/**
 The durable work queue and its budget ledger: what each committed transaction does, and what every
 run of them conserves (sean_os/store.py:1917-1933, sean_os/store.py:2212-2434). Units are reals.
 */
module WorkQueue {
  import opened Basics

  datatype Status = Queued | Running | Succeeded | DeadLetter | BudgetBlocked | ApprovalBlocked | PolicyBlocked

  datatype WorkLease = WorkLease(owner: string, expiresAt: Instant)

  /** `units` is what the stored payload names as its estimated cost; completion replaces the payload. */
  datatype Work = Work(
    scope: string, units: real, status: Status, priority: int, attempts: nat, maxAttempts: nat,
    availableAt: Instant, lease: Option<WorkLease>, createdAt: Instant)

  datatype Account = Account(scope: string, period: string)

  datatype Budget = Budget(limit: real, used: real, reserved: real)

  datatype Reservation = Reservation(account: Account, units: real)

  datatype Usage = Usage(work: string, account: Account, units: real)

  datatype Ledger = Ledger(
    killSwitch: bool, work: map<string, Work>, budgets: map<Account, Budget>,
    reservations: map<string, Reservation>, usage: seq<Usage>)

  /** What the ledger forgets: the estimate each item was enqueued with, the largest limit ever set. */
  datatype History = History(estimates: map<string, real>, highest: map<Account, real>)

  /** One committed transaction, with what it reads of the clock and chooses among equals. */
  datatype Event =
    | SetKillSwitch(on: bool)
    | Configure(account: Account, limit: real)
    | Enqueue(
        id: string, scope: string, units: real, priority: int, maxAttempts: nat, availableAt: Instant, at: Instant)
    | Claim(pick: string, worker: string, scopes: set<string>, period: string, at: Instant, leaseUntil: Instant)
    | Block(id: string, worker: string, approvalRequired: bool)
    | Complete(id: string, worker: string, resultUnits: real)
    | Fail(id: string, worker: string, retryAt: Instant)

  const SCOPES: set<string> := {"PERSONAL", "IAC", "SHARED"}

  // ---------------------------------------------------------------- transactions

  predicate Due(w: Work, scopes: set<string>, at: Instant) {
    && w.scope in scopes
    && ((w.status.Queued? && w.availableAt <= at)
        || (w.status.Running? && w.lease.Some? && w.lease.value.expiresAt <= at))
  }

  predicate Precedes(v: Work, w: Work) {
    v.priority < w.priority || (v.priority == w.priority && v.createdAt < w.createdAt)
  }

  /** A due item that no other due item precedes; equals are the database's choice. */
  predicate FirstDue(work: map<string, Work>, scopes: set<string>, at: Instant, pick: string) {
    && pick in work && Due(work[pick], scopes, at)
    && forall k | k in work && Due(work[k], scopes, at) :: !Precedes(work[k], work[pick])
  }

  predicate Held(s: Ledger, id: string, worker: string) {
    id in s.work && s.work[id].status.Running? && s.work[id].lease.Some? && s.work[id].lease.value.owner == worker
  }

  /** _reserve_cost, when there is nothing to reserve any more. */
  predicate Covered(s: Ledger, id: string)
    requires id in s.work
  {
    s.work[id].units <= 0.0 || id in s.reservations
  }

  predicate Affordable(s: Ledger, account: Account, units: real) {
    account in s.budgets
    && s.budgets[account].used + s.budgets[account].reserved + units <= s.budgets[account].limit
  }

  function Reserve(s: Ledger, id: string, account: Account, units: real): Ledger
    requires account in s.budgets
  {
    var b := s.budgets[account];
    s.(budgets := s.budgets[account := b.(reserved := b.reserved + units)],
       reservations := s.reservations[id := Reservation(account, units)])
  }

  /** _settle_cost: release a reservation, turning it into a usage event if it is consumed. */
  function Settle(s: Ledger, id: string, consume: bool): Ledger {
    if id !in s.reservations then s else
    var r := s.reservations[id];
    var t := s.(reservations := s.reservations - {id},
                usage := if consume then s.usage + [Usage(id, r.account, r.units)] else s.usage);
    if r.account !in s.budgets then t else
    var b := s.budgets[r.account];
    t.(budgets := s.budgets[r.account :=
      b.(reserved := b.reserved - r.units, used := if consume then b.used + r.units else b.used)])
  }

  function WithWork(s: Ledger, id: string, w: Work): Ledger {
    s.(work := s.work[id := w])
  }

  function LeasedWork(w: Work, worker: string, leaseUntil: Instant): Work {
    w.(status := Running, lease := Some(WorkLease(worker, leaseUntil)), attempts := w.attempts + 1)
  }

  function NextClaim(s: Ledger, e: Event): Ledger
    requires e.Claim?
  {
    if s.killSwitch || !FirstDue(s.work, e.scopes, e.at, e.pick) then s else
    var w := s.work[e.pick];
    var leased := WithWork(s, e.pick, LeasedWork(w, e.worker, e.leaseUntil));
    var account := Account(w.scope, e.period);
    if Covered(s, e.pick) then leased
    else if !Affordable(s, account, w.units) then WithWork(s, e.pick, w.(status := BudgetBlocked))
    else Reserve(leased, e.pick, account, w.units)
  }

  function Next(s: Ledger, e: Event): Ledger {
    match e
    case SetKillSwitch(on) => s.(killSwitch := on)
    case Configure(account, limit) =>
      if limit < 0.0 || account.scope !in SCOPES then s
      else if account in s.budgets then s.(budgets := s.budgets[account := s.budgets[account].(limit := limit)])
      else s.(budgets := s.budgets[account := Budget(limit, 0.0, 0.0)])
    case Enqueue(id, scope, units, priority, maxAttempts, availableAt, at) =>
      if id in s.work || !(1 <= maxAttempts <= 10) then s
      else WithWork(s, id, Work(scope, units, Queued, priority, 0, maxAttempts, availableAt, None, at))
    case Claim(_, _, _, _, _, _) => NextClaim(s, e)
    case Block(id, worker, approvalRequired) =>
      if !Held(s, id, worker) then s
      else
        var status := if approvalRequired then ApprovalBlocked else PolicyBlocked;
        Settle(WithWork(s, id, s.work[id].(status := status, lease := None)), id, false)
    case Complete(id, worker, resultUnits) =>
      if !Held(s, id, worker) then s
      else Settle(WithWork(s, id, s.work[id].(status := Succeeded, units := resultUnits, lease := None)), id, true)
    case Fail(id, worker, retryAt) =>
      if !Held(s, id, worker) then s
      else
        var status := if s.work[id].attempts >= s.work[id].maxAttempts then DeadLetter else Queued;
        Settle(WithWork(s, id, s.work[id].(status := status, availableAt := retryAt, lease := None)), id, false)
  }

  function NextHistory(h: History, s: Ledger, e: Event): History {
    if e.Configure? && e.limit >= 0.0 && e.account.scope in SCOPES then
      h.(highest := h.highest[e.account :=
        if e.account in h.highest && h.highest[e.account] > e.limit then h.highest[e.account] else e.limit])
    else if e.Enqueue? && e.id !in s.work && 1 <= e.maxAttempts <= 10 then
      h.(estimates := h.estimates[e.id := e.units])
    else h
  }

  const EMPTY := Ledger(false, map[], map[], map[], [])

  function Run(events: seq<Event>): (Ledger, History)
    decreases |events|
  {
    if events == [] then (EMPTY, History(map[], map[])) else
    var (s, h) := Run(events[..|events| - 1]);
    var e := events[|events| - 1];
    (Next(s, e), NextHistory(h, s, e))
  }

  // ---------------------------------------------------------------- sums

  function Charge(r: Reservation, a: Account): real {
    if r.account == a then r.units else 0.0
  }

  /** Everything reserved against one account. */
  ghost function TotalReserved(m: map<string, Reservation>, a: Account): real {
    if m == map[] then 0.0 else
    var k :| k in m;
    Charge(m[k], a) + TotalReserved(m - {k}, a)
  }

  lemma {:induction false} TotalWithout(m: map<string, Reservation>, k: string, a: Account)
    requires k in m
    ensures TotalReserved(m, a) == Charge(m[k], a) + TotalReserved(m - {k}, a)
    decreases |m|
  {
    var j :| j in m && TotalReserved(m, a) == Charge(m[j], a) + TotalReserved(m - {j}, a);
    if j != k {
      TotalWithout(m - {j}, k, a);
      TotalWithout(m - {k}, j, a);
      assert m - {j} - {k} == m - {k} - {j};
    }
  }

  lemma TotalWith(m: map<string, Reservation>, k: string, r: Reservation, a: Account)
    requires k !in m
    ensures TotalReserved(m[k := r], a) == Charge(r, a) + TotalReserved(m, a)
  {
    TotalWithout(m[k := r], k, a);
    assert m[k := r] - {k} == m;
  }

  function TotalUsed(usage: seq<Usage>, a: Account): real {
    if usage == [] then 0.0
    else
      var u := usage[|usage| - 1];
      TotalUsed(usage[..|usage| - 1], a) + if u.account == a then u.units else 0.0
  }

  function UsageCount(usage: seq<Usage>, id: string): nat {
    if usage == [] then 0
    else UsageCount(usage[..|usage| - 1], id) + if usage[|usage| - 1].work == id then 1 else 0
  }

  lemma UsageSnoc(usage: seq<Usage>, u: Usage, a: Account, id: string)
    ensures TotalUsed(usage + [u], a) == TotalUsed(usage, a) + if u.account == a then u.units else 0.0
    ensures UsageCount(usage + [u], id) == UsageCount(usage, id) + if u.work == id then 1 else 0
  {
    assert (usage + [u])[..|usage|] == usage;
  }

  // ---------------------------------------------------------------- the invariant

  ghost predicate BudgetOk(s: Ledger, h: History, a: Account)
    requires a in s.budgets && a in h.highest
  {
    var b := s.budgets[a];
    && b.reserved == TotalReserved(s.reservations, a) && b.used == TotalUsed(s.usage, a)
    && b.used + b.reserved <= h.highest[a] && 0.0 <= b.limit <= h.highest[a]
  }

  ghost predicate ReservationOk(s: Ledger, h: History, id: string)
    requires id in s.reservations
  {
    var r := s.reservations[id];
    && id in s.work && id in h.estimates
    && r.units == h.estimates[id] && r.account.scope == s.work[id].scope && r.account in s.budgets
  }

  ghost predicate WorkOk(s: Ledger, h: History, id: string)
    requires id in s.work && id in h.estimates
  {
    var w := s.work[id];
    && (w.status.Running? <==> w.lease.Some?)
    && (!w.status.Succeeded? ==> w.units == h.estimates[id])
    && (id in s.reservations <==> w.status.Running? && h.estimates[id] > 0.0)
    && UsageCount(s.usage, id) == if w.status.Succeeded? && h.estimates[id] > 0.0 then 1 else 0
  }

  ghost predicate UsageOk(s: Ledger, h: History) {
    forall i | 0 <= i < |s.usage| ::
      && s.usage[i].work in s.work && s.usage[i].work in h.estimates
      && s.usage[i].units == h.estimates[s.usage[i].work] > 0.0
      && s.usage[i].account.scope == s.work[s.usage[i].work].scope
      && s.usage[i].account in s.budgets
  }

  /** Conservation of units, in every reachable state. */
  ghost predicate Inv(s: Ledger, h: History) {
    && h.estimates.Keys == s.work.Keys && h.highest.Keys == s.budgets.Keys
    && (forall a | a in s.budgets :: BudgetOk(s, h, a))
    && (forall id | id in s.reservations :: ReservationOk(s, h, id))
    && (forall id | id in s.work :: WorkOk(s, h, id))
    && UsageOk(s, h)
  }

  lemma UncountedWork(s: Ledger, h: History, id: string)
    requires UsageOk(s, h) && id !in s.work
    ensures UsageCount(s.usage, id) == 0
  {
    CountZero(s.usage, id);
  }

  lemma {:induction false} CountZero(usage: seq<Usage>, id: string)
    requires forall i | 0 <= i < |usage| :: usage[i].work != id
    ensures UsageCount(usage, id) == 0
  {
    if usage != [] { CountZero(usage[..|usage| - 1], id); }
  }

  lemma {:induction false} NothingReserved(m: map<string, Reservation>, a: Account)
    requires forall k | k in m :: m[k].account != a
    ensures TotalReserved(m, a) == 0.0
    decreases |m|
  {
    if k :| k in m {
      TotalWithout(m, k, a);
      NothingReserved(m - {k}, a);
    }
  }

  lemma {:induction false} NothingUsed(usage: seq<Usage>, a: Account)
    requires forall i | 0 <= i < |usage| :: usage[i].account != a
    ensures TotalUsed(usage, a) == 0.0
  {
    if usage != [] { NothingUsed(usage[..|usage| - 1], a); }
  }

  lemma ConfiguredBudgetOk(s: Ledger, h: History, e: Event, a: Account)
    requires Inv(s, h) && e.Configure? && e.limit >= 0.0 && e.account.scope in SCOPES && a in Next(s, e).budgets
    ensures a in NextHistory(h, s, e).highest && BudgetOk(Next(s, e), NextHistory(h, s, e), a)
  {
    if a in s.budgets {
      assert BudgetOk(s, h, a);
    } else {
      NothingReserved(s.reservations, e.account);
      NothingUsed(s.usage, e.account);
    }
    hide TotalReserved, TotalUsed, ReservationOk, WorkOk, UsageOk;
  }

  lemma ConfigureKeepsInv(s: Ledger, h: History, e: Event)
    requires Inv(s, h) && e.Configure?
    ensures Inv(Next(s, e), NextHistory(h, s, e))
  {
    if e.limit >= 0.0 && e.account.scope in SCOPES {
      var t, g := Next(s, e), NextHistory(h, s, e);
      OnlyBudgetsChange(s, h, t, g);
      hide BudgetOk, ReservationOk, WorkOk, UsageOk;
      forall a | a in t.budgets ensures a in g.highest && BudgetOk(t, g, a) { ConfiguredBudgetOk(s, h, e, a); }
    }
  }

  /** Work, reservations and usage stay in order when only budgets gain rows or new limits. */
  lemma OnlyBudgetsChange(s: Ledger, h: History, t: Ledger, g: History)
    requires Inv(s, h) && t.work == s.work && t.reservations == s.reservations && t.usage == s.usage
    requires g.estimates == h.estimates && s.budgets.Keys <= t.budgets.Keys
    ensures forall id | id in t.work :: WorkOk(t, g, id)
    ensures forall id | id in t.reservations :: ReservationOk(t, g, id)
    ensures UsageOk(t, g)
  {
    forall id | id in t.work ensures WorkOk(t, g, id) { assert WorkOk(s, h, id); }
    forall id | id in t.reservations ensures ReservationOk(t, g, id) { assert ReservationOk(s, h, id); }
    hide BudgetOk;
  }

  predicate Enqueues(s: Ledger, e: Event) {
    e.Enqueue? && e.id !in s.work && 1 <= e.maxAttempts <= 10
  }

  lemma EnqueuedWorkOk(s: Ledger, h: History, e: Event, id: string)
    requires Inv(s, h) && Enqueues(s, e) && id in Next(s, e).work
    ensures id in NextHistory(h, s, e).estimates && WorkOk(Next(s, e), NextHistory(h, s, e), id)
  {
    if id == e.id {
      UncountedWork(s, h, e.id);
      assert e.id in s.reservations ==> ReservationOk(s, h, e.id);
    } else {
      assert WorkOk(s, h, id);
    }
    hide UsageCount, BudgetOk, UsageOk;
  }

  lemma EnqueuedRestOk(s: Ledger, h: History, e: Event)
    requires Inv(s, h) && Enqueues(s, e)
    ensures var t, g := Next(s, e), NextHistory(h, s, e);
      && (forall id | id in t.reservations :: ReservationOk(t, g, id))
      && (forall a | a in t.budgets :: a in g.highest && BudgetOk(t, g, a)) && UsageOk(t, g)
  {
    var t, g := Next(s, e), NextHistory(h, s, e);
    forall id | id in t.reservations ensures ReservationOk(t, g, id) { assert ReservationOk(s, h, id); }
    forall a | a in t.budgets ensures a in g.highest && BudgetOk(t, g, a) { assert BudgetOk(s, h, a); }
    hide TotalReserved, TotalUsed, WorkOk;
  }

  lemma EnqueueKeepsInv(s: Ledger, h: History, e: Event)
    requires Inv(s, h) && e.Enqueue?
    ensures Inv(Next(s, e), NextHistory(h, s, e))
  {
    if Enqueues(s, e) {
      var t, g := Next(s, e), NextHistory(h, s, e);
      forall id | id in t.work ensures id in g.estimates && WorkOk(t, g, id) { EnqueuedWorkOk(s, h, e, id); }
      EnqueuedRestOk(s, h, e);
      hide WorkOk, ReservationOk, BudgetOk, UsageOk;
    }
  }

  /** An item changes without touching the ledger, and stays running or stays without a claim on it. */
  lemma WorkChangeKeepsInv(s: Ledger, h: History, id: string, w: Work)
    requires Inv(s, h) && id in s.work && w.scope == s.work[id].scope && w.units == s.work[id].units
    requires !s.work[id].status.Succeeded? && !w.status.Succeeded?
    requires w.status.Running? <==> w.lease.Some?
    requires w.status.Running? && h.estimates[id] > 0.0 <==> id in s.reservations
    ensures Inv(WithWork(s, id, w), h)
  {
    var t := WithWork(s, id, w);
    forall k | k in t.work ensures WorkOk(t, h, k) { assert WorkOk(s, h, k); }
    forall k | k in t.reservations ensures ReservationOk(t, h, k) { assert ReservationOk(s, h, k); }
    forall a | a in t.budgets ensures BudgetOk(t, h, a) { assert BudgetOk(s, h, a); }
  }

  lemma ReserveKeepsInv(s: Ledger, h: History, id: string, w: Work, account: Account)
    requires Inv(s, h) && id in s.work && s.work[id].status.Queued? && h.estimates[id] > 0.0
    requires w.scope == s.work[id].scope == account.scope && w.units == s.work[id].units
    requires w.status.Running? && w.lease.Some? && Affordable(s, account, w.units)
    ensures Inv(Reserve(WithWork(s, id, w), id, account, w.units), h)
  {
    var t := Reserve(WithWork(s, id, w), id, account, w.units);
    assert WorkOk(s, h, id);
    ReservedWorkOk(s, h, id, w, account);
    hide BudgetOk, WorkOk, ReservationOk, UsageOk;
    forall a | a in t.budgets ensures BudgetOk(t, h, a) { ReservedBudgetOk(s, h, id, w, account, a); }
  }

  lemma ReservedWorkOk(s: Ledger, h: History, id: string, w: Work, account: Account)
    requires Inv(s, h) && id in s.work && s.work[id].status.Queued? && h.estimates[id] > 0.0
    requires w.scope == s.work[id].scope == account.scope && w.units == s.work[id].units
    requires w.status.Running? && w.lease.Some? && account in s.budgets
    ensures var t := Reserve(WithWork(s, id, w), id, account, w.units);
      && (forall k | k in t.work :: WorkOk(t, h, k))
      && (forall k | k in t.reservations :: ReservationOk(t, h, k)) && UsageOk(t, h)
  {
    var t := Reserve(WithWork(s, id, w), id, account, w.units);
    assert WorkOk(s, h, id);
    hide BudgetOk, UsageCount;
    forall k | k in t.work ensures WorkOk(t, h, k) { assert WorkOk(s, h, k); }
    forall k | k in t.reservations ensures ReservationOk(t, h, k) {
      assert k in s.reservations ==> ReservationOk(s, h, k);
    }
  }

  lemma ReservedBudgetOk(s: Ledger, h: History, id: string, w: Work, account: Account, a: Account)
    requires Inv(s, h) && id in s.work && id !in s.reservations && Affordable(s, account, w.units) && a in s.budgets
    ensures BudgetOk(Reserve(WithWork(s, id, w), id, account, w.units), h, a)
  {
    assert BudgetOk(s, h, a);
    TotalWith(s.reservations, id, Reservation(account, w.units), a);
    hide TotalReserved, TotalUsed, WorkOk, ReservationOk, UsageOk;
  }

  lemma ClaimKeepsInv(s: Ledger, h: History, e: Event)
    requires Inv(s, h) && e.Claim?
    ensures Inv(Next(s, e), NextHistory(h, s, e))
  {
    if !s.killSwitch && FirstDue(s.work, e.scopes, e.at, e.pick) {
      var w := s.work[e.pick];
      assert WorkOk(s, h, e.pick);
      if Covered(s, e.pick) {
        WorkChangeKeepsInv(s, h, e.pick, LeasedWork(w, e.worker, e.leaseUntil));
      } else if !Affordable(s, Account(w.scope, e.period), w.units) {
        WorkChangeKeepsInv(s, h, e.pick, w.(status := BudgetBlocked));
      } else {
        ReserveKeepsInv(s, h, e.pick, LeasedWork(w, e.worker, e.leaseUntil), Account(w.scope, e.period));
      }
    }
  }

  lemma SettledBudgetOk(s: Ledger, h: History, id: string, w: Work, consume: bool, a: Account)
    requires Inv(s, h) && id in s.work && a in s.budgets
    ensures BudgetOk(Settle(WithWork(s, id, w), id, consume), h, a)
  {
    assert BudgetOk(s, h, a);
    if id in s.reservations {
      var r := s.reservations[id];
      assert ReservationOk(s, h, id);
      TotalWithout(s.reservations, id, a);
      UsageSnoc(s.usage, Usage(id, r.account, r.units), a, id);
    }
    hide Inv;
  }

  lemma SettledWorkOk(s: Ledger, h: History, id: string, w: Work, consume: bool, k: string)
    requires Inv(s, h) && id in s.work && s.work[id].status.Running? && !w.status.Running? && w.lease.None?
    requires if consume then w.status.Succeeded? else !w.status.Succeeded? && w.units == s.work[id].units
    requires k in s.work
    ensures WorkOk(Settle(WithWork(s, id, w), id, consume), h, k)
  {
    assert WorkOk(s, h, k);
    assert WorkOk(s, h, id);
    SettledParts(WithWork(s, id, w), id, consume, k);
    hide Inv, Settle, UsageCount;
  }

  lemma SettledParts(s: Ledger, id: string, consume: bool, k: string)
    ensures var t := Settle(s, id, consume);
      && t.work == s.work && t.reservations == s.reservations - {id}
      && UsageCount(t.usage, k)
        == UsageCount(s.usage, k) + if consume && id in s.reservations && k == id then 1 else 0
  {
    if id in s.reservations {
      var r := s.reservations[id];
      UsageSnoc(s.usage, Usage(id, r.account, r.units), r.account, k);
    }
  }

  lemma SettledReservationOk(s: Ledger, h: History, id: string, w: Work, consume: bool, k: string)
    requires Inv(s, h) && id in s.work && w.scope == s.work[id].scope
    requires k in s.reservations && k != id
    ensures ReservationOk(Settle(WithWork(s, id, w), id, consume), h, k)
  {
    assert ReservationOk(s, h, k);
    hide Inv;
  }

  lemma SettledUsageOk(s: Ledger, h: History, id: string, w: Work, consume: bool)
    requires Inv(s, h) && id in s.work && w.scope == s.work[id].scope
    ensures UsageOk(Settle(WithWork(s, id, w), id, consume), h)
  {
    if id in s.reservations {
      assert ReservationOk(s, h, id);
      assert WorkOk(s, h, id);
    }
  }

  /** A running item stops running, and its reservation is settled in the same transaction. */
  lemma StopKeepsInv(s: Ledger, h: History, id: string, w: Work, consume: bool)
    requires Inv(s, h) && id in s.work && s.work[id].status.Running? && !w.status.Running?
    requires w.scope == s.work[id].scope && w.lease.None?
    requires if consume then w.status.Succeeded? else !w.status.Succeeded? && w.units == s.work[id].units
    ensures Inv(Settle(WithWork(s, id, w), id, consume), h)
  {
    var t := Settle(WithWork(s, id, w), id, consume);
    forall k | k in t.work ensures WorkOk(t, h, k) { SettledWorkOk(s, h, id, w, consume, k); }
    forall k | k in t.reservations ensures ReservationOk(t, h, k) { SettledReservationOk(s, h, id, w, consume, k); }
    forall a | a in t.budgets ensures BudgetOk(t, h, a) { SettledBudgetOk(s, h, id, w, consume, a); }
    SettledUsageOk(s, h, id, w, consume);
    assert id in s.reservations ==> ReservationOk(s, h, id);
    hide BudgetOk, ReservationOk, WorkOk, UsageOk;
  }

  lemma NextKeepsInv(s: Ledger, h: History, e: Event)
    requires Inv(s, h)
    ensures Inv(Next(s, e), NextHistory(h, s, e))
  {
    match e
    case SetKillSwitch(on) =>
      var t := Next(s, e);
      forall id | id in t.work ensures WorkOk(t, h, id) { assert WorkOk(s, h, id); }
      forall id | id in t.reservations ensures ReservationOk(t, h, id) { assert ReservationOk(s, h, id); }
      forall a | a in t.budgets ensures BudgetOk(t, h, a) { assert BudgetOk(s, h, a); }
    case Configure(_, _) => ConfigureKeepsInv(s, h, e);
    case Enqueue(_, _, _, _, _, _, _) => EnqueueKeepsInv(s, h, e);
    case Claim(_, _, _, _, _, _) => ClaimKeepsInv(s, h, e);
    case Block(id, worker, approvalRequired) =>
      if Held(s, id, worker) {
        var status := if approvalRequired then ApprovalBlocked else PolicyBlocked;
        StopKeepsInv(s, h, id, s.work[id].(status := status, lease := None), false);
      }
    case Complete(id, worker, resultUnits) =>
      if Held(s, id, worker) {
        StopKeepsInv(s, h, id, s.work[id].(status := Succeeded, units := resultUnits, lease := None), true);
      }
    case Fail(id, worker, retryAt) =>
      if Held(s, id, worker) {
        var status := if s.work[id].attempts >= s.work[id].maxAttempts then DeadLetter else Queued;
        StopKeepsInv(s, h, id, s.work[id].(status := status, availableAt := retryAt, lease := None), false);
      }
  }

  /** Conservation over whole runs. */
  lemma {:induction false} RunKeepsInv(events: seq<Event>)
    ensures Inv(Run(events).0, Run(events).1)
    decreases |events|
  {
    if events != [] {
      RunKeepsInv(events[..|events| - 1]);
      var (s, h) := Run(events[..|events| - 1]);
      NextKeepsInv(s, h, events[|events| - 1]);
    }
  }

  // ---------------------------------------------------------------- what the conservation gives

  lemma {:induction false} TotalReservedNonNegative(m: map<string, Reservation>, a: Account)
    requires forall k | k in m :: m[k].units >= 0.0
    ensures TotalReserved(m, a) >= 0.0
    decreases |m|
  {
    if k :| k in m {
      TotalWithout(m, k, a);
      TotalReservedNonNegative(m - {k}, a);
    }
  }

  lemma {:induction false} TotalUsedNonNegative(usage: seq<Usage>, a: Account)
    requires forall i | 0 <= i < |usage| :: usage[i].units >= 0.0
    ensures TotalUsed(usage, a) >= 0.0
  {
    if usage != [] { TotalUsedNonNegative(usage[..|usage| - 1], a); }
  }

  /** Every account always balances, and never exceeds the largest limit ever configured for it. */
  lemma AccountsBalance(events: seq<Event>, a: Account)
    requires a in Run(events).0.budgets
    ensures var (s, h) := Run(events);
      var b := s.budgets[a];
      && b.reserved == TotalReserved(s.reservations, a) >= 0.0
      && b.used == TotalUsed(s.usage, a) >= 0.0
      && a in h.highest && b.used + b.reserved <= h.highest[a]
  {
    RunKeepsInv(events);
    var (s, h) := Run(events);
    assert BudgetOk(s, h, a);
    forall k | k in s.reservations ensures s.reservations[k].units >= 0.0 {
      assert ReservationOk(s, h, k) && WorkOk(s, h, k);
    }
    TotalReservedNonNegative(s.reservations, a);
    TotalUsedNonNegative(s.usage, a);
  }

  /** What an item was enqueued with decides what it holds, and what it has used, in every state. */
  lemma WorkAccounted(events: seq<Event>, id: string)
    requires id in Run(events).0.work
    ensures var (s, h) := Run(events);
      var w := s.work[id];
      && id in h.estimates
      && (id in s.reservations <==> w.status.Running? && h.estimates[id] > 0.0)
      && (id in s.reservations ==> s.reservations[id].units == h.estimates[id])
      && UsageCount(s.usage, id) == (if w.status.Succeeded? && h.estimates[id] > 0.0 then 1 else 0)
      && forall i | 0 <= i < |s.usage| && s.usage[i].work == id :: s.usage[i].units == h.estimates[id]
  {
    RunKeepsInv(events);
    var (s, h) := Run(events);
    assert WorkOk(s, h, id);
    assert id in s.reservations ==> ReservationOk(s, h, id);
  }

  predicate Configures(e: Event, a: Account) {
    e.Configure? && e.account == a && e.limit >= 0.0 && a.scope in SCOPES
  }

  /** The recorded maximum is one of the configured limits, and the largest of them. */
  lemma {:induction false} HighestIsLargest(events: seq<Event>, a: Account)
    ensures var h := Run(events).1;
      && (a in h.highest <==> exists i :: 0 <= i < |events| && Configures(events[i], a))
      && (a in h.highest ==>
            && (exists i :: 0 <= i < |events| && Configures(events[i], a) && events[i].limit == h.highest[a])
            && forall i | 0 <= i < |events| && Configures(events[i], a) :: events[i].limit <= h.highest[a])
    decreases |events|
  {
    if events != [] {
      var before, e := events[..|events| - 1], events[|events| - 1];
      HighestIsLargest(before, a);
      assert forall i | 0 <= i < |before| :: before[i] == events[i];
      if a in Run(before).1.highest {
        var i :| 0 <= i < |before| && Configures(before[i], a) && before[i].limit == Run(before).1.highest[a];
        assert Configures(events[i], a) && events[i].limit == before[i].limit;
      }
      assert Configures(e, a) ==> Configures(events[|events| - 1], a);
    }
  }

  predicate Creates(events: seq<Event>, i: int, id: string, units: real) {
    0 <= i < |events| && events[i].Enqueue? && events[i].id == id && events[i].units == units
    && id !in Run(events[..i]).0.work
  }

  /** The recorded estimate is the one of the transaction that created the item. */
  lemma {:induction false} EstimateIsEnqueued(events: seq<Event>, id: string)
    requires id in Run(events).1.estimates
    ensures exists i :: Creates(events, i, id, Run(events).1.estimates[id])
    decreases |events|
  {
    var last := |events| - 1;
    var units := Run(events).1.estimates[id];
    if events[last].Enqueue? && events[last].id == id && id !in Run(events[..last]).0.work
       && 1 <= events[last].maxAttempts <= 10 {
      assert Creates(events, last, id, units);
    } else {
      EstimateIsEnqueued(events[..last], id);
      var i :| Creates(events[..last], i, id, units);
      assert events[..last][..i] == events[..i];
      assert Creates(events, i, id, units);
    }
  }

  function Committed(s: Ledger, a: Account): real {
    if a in s.budgets then s.budgets[a].used + s.budgets[a].reserved else 0.0
  }

  /** A claim raises what is committed only within the limit then in force, and changes no limit. */
  lemma ClaimWithinLimit(s: Ledger, h: History, e: Event, a: Account)
    requires Inv(s, h) && e.Claim? && a in s.budgets
    ensures var t := Next(s, e);
      && a in t.budgets && t.budgets[a].limit == s.budgets[a].limit && t.budgets[a].used == s.budgets[a].used
      && Committed(t, a) >= Committed(s, a)
      && (Committed(t, a) > Committed(s, a) ==> Committed(t, a) <= t.budgets[a].limit)
  {
    if !s.killSwitch && FirstDue(s.work, e.scopes, e.at, e.pick) {
      assert WorkOk(s, h, e.pick);
    }
  }

  /** Settling never raises what is committed: completing keeps it, failing and blocking release it. */
  lemma SettlementNeverRaises(s: Ledger, h: History, e: Event, a: Account)
    requires Inv(s, h) && (e.Block? || e.Complete? || e.Fail?)
    ensures var t := Next(s, e);
      && t.budgets.Keys == s.budgets.Keys
      && Committed(t, a) == Committed(s, a) -
           (if Held(s, e.id, e.worker) && !e.Complete? && e.id in s.reservations && s.reservations[e.id].account == a
            then s.reservations[e.id].units else 0.0)
      && Committed(t, a) <= Committed(s, a)
  {
    if e.id in s.reservations {
      assert ReservationOk(s, h, e.id);
      assert WorkOk(s, h, e.id);
    }
    hide Settle, Inv, Committed;
    if Held(s, e.id, e.worker) {
      SettledWork(s, e);
      SettledCommitment(s, e.id, Next(s, e).work[e.id], e.Complete?, a);
    }
  }

  lemma SettledWork(s: Ledger, e: Event)
    requires (e.Block? || e.Complete? || e.Fail?) && Held(s, e.id, e.worker)
    ensures e.id in Next(s, e).work
    ensures Next(s, e) == Settle(WithWork(s, e.id, Next(s, e).work[e.id]), e.id, e.Complete?)
  {
  }

  lemma SettledCommitment(s: Ledger, id: string, w: Work, consume: bool, a: Account)
    requires id in s.reservations ==> s.reservations[id].account in s.budgets
    ensures var t := Settle(WithWork(s, id, w), id, consume);
      && t.budgets.Keys == s.budgets.Keys
      && Committed(t, a) == Committed(s, a) -
        if !consume && id in s.reservations && s.reservations[id].account == a then s.reservations[id].units else 0.0
  {
  }

  /** Claiming an item whose lease expired reserves nothing again and is never refused for its budget. */
  lemma ReclaimReservesNothing(s: Ledger, h: History, e: Event)
    requires Inv(s, h) && e.Claim? && !s.killSwitch && FirstDue(s.work, e.scopes, e.at, e.pick)
    requires s.work[e.pick].status.Running?
    ensures var t := Next(s, e);
      && t.budgets == s.budgets && t.reservations == s.reservations && t.usage == s.usage
      && t.work == s.work[e.pick := LeasedWork(s.work[e.pick], e.worker, e.leaseUntil)]
  {
    assert WorkOk(s, h, e.pick);
  }

  /** A claim is refused for its budget exactly when a queued item costs more than is left. */
  lemma BudgetBlockedIff(s: Ledger, h: History, e: Event)
    requires Inv(s, h) && e.Claim? && !s.killSwitch && FirstDue(s.work, e.scopes, e.at, e.pick)
    ensures var w := s.work[e.pick];
      Next(s, e).work[e.pick].status.BudgetBlocked? <==>
        w.status.Queued? && h.estimates[e.pick] > 0.0 && !Affordable(s, Account(w.scope, e.period), h.estimates[e.pick])
  {
    assert WorkOk(s, h, e.pick);
  }

  predicate Open(w: Work) {
    w.status.Queued? || w.status.Running?
  }

  lemma ClosedStays(s: Ledger, e: Event, id: string)
    requires id in s.work && !Open(s.work[id])
    ensures id in Next(s, e).work && Next(s, e).work[id] == s.work[id]
  {
  }

  /** Finished and blocked items are never touched again. */
  lemma {:induction false} ClosedForEver(before: seq<Event>, more: seq<Event>, id: string)
    requires id in Run(before).0.work && !Open(Run(before).0.work[id])
    ensures id in Run(before + more).0.work && Run(before + more).0.work[id] == Run(before).0.work[id]
    decreases |more|
  {
    if more == [] {
      assert before + more == before;
    } else {
      var last := |more| - 1;
      ClosedForEver(before, more[..last], id);
      ClosedStays(Run(before + more[..last]).0, more[last], id);
      hide Next;
      assert (before + more)[..|before + more| - 1] == before + more[..last];
    }
  }

  /** Reclaims are not limited by max_attempts: a worker that keeps dying is followed for ever. */
  lemma {:induction false} ReclaimsUnbounded(id: string, scope: string, n: nat) returns (events: seq<Event>)
    ensures id in Run(events).0.work && !Run(events).0.killSwitch && Run(events).0.work.Keys == {id}
    ensures var w := Run(events).0.work[id];
      && w.attempts == n && w.maxAttempts == 1 && w.units == 0.0 && w.scope == scope && w.availableAt == 0
      && if n == 0 then w.status.Queued? else w.status.Running? && w.lease == Some(WorkLease("worker", n))
  {
    if n == 0 {
      events := [Enqueue(id, scope, 0.0, 100, 1, 0, 0)];
      assert events[..0] == [];
    } else {
      var before := ReclaimsUnbounded(id, scope, n - 1);
      var e := Claim(id, "worker", {scope}, "2026-08", n - 1, n);
      events := before + [e];
      assert events[..|events| - 1] == before;
    }
  }
}
