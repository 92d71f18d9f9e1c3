/**
 The life of one approval-gated outbox row, shared by backup_transfer_outbox and
 backup_restore_outbox (sean_os/store.py:435-872 and 874-1350). Every statement the store runs
 against either table acts on each row as one of the events below, or not at all.
 */
module Outbox {
  import opened Basics

  datatype Status =
    | Staged | PreflightValidated | Authorized | Completed | Failed | ReconciliationRequired

  /** lease_owner and lease_expires_at, which the store always writes together. */
  datatype Lease = Lease(owner: string, expiresAt: Instant)

  /** One row; `P` is the stored plan and `R` the completion receipt. */
  datatype Row<P, R> = Row(
    plan: P, createdAt: Instant, status: Status, preflight: Option<Digest>,
    approval: Option<string>, attempts: nat, maxAttempts: nat, availableAt: Instant,
    lease: Option<Lease>, receipt: Option<R>)

  datatype RowEvent<R> =
    | Untouched
    | Validate(preflight: Digest)
    | Authorize(approval: string)
    | Claim(worker: string, at: Instant, expiresAt: Instant)
    | Exhaust(at: Instant)
    | Fail(worker: string, availableAt: Instant)
    | Hold(worker: string)
    | Complete(worker: string, at: Instant, receipt: R)

  const DEFAULT_MAX_ATTEMPTS := 3

  function NewRow<P, R>(plan: P, at: Instant): Row<P, R> {
    Row(plan, at, Staged, None, None, 0, DEFAULT_MAX_ATTEMPTS, at, None, None)
  }

  predicate LeaseFree<P, R>(row: Row<P, R>, at: Instant) {
    row.lease.None? || row.lease.value.expiresAt <= at
  }

  predicate HeldBy<P, R>(row: Row<P, R>, worker: string) {
    row.status.Authorized? && row.lease.Some? && row.lease.value.owner == worker
  }

  predicate Exhausted<P, R>(row: Row<P, R>) {
    row.attempts >= row.maxAttempts
  }

  /** The WHERE clause under which an event changes its row. */
  predicate Enabled<P, R>(row: Row<P, R>, e: RowEvent<R>) {
    match e
    case Untouched => true
    case Validate(_) => row.status.Staged?
    case Authorize(_) => row.status.PreflightValidated?
    case Claim(_, at, _) => row.status.Authorized? && LeaseFree(row, at) && !Exhausted(row)
    case Exhaust(at) => row.status.Authorized? && LeaseFree(row, at)
    case Fail(worker, _) => HeldBy(row, worker)
    case Hold(worker) => HeldBy(row, worker)
    case Complete(worker, at, _) => HeldBy(row, worker) && at < row.lease.value.expiresAt
  }

  function Apply<P, R>(row: Row<P, R>, e: RowEvent<R>): Row<P, R> {
    if !Enabled(row, e) then row else
    match e
    case Untouched => row
    case Validate(preflight) => row.(status := PreflightValidated, preflight := Some(preflight))
    case Authorize(approval) => row.(status := Authorized, approval := Some(approval))
    case Claim(worker, _, expiresAt) =>
      row.(lease := Some(Lease(worker, expiresAt)), attempts := row.attempts + 1)
    case Exhaust(_) => row.(status := Failed, lease := None)
    case Fail(_, availableAt) =>
      row.(status := if Exhausted(row) then Failed else Authorized,
           availableAt := availableAt, lease := None)
    case Hold(_) => row.(status := ReconciliationRequired, lease := None)
    case Complete(_, _, receipt) => row.(status := Completed, receipt := Some(receipt), lease := None)
  }

  function Live<P, R>(row: Row<P, R>, life: seq<RowEvent<R>>): Row<P, R>
    decreases |life|
  {
    if life == [] then row else Live(Apply(row, life[0]), life[1..])
  }

  predicate Terminal(s: Status) {
    s.Completed? || s.Failed? || s.ReconciliationRequired?
  }

  /** Holds of a freshly staged row, and of every row for ever after. */
  ghost predicate RowInv<P, R>(row: Row<P, R>) {
    && (row.lease.Some? ==> row.status.Authorized? && row.attempts > 0)
    && row.attempts <= row.maxAttempts
    && (row.approval.Some? <==> row.status.Authorized? || Terminal(row.status))
    && (row.preflight.None? <==> row.status.Staged?)
    && (row.receipt.Some? <==> row.status.Completed?)
    && (row.status.Staged? || row.status.PreflightValidated? ==> row.attempts == 0)
  }

  lemma NewRowInv<P, R>(plan: P, at: Instant)
    ensures RowInv(NewRow<P, R>(plan, at))
  {
  }

  lemma ApplyKeepsInv<P, R>(row: Row<P, R>, e: RowEvent<R>)
    requires RowInv(row)
    ensures RowInv(Apply(row, e))
    ensures Apply(row, e).plan == row.plan
    ensures row.approval.Some? ==> Apply(row, e).approval == row.approval
    ensures Apply(row, e).approval != row.approval ==> e.Authorize? && Apply(row, e).approval == Some(e.approval)
    ensures Apply(row, e).receipt != row.receipt ==> e.Complete? && Apply(row, e).receipt == Some(e.receipt)
    ensures Apply(row, e).lease != row.lease && Apply(row, e).lease.Some?
            ==> e.Claim? && Apply(row, e).lease == Some(Lease(e.worker, e.expiresAt))
  {
  }

  // ---------------------------------------------------------------- whole lives

  /** How many claims in a life took the lease. */
  ghost function Claims<P, R>(row: Row<P, R>, life: seq<RowEvent<R>>): nat
    decreases |life|
  {
    if life == [] then 0 else
      (if life[0].Claim? && Enabled(row, life[0]) then 1 else 0)
      + Claims(Apply(row, life[0]), life[1..])
  }

  /** The worker whose claim took the lease last, starting from `last`. */
  ghost function LatestClaimer<P, R>(
    row: Row<P, R>, life: seq<RowEvent<R>>, last: Option<string>): Option<string>
    decreases |life|
  {
    if life == [] then last else
      LatestClaimer(Apply(row, life[0]), life[1..],
                    if life[0].Claim? && Enabled(row, life[0]) then Some(life[0].worker) else last)
  }

  /** The invariant over a whole life, the claim count, and what can never change. */
  lemma {:induction false} LifeKeeps<P, R>(row: Row<P, R>, life: seq<RowEvent<R>>)
    requires RowInv(row)
    ensures RowInv(Live(row, life))
    ensures Live(row, life).attempts == row.attempts + Claims(row, life)
    ensures Live(row, life).plan == row.plan && Live(row, life).createdAt == row.createdAt
    ensures Live(row, life).maxAttempts == row.maxAttempts
    ensures Claims(row, life) <= row.maxAttempts - row.attempts
    ensures row.approval.Some? ==> Live(row, life).approval == row.approval
    ensures row.preflight.Some? ==> Live(row, life).preflight == row.preflight
    decreases |life|
  {
    if life != [] {
      LifeKeeps(Apply(row, life[0]), life[1..]);
    }
  }

  /** A terminal row is never changed again, in any column. */
  lemma {:induction false} TerminalForEver<P, R>(row: Row<P, R>, life: seq<RowEvent<R>>)
    requires RowInv(row) && Terminal(row.status)
    ensures Live(row, life) == row
    decreases |life|
  {
    if life != [] {
      assert Apply(row, life[0]) == row;
      TerminalForEver(row, life[1..]);
    }
  }

  /** Whoever holds the lease after a life is its latest claimer. */
  lemma {:induction false} LeaseIsLatestClaim<P, R>(
    row: Row<P, R>, life: seq<RowEvent<R>>, last: Option<string>)
    requires row.lease.Some? ==> last == Some(row.lease.value.owner)
    ensures var after := Live(row, life);
      after.lease.Some? ==> LatestClaimer(row, life, last) == Some(after.lease.value.owner)
    decreases |life|
  {
    if life != [] {
      var last' := if life[0].Claim? && Enabled(row, life[0]) then Some(life[0].worker) else last;
      LeaseIsLatestClaim(Apply(row, life[0]), life[1..], last');
    }
  }

  /**
   An event that fails, holds or completes the row comes from the latest claimer, a completion
   also precedes the expiry of that claim's lease, and a new claim finds the previous lease
   released or expired. An event that changes nothing is free.
   */
  ghost predicate Fenced<P, R>(row: Row<P, R>, e: RowEvent<R>, latest: Option<string>) {
    Apply(row, e) != row ==>
      && (e.Fail? || e.Hold? || e.Complete? ==>
            row.lease.Some? && latest == Some(e.worker) == Some(row.lease.value.owner))
      && (e.Complete? ==> row.lease.Some? && e.at < row.lease.value.expiresAt)
      && (e.Claim? && row.lease.Some? ==> row.lease.value.expiresAt <= e.at)
  }

  lemma Fencing<P, R>(row: Row<P, R>, life: seq<RowEvent<R>>, e: RowEvent<R>)
    requires row.lease.None?
    ensures Fenced(Live(row, life), e, LatestClaimer(row, life, None))
  {
    LeaseIsLatestClaim(row, life, None);
  }

  /** Every event of the life changes the row: a claim, a failure or an exhaustion. */
  ghost predicate AllEffective<P, R>(row: Row<P, R>, life: seq<RowEvent<R>>)
    decreases |life|
  {
    life == [] ||
    (&& Enabled(row, life[0]) && (life[0].Claim? || life[0].Fail? || life[0].Exhaust?)
     && AllEffective(Apply(row, life[0]), life[1..]))
  }

  /** Two events for each attempt left, one to give up a lease, one to give up the row. */
  ghost function Budget<P, R>(row: Row<P, R>): nat
    requires RowInv(row)
  {
    if row.status.Authorized? then
      2 * (row.maxAttempts - row.attempts) + (if row.lease.Some? then 1 else 0) + 1
    else 0
  }

  /** Claiming and failing cannot go on for ever: the attempts left bound the length of the run. */
  lemma {:induction false} ClaimAndFailEnds<P, R>(row: Row<P, R>, life: seq<RowEvent<R>>)
    requires RowInv(row) && AllEffective(row, life)
    ensures |life| <= Budget(row)
    decreases |life|
  {
    if life != [] {
      ClaimAndFailEnds(Apply(row, life[0]), life[1..]);
    }
  }

  /** A row can only be spent: with no attempts left, the next failure or sweep makes it FAILED. */
  lemma SpentRowFails<P, R>(row: Row<P, R>, e: RowEvent<R>)
    requires RowInv(row) && row.status.Authorized? && Exhausted(row)
    requires Enabled(row, e) && (e.Claim? || e.Fail? || e.Exhaust?)
    ensures !e.Claim? && Apply(row, e).status.Failed?
  {
  }

  // ---------------------------------------------------------------- scan order

  type Table<P, R> = map<Digest, Row<P, R>>

  /** ORDER BY created_at, hash. */
  predicate Before<P, R>(t: Table<P, R>, a: Digest, b: Digest)
    requires a in t && b in t
  {
    t[a].createdAt < t[b].createdAt || (t[a].createdAt == t[b].createdAt && a < b)
  }

  predicate IsFirst<P, R>(t: Table<P, R>, s: set<Digest>, k: Digest)
    requires s <= t.Keys
  {
    k in s && forall other | other in s && other != k :: Before(t, k, other)
  }

  /** The first of a set of keys in scan order. */
  ghost function First<P, R>(t: Table<P, R>, s: set<Digest>): (k: Option<Digest>)
    requires s <= t.Keys
    ensures k.None? <==> s == {}
    ensures k.Some? ==> IsFirst(t, s, k.value)
  {
    if s == {} then None else
      FirstExists(t, s);
      var k :| IsFirst(t, s, k);
      Some(k)
  }

  lemma {:induction false} FirstExists<P, R>(t: Table<P, R>, s: set<Digest>)
    requires s <= t.Keys && s != {}
    ensures exists k :: IsFirst(t, s, k)
    decreases s
  {
    var some :| some in s;
    var rest := s - {some};
    assert s == rest + {some};
    if rest == {} {
      assert IsFirst(t, s, some);
    } else {
      FirstExists(t, rest);
      var k :| IsFirst(t, rest, k);
      assert IsFirst(t, s, if Before(t, k, some) then k else some);
    }
  }
}
