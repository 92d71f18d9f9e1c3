/**
 The claim scan of the restore outbox, row by row: which row is leased, which rows are failed, and
 that no other row is touched (sean_os/store.py:1133-1182).
 */
module RestoreScan {
  import opened Basics
  import opened Evidence
  import opened Outbox
  import opened Store
  import opened StoreClass

  /** Due, and free to run: attempts left, at a time inside its window. */
  predicate Runnable(t: Table<RestorePlan, RestoreReceipt>, k: Digest, at: Instant)
    requires k in t
  {
    && t[k].status.Authorized? && t[k].availableAt <= at && LeaseFree(t[k], at)
    && t[k].attempts < t[k].maxAttempts
    && t[k].plan.body.identity.windowStart <= at < t[k].plan.body.identity.windowEnd
  }

  /** Due, but out of attempts or past the end of its window. */
  predicate Expired(t: Table<RestorePlan, RestoreReceipt>, k: Digest, at: Instant)
    requires k in t
  {
    && t[k].status.Authorized? && t[k].availableAt <= at && LeaseFree(t[k], at)
    && (t[k].attempts >= t[k].maxAttempts || at >= t[k].plan.body.identity.windowEnd)
  }

  /** A runnable row earlier in (created_at, hash) order. */
  ghost predicate RunnableBefore(t: Table<RestorePlan, RestoreReceipt>, k: Digest, at: Instant)
    requires k in t
  {
    exists j | j in t :: Runnable(t, j, at) && Before(t, j, k)
  }

  lemma PickIsFirstRunnable(t: Table<RestorePlan, RestoreReceipt>, at: Instant, k: Digest)
    requires k in t
    ensures RestorePick(t, at) == Some(k) <==> Runnable(t, k, at) && !RunnableBefore(t, k, at)
  {
    var open := set j | j in RestoreDue(t, at) && Open(t[j], at);
    assert forall j | j in t :: j in open <==> Runnable(t, j, at);
    if RestorePick(t, at) == Some(k) {
      assert IsFirst(t, open, k);
    }
    if Runnable(t, k, at) && !RunnableBefore(t, k, at) {
      assert k in open;
      var p := RestorePick(t, at).value;
      assert IsFirst(t, open, p);
    }
  }

  lemma SweptAreExpired(t: Table<RestorePlan, RestoreReceipt>, at: Instant, k: Digest)
    requires k in t
    ensures k in RestoreSwept(t, at) <==> Expired(t, k, at) && !RunnableBefore(t, k, at)
  {
    var open := set j | j in RestoreDue(t, at) && Open(t[j], at);
    assert forall j | j in t :: j in open <==> Runnable(t, j, at);
    var pick := RestorePick(t, at);
    if pick.Some? { assert IsFirst(t, open, pick.value); }
    if pick.Some? && k !in open {
      assert Before(t, k, pick.value) <==> !Before(t, pick.value, k);
    }
  }

  /**
   A claim leases the first runnable row, fails exactly the expired rows with no runnable row before
   them, and leaves every other row as it was.
   */
  lemma RestoreScanOutcome(c: Checks, db: Db, e: Event, k: Digest)
    requires e.ClaimRestore? && StoreClass.ClaimProceeds(db, e.worker, e.leaseSeconds) && k in db.restores
    ensures k in Next(c, db, e).restores
    ensures var t := db.restores;
      Next(c, db, e).restores[k] ==
        if RunnableBefore(t, k, e.at) then t[k]
        else if Runnable(t, k, e.at) then
          t[k].(attempts := t[k].attempts + 1,
                lease := Some(Lease(e.worker, Min(e.at + e.leaseSeconds, t[k].plan.body.identity.windowEnd))))
        else if Expired(t, k, e.at) then t[k].(status := Failed, lease := None)
        else t[k]
  {
    RestoreClaimEffect(c, db, e);
    PickIsFirstRunnable(db.restores, e.at, k);
    SweptAreExpired(db.restores, e.at, k);
    hide Next, RestorePick, RestoreSwept, RunnableBefore;
  }
}
