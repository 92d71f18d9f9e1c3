/**
 When the attempts of a work item stay within its maximum. Only fail_work looks at max_attempts, so a
 queued item has attempts left, and exactly the claims that follow an expired lease of a spent item
 break the bound (sean_os/store.py:2290-2324, sean_os/store.py:2415-2434).
 */
module WorkAttempts {
  import opened Basics
  import opened WorkQueue

  /** The claim takes over an item whose lease expired on its last attempt, or later. */
  predicate TakesSpent(s: Ledger, e: Event, id: string) {
    && e.Claim? && e.pick == id && !s.killSwitch && FirstDue(s.work, e.scopes, e.at, id)
    && s.work[id].status.Running? && s.work[id].attempts >= s.work[id].maxAttempts
  }

  predicate NeverTakesSpent(events: seq<Event>, id: string) {
    forall i | 0 <= i < |events| :: !TakesSpent(Run(events[..i]).0, events[i], id)
  }

  /** One transaction: what it makes of an item's attempts, and that a queued item has some left. */
  lemma AttemptsMove(s: Ledger, h: History, e: Event, id: string)
    requires Inv(s, h) && id in s.work
    requires s.work[id].status.Queued? ==> s.work[id].attempts < s.work[id].maxAttempts
    ensures id in Next(s, e).work
    ensures var w, w' := s.work[id], Next(s, e).work[id];
      && w'.maxAttempts == w.maxAttempts && w.attempts <= w'.attempts
      && (w'.status.Queued? ==> w'.attempts < w'.maxAttempts)
      && (w'.attempts <= w'.maxAttempts <==> w.attempts <= w.maxAttempts && !TakesSpent(s, e, id))
  {
    hide Inv, Affordable, Settle, NextClaim, FirstDue;
    if e.Claim? {
      ClaimMoves(s, h, e, id);
    } else {
      StopMoves(s, e, id);
    }
  }

  lemma ClaimMoves(s: Ledger, h: History, e: Event, id: string)
    requires Inv(s, h) && id in s.work && e.Claim?
    requires s.work[id].status.Queued? ==> s.work[id].attempts < s.work[id].maxAttempts
    ensures id in NextClaim(s, e).work
    ensures var w, w' := s.work[id], NextClaim(s, e).work[id];
      && w'.maxAttempts == w.maxAttempts && w.attempts <= w'.attempts
      && (w'.status.Queued? ==> w'.attempts < w'.maxAttempts)
      && (w'.attempts <= w'.maxAttempts <==> w.attempts <= w.maxAttempts && !TakesSpent(s, e, id))
  {
    if TakesSpent(s, e, id) {
      ReclaimReservesNothing(s, h, e);
    }
    hide Inv, Affordable;
  }

  /** No other transaction counts an attempt, and fail_work requeues only while some are left. */
  lemma StopMoves(s: Ledger, e: Event, id: string)
    requires id in s.work && !e.Claim?
    requires s.work[id].status.Queued? ==> s.work[id].attempts < s.work[id].maxAttempts
    ensures id in Next(s, e).work
    ensures var w, w' := s.work[id], Next(s, e).work[id];
      && w'.maxAttempts == w.maxAttempts && w'.attempts == w.attempts
      && (w'.status.Queued? ==> w'.attempts < w'.maxAttempts)
  {
  }

  lemma EnqueuedNow(s: Ledger, e: Event, id: string)
    requires id !in s.work && id in Next(s, e).work
    ensures Next(s, e).work[id].attempts == 0 < Next(s, e).work[id].maxAttempts
  {
  }

  /**
   Over every run: a queued item has attempts left, and an item's attempts are within its maximum if
   and only if no claim of the run took it over when it was spent.
   */
  lemma {:induction false} AttemptsWithinIff(events: seq<Event>, id: string)
    requires id in Run(events).0.work
    ensures var w := Run(events).0.work[id];
      && (w.status.Queued? ==> w.attempts < w.maxAttempts)
      && (w.attempts <= w.maxAttempts <==> NeverTakesSpent(events, id))
    decreases |events|
  {
    var before, e := events[..|events| - 1], events[|events| - 1];
    var (s, h) := Run(before);
    RunKeepsInv(before);
    hide Next, Inv, TakesSpent;
    if id in s.work {
      AttemptsWithinIff(before, id);
      AttemptsMove(s, h, e, id);
    } else {
      EnqueuedNow(s, e, id);
      AbsentNeverTaken(before, id);
      NotTaken(s, e, id);
    }
    TakesSpentSnoc(before, e, id);
    assert before + [e] == events;
  }

  lemma NotTaken(s: Ledger, e: Event, id: string)
    requires id !in s.work
    ensures !TakesSpent(s, e, id)
  {
  }

  lemma StaysThere(s: Ledger, e: Event, id: string)
    requires id in s.work
    ensures id in Next(s, e).work
  {
  }

  /** An item that is not there yet was never claimed. */
  lemma {:induction false} AbsentNeverTaken(events: seq<Event>, id: string)
    requires id !in Run(events).0.work
    ensures NeverTakesSpent(events, id)
    decreases |events|
  {
    hide Next, TakesSpent;
    if events != [] {
      var before, e := events[..|events| - 1], events[|events| - 1];
      var s := Run(before).0;
      if id in s.work { StaysThere(s, e, id); }
      AbsentNeverTaken(before, id);
      NotTaken(s, e, id);
      TakesSpentSnoc(before, e, id);
      assert before + [e] == events;
    }
  }

  lemma TakesSpentSnoc(before: seq<Event>, e: Event, id: string)
    ensures NeverTakesSpent(before + [e], id) <==> NeverTakesSpent(before, id) && !TakesSpent(Run(before).0, e, id)
  {
    hide TakesSpent, Run;
    var events := before + [e];
    assert events[..|before|] == before;
    assert forall i | 0 <= i < |before| :: events[..i] == before[..i];
    if NeverTakesSpent(events, id) {
      assert events[|before|] == e;
    }
  }
}
