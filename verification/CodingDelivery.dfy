/**
 CodingDeliveryAdapter.record: four commits, each taken only while it is missing, so that a call
 repeated after a crash at any of them completes the same delivery (sean_os/integrations.py:123-250).
 */
module CodingDelivery {
  import opened Basics

  /** The validated payload: what the stored rows repeat, and the rest. */
  datatype Payload = Payload(externalId: string, project: string, task: string, body: string)

  datatype Artifact = Artifact(
    id: string, externalId: string, sha: Digest, deliveryId: string, project: string, task: string)

  datatype Delivery = Delivery(deliveryId: string, sha: Digest, artifact: string)

  datatype Link = Link(from: string, kind: string, to: string)

  /** The artifact records in row order, the ledger by external id, and all relationships. */
  datatype Db = Db(records: seq<Artifact>, deliveries: map<string, Delivery>, links: multiset<Link>)

  const DELIVERS := "DELIVERS"
  const EVIDENCE := "EVIDENCE_FOR"

  function Find(records: seq<Artifact>, externalId: string): (a: Option<Artifact>)
    ensures a.Some? <==> exists i :: 0 <= i < |records| && records[i].externalId == externalId
    ensures a.Some? ==> a.value in records && a.value.externalId == externalId
  {
    if records == [] then None
    else if records[0].externalId == externalId then Some(records[0])
    else Find(records[1..], externalId)
  }

  function Linked(db: Db, l: Link): Option<Db> {
    if l in db.links then None else Some(db.(links := db.links + multiset{l}))
  }

  /** The next commit a call makes, if any; the new ids are used only by the first of them. */
  function Commit(db: Db, p: Payload, sha: Digest, id: string, deliveryId: string): Option<Db> {
    if p.externalId in db.deliveries then
      var d := db.deliveries[p.externalId];
      if d.sha != sha then None
      else if Linked(db, Link(d.artifact, DELIVERS, p.task)).Some? then Linked(db, Link(d.artifact, DELIVERS, p.task))
      else Linked(db, Link(d.artifact, EVIDENCE, p.project))
    else
      var found := Find(db.records, p.externalId);
      if found.None? then
        Some(db.(records := db.records + [Artifact(id, p.externalId, sha, deliveryId, p.project, p.task)]))
      else if found.value.sha != sha then None
      else Some(db.(deliveries := db.deliveries[p.externalId := Delivery(found.value.deliveryId, sha, found.value.id)]))
  }

  /** A call that crashes after a given number of commits, or ends earlier. */
  function Recorded(db: Db, p: Payload, sha: Digest, id: string, deliveryId: string, commits: nat): Db
    decreases commits
  {
    if commits == 0 || Commit(db, p, sha, id, deliveryId).None? then db
    else Recorded(Commit(db, p, sha, id, deliveryId).value, p, sha, id, deliveryId, commits - 1)
  }

  /** Another payload was already recorded, or begun, under this external id. */
  predicate Conflicts(db: Db, p: Payload, sha: Digest) {
    if p.externalId in db.deliveries then db.deliveries[p.externalId].sha != sha
    else
      var found := Find(db.records, p.externalId);
      found.Some? && found.value.sha != sha
  }

  /** A digest belongs to one payload. */
  ghost predicate ShaOf(a: Artifact, p: Payload, sha: Digest) {
    a.sha == sha && a.externalId == p.externalId ==> a.project == p.project && a.task == p.task
  }

  predicate UniqueArtifacts(records: seq<Artifact>) {
    forall i, j | 0 <= i < j < |records| ::
      records[i].externalId != records[j].externalId && records[i].id != records[j].id
  }

  /** One artifact, one ledger row and at most one link of each kind for each external id. */
  ghost predicate Inv(db: Db) {
    && UniqueArtifacts(db.records)
    && (forall e | e in db.deliveries ::
          exists a :: a in db.records && a.externalId == e && db.deliveries[e] == Delivery(a.deliveryId, a.sha, a.id))
    && forall a, l | a in db.records && l in db.links && l.from == a.id ::
         db.links[l] == 1 && (l == Link(a.id, DELIVERS, a.task) || l == Link(a.id, EVIDENCE, a.project))
  }

  predicate FreshId(db: Db, id: string) {
    && (forall a | a in db.records :: a.id != id)
    && forall l | l in db.links :: l.from != id
  }

  predicate Usable(db: Db, p: Payload, id: string) {
    Find(db.records, p.externalId).None? ==> FreshId(db, id)
  }

  ghost predicate DoneWith(db: Db, p: Payload, sha: Digest, a: Artifact) {
    && a in db.records && a.externalId == p.externalId && a.sha == sha
    && (forall b | b in db.records && b.externalId == p.externalId :: b == a)
    && p.externalId in db.deliveries && db.deliveries[p.externalId] == Delivery(a.deliveryId, sha, a.id)
    && db.links[Link(a.id, DELIVERS, p.task)] == 1 && db.links[Link(a.id, EVIDENCE, p.project)] == 1
    && forall l | l in db.links && l.from == a.id ::
         l == Link(a.id, DELIVERS, p.task) || l == Link(a.id, EVIDENCE, p.project)
  }

  /** Exactly one artifact, one ledger row and one link of each kind. */
  ghost predicate Done(db: Db, p: Payload, sha: Digest) {
    exists a :: DoneWith(db, p, sha, a)
  }

  /** The artifact that a call works on: the delivered, the recovered or a new one. */
  function ArtifactIdOf(db: Db, p: Payload, id: string): string {
    if p.externalId in db.deliveries then db.deliveries[p.externalId].artifact
    else
      var found := Find(db.records, p.externalId);
      if found.Some? then found.value.id else id
  }

  function MissingLinks(db: Db, p: Payload, artifact: string): nat {
    (if Link(artifact, DELIVERS, p.task) in db.links then 0 else 1)
    + (if Link(artifact, EVIDENCE, p.project) in db.links then 0 else 1)
  }

  /** How many commits a call still has to make. */
  function Remaining(db: Db, p: Payload, id: string): (n: nat)
    ensures n <= 4
  {
    MissingLinks(db, p, ArtifactIdOf(db, p, id))
    + (if p.externalId in db.deliveries then 0 else if Find(db.records, p.externalId).Some? then 1 else 2)
  }

  lemma LinkKeepsInv(db: Db, a: Artifact, l: Link)
    requires Inv(db) && a in db.records && l !in db.links
    requires l == Link(a.id, DELIVERS, a.task) || l == Link(a.id, EVIDENCE, a.project)
    ensures Inv(db.(links := db.links + multiset{l}))
  {
    var d := db.(links := db.links + multiset{l});
    forall b, k | b in d.records && k in d.links && k.from == b.id
      ensures d.links[k] == 1 && (k == Link(b.id, DELIVERS, b.task) || k == Link(b.id, EVIDENCE, b.project))
    {
      if k == l && b != a { ArtifactIds(db.records, a, b); }
    }
    forall e | e in d.deliveries
      ensures exists b :: b in d.records && b.externalId == e && d.deliveries[e] == Delivery(b.deliveryId, b.sha, b.id)
    {
      assert e in db.deliveries;
    }
    hide UniqueArtifacts;
  }

  lemma DeliveryKeepsInv(db: Db, a: Artifact)
    requires Inv(db) && a in db.records
    ensures Inv(db.(deliveries := db.deliveries[a.externalId := Delivery(a.deliveryId, a.sha, a.id)]))
  {
    hide UniqueArtifacts;
    var d := db.(deliveries := db.deliveries[a.externalId := Delivery(a.deliveryId, a.sha, a.id)]);
    forall e | e in d.deliveries
      ensures exists b :: b in d.records && b.externalId == e && d.deliveries[e] == Delivery(b.deliveryId, b.sha, b.id)
    {
      assert e == a.externalId || e in db.deliveries;
    }
  }

  lemma ArtifactKeepsInv(db: Db, a: Artifact)
    requires Inv(db) && FreshId(db, a.id) && Find(db.records, a.externalId).None?
    ensures Inv(db.(records := db.records + [a]))
  {
    var d := db.(records := db.records + [a]);
    assert UniqueArtifacts(d.records);
    forall e | e in d.deliveries
      ensures exists b :: b in d.records && b.externalId == e && d.deliveries[e] == Delivery(b.deliveryId, b.sha, b.id)
    {
      var b :| b in db.records && b.externalId == e && db.deliveries[e] == Delivery(b.deliveryId, b.sha, b.id);
      assert b in d.records;
    }
  }

  /** The artifact behind a ledger row. */
  lemma ArtifactOf(db: Db, e: string) returns (a: Artifact)
    requires Inv(db) && e in db.deliveries
    ensures a in db.records && a.externalId == e && db.deliveries[e] == Delivery(a.deliveryId, a.sha, a.id)
  {
    a :| a in db.records && a.externalId == e && db.deliveries[e] == Delivery(a.deliveryId, a.sha, a.id);
  }

  lemma CommitKeepsInv(db: Db, p: Payload, sha: Digest, id: string, deliveryId: string)
    requires Inv(db) && Usable(db, p, id) && Commit(db, p, sha, id, deliveryId).Some?
    requires forall a | a in db.records :: ShaOf(a, p, sha)
    ensures var d := Commit(db, p, sha, id, deliveryId).value;
      Inv(d) && Usable(d, p, id) && (forall a | a in d.records :: ShaOf(a, p, sha)) && !Conflicts(d, p, sha)
  {
    var d := Commit(db, p, sha, id, deliveryId).value;
    if p.externalId in db.deliveries {
      var a := ArtifactOf(db, p.externalId);
      assert ShaOf(a, p, sha);
      hide Inv, Find;
      var l := if Link(a.id, DELIVERS, p.task) in db.links then Link(a.id, EVIDENCE, p.project)
        else Link(a.id, DELIVERS, p.task);
      LinkKeepsInv(db, a, l);
    } else if Find(db.records, p.externalId).Some? {
      hide Inv;
      DeliveryKeepsInv(db, Find(db.records, p.externalId).value);
    } else {
      ArtifactKeepsInv(db, Artifact(id, p.externalId, sha, deliveryId, p.project, p.task));
      hide Inv;
      assert d.records[|db.records|].externalId == p.externalId;
    }
  }

  /** A call that is not refused goes on until everything is there, and then has nothing to do. */
  lemma CommitProgress(db: Db, p: Payload, sha: Digest, id: string, deliveryId: string)
    requires Inv(db) && forall a | a in db.records :: ShaOf(a, p, sha)
    ensures var c := Commit(db, p, sha, id, deliveryId);
      && (c.Some? ==> Remaining(c.value, p, id) < Remaining(db, p, id))
      && (c.None? && !Conflicts(db, p, sha) ==> Done(db, p, sha))
      && (Conflicts(db, p, sha) ==> c.None?)
  {
    var c := Commit(db, p, sha, id, deliveryId);
    if c.Some? && p.externalId !in db.deliveries && Find(db.records, p.externalId).None? {
      FindAppended(db.records, Artifact(id, p.externalId, sha, deliveryId, p.project, p.task));
    }
    if c.None? && !Conflicts(db, p, sha) {
      var a := ArtifactOf(db, p.externalId);
      assert Link(a.id, DELIVERS, p.task) in db.links && Link(a.id, EVIDENCE, p.project) in db.links;
      forall b | b in db.records && b.externalId == p.externalId ensures b == a {
        OneArtifact(db.records, a, b);
      }
      assert DoneWith(db, p, sha, a);
    }
  }

  lemma OneArtifact(records: seq<Artifact>, a: Artifact, b: Artifact)
    requires UniqueArtifacts(records) && a in records && b in records && a.externalId == b.externalId
    ensures a == b
  {
    var i :| 0 <= i < |records| && records[i] == a;
    var j :| 0 <= j < |records| && records[j] == b;
    assert i == j;
  }

  /** A call, however far it comes, leaves at most one of everything. */
  lemma {:induction false} CallKeepsInv(db: Db, p: Payload, sha: Digest, id: string, deliveryId: string, commits: nat)
    requires Inv(db) && Usable(db, p, id) && forall a | a in db.records :: ShaOf(a, p, sha)
    ensures var d := Recorded(db, p, sha, id, deliveryId, commits);
      && Inv(d) && (forall a | a in d.records :: ShaOf(a, p, sha))
      && (Conflicts(d, p, sha) <==> Conflicts(db, p, sha))
      && (commits >= Remaining(db, p, id) && !Conflicts(db, p, sha) ==> Done(d, p, sha))
    decreases commits
  {
    hide Inv, Usable, Done, Conflicts, Commit;
    CommitProgress(db, p, sha, id, deliveryId);
    var c := Commit(db, p, sha, id, deliveryId);
    if c.Some? && commits > 0 {
      CommitKeepsInv(db, p, sha, id, deliveryId);
      CallKeepsInv(c.value, p, sha, id, deliveryId, commits - 1);
    } else if c.Some? {
      NothingRemaining(db, p, sha, id, deliveryId);
    }
  }

  lemma NothingRemaining(db: Db, p: Payload, sha: Digest, id: string, deliveryId: string)
    requires Commit(db, p, sha, id, deliveryId).Some?
    ensures Remaining(db, p, id) > 0
  {
  }

  lemma {:induction false} FindAppended(records: seq<Artifact>, a: Artifact)
    requires Find(records, a.externalId).None?
    ensures Find(records + [a], a.externalId) == Some(a)
  {
    if records != [] {
      assert (records + [a])[1..] == records[1..] + [a];
      FindAppended(records[1..], a);
    }
  }

  /** A finished delivery is not touched by calls for other external ids. */
  lemma OtherCommitKeepsDone(db: Db, p: Payload, sha: Digest, q: Payload, other: Digest, id: string, deliveryId: string)
    requires Inv(db) && Done(db, p, sha) && q.externalId != p.externalId && Usable(db, q, id)
    requires Commit(db, q, other, id, deliveryId).Some?
    ensures Done(Commit(db, q, other, id, deliveryId).value, p, sha)
  {
    var d := Commit(db, q, other, id, deliveryId).value;
    var a :| DoneWith(db, p, sha, a);
    if q.externalId in db.deliveries {
      var b := ArtifactOf(db, q.externalId);
      ArtifactIds(db.records, a, b);
      hide Inv, Find;
      assert forall l | l in d.links :: l in db.links || l.from == b.id;
    }
    hide Inv;
    assert DoneWith(d, p, sha, a);
  }

  lemma ArtifactIds(records: seq<Artifact>, a: Artifact, b: Artifact)
    requires UniqueArtifacts(records) && a in records && b in records && a != b
    ensures a.id != b.id
  {
    var i :| 0 <= i < |records| && records[i] == a;
    var j :| 0 <= j < |records| && records[j] == b;
    assert i < j || j < i;
  }

  // ---------------------------------------------------------------- calls for any external ids

  /** One call: its payload, the ids it draws, and the number of commits it comes to. */
  datatype Call = Call(p: Payload, id: string, deliveryId: string, commits: nat)

  /** Calls one after another, for whatever external ids, each stopping wherever it does. */
  function AfterCalls(db: Db, sha: Payload -> Digest, calls: seq<Call>): Db
    decreases |calls|
  {
    if calls == [] then db else
    var before := AfterCalls(db, sha, calls[..|calls| - 1]);
    var last := calls[|calls| - 1];
    Recorded(before, last.p, sha(last.p), last.id, last.deliveryId, last.commits)
  }

  /** Each call draws new ids. */
  predicate IdsFresh(db: Db, sha: Payload -> Digest, calls: seq<Call>)
    decreases |calls|
  {
    calls == [] || (IdsFresh(db, sha, calls[..|calls| - 1])
                    && Usable(AfterCalls(db, sha, calls[..|calls| - 1]), calls[|calls| - 1].p, calls[|calls| - 1].id))
  }

  /** Among these payloads, equal digests under one external id mean the same project and task. */
  ghost predicate NoCollision(sha: Payload -> Digest, ps: set<Payload>) {
    forall p, q | p in ps && q in ps && p.externalId == q.externalId && sha(p) == sha(q) ::
      p.project == q.project && p.task == q.task
  }

  /** No artifact on record collides with these payloads. */
  ghost predicate Consistent(db: Db, sha: Payload -> Digest, ps: set<Payload>) {
    forall a, p | a in db.records && p in ps :: ShaOf(a, p, sha(p))
  }

  lemma CommitKeepsConsistent(
    db: Db, sha: Payload -> Digest, ps: set<Payload>, p: Payload, id: string, deliveryId: string)
    requires Consistent(db, sha, ps) && NoCollision(sha, ps) && p in ps
    requires Commit(db, p, sha(p), id, deliveryId).Some?
    ensures Consistent(Commit(db, p, sha(p), id, deliveryId).value, sha, ps)
  {
  }

  /** A call for another external id changes nothing that a call for this one reads. */
  lemma CommitKeepsConflicts(db: Db, p: Payload, sha: Digest, q: Payload, other: Digest, id: string, deliveryId: string)
    requires q.externalId != p.externalId && Commit(db, q, other, id, deliveryId).Some?
    ensures Conflicts(Commit(db, q, other, id, deliveryId).value, p, sha) <==> Conflicts(db, p, sha)
  {
    FindOther(db.records, Artifact(id, q.externalId, other, deliveryId, q.project, q.task), p.externalId);
  }

  lemma {:induction false} FindOther(records: seq<Artifact>, a: Artifact, externalId: string)
    requires a.externalId != externalId
    ensures Find(records + [a], externalId) == Find(records, externalId)
  {
    if records != [] {
      assert (records + [a])[1..] == records[1..] + [a];
      FindOther(records[1..], a, externalId);
    } else {
      assert records + [a] == [a];
    }
  }

  /** A finished delivery has nothing left to do, for any payload under its external id. */
  lemma DoneIsFinal(db: Db, p: Payload, sha: Payload -> Digest, q: Payload, id: string, deliveryId: string)
    requires Done(db, p, sha(p)) && q.externalId == p.externalId && NoCollision(sha, {p, q})
    ensures Commit(db, q, sha(q), id, deliveryId).None?
  {
    var a :| DoneWith(db, p, sha(p), a);
    assert p in {p, q} && q in {p, q};
  }

  /** One call of any kind keeps the database in order, and every finished delivery as it is. */
  lemma {:induction false} AnyCallKeeps(
    db: Db, sha: Payload -> Digest, ps: set<Payload>, q: Payload, id: string, deliveryId: string, commits: nat,
    p: Payload)
    requires Inv(db) && Consistent(db, sha, ps) && NoCollision(sha, ps) && q in ps && p in ps && Usable(db, q, id)
    ensures var d := Recorded(db, q, sha(q), id, deliveryId, commits);
      && Inv(d) && Consistent(d, sha, ps)
      && (Done(db, p, sha(p)) ==> Done(d, p, sha(p)))
      && (q.externalId != p.externalId || sha(q) == sha(p) ==> (Conflicts(d, p, sha(p)) <==> Conflicts(db, p, sha(p))))
    decreases commits
  {
    hide Inv, Done, Commit, Find;
    var c := Commit(db, q, sha(q), id, deliveryId);
    if commits > 0 && c.Some? {
      assert forall a | a in db.records :: ShaOf(a, q, sha(q));
      CommitKeepsInv(db, q, sha(q), id, deliveryId);
      CommitKeepsConsistent(db, sha, ps, q, id, deliveryId);
      if q.externalId == p.externalId {
        if Done(db, p, sha(p)) { DoneIsFinal(db, p, sha, q, id, deliveryId); }
        if sha(q) == sha(p) { SameConflicts(db, c.value, p, q, sha(p), id, deliveryId); }
      } else {
        CommitKeepsConflicts(db, p, sha(p), q, sha(q), id, deliveryId);
        if Done(db, p, sha(p)) { OtherCommitKeepsDone(db, p, sha(p), q, sha(q), id, deliveryId); }
      }
      hide Conflicts, Consistent, NoCollision, Usable;
      AnyCallKeeps(c.value, sha, ps, q, id, deliveryId, commits - 1, p);
    }
  }

  /** A commit for the same evidence means that there is no conflict, before it or after. */
  lemma SameConflicts(db: Db, d: Db, p: Payload, q: Payload, sha: Digest, id: string, deliveryId: string)
    requires q.externalId == p.externalId && Commit(db, q, sha, id, deliveryId) == Some(d)
    requires !Conflicts(d, q, sha)
    ensures !Conflicts(db, p, sha) && !Conflicts(d, p, sha)
  {
  }

  function Payloads(calls: seq<Call>): set<Payload> {
    set c | c in calls :: c.p
  }

  /** Every series of calls keeps one of everything, whatever it is interleaved with. */
  lemma {:induction false} CallsKeepInv(db: Db, sha: Payload -> Digest, calls: seq<Call>, ps: set<Payload>, p: Payload)
    requires Inv(db) && IdsFresh(db, sha, calls) && Consistent(db, sha, ps) && NoCollision(sha, ps)
    requires Payloads(calls) <= ps && p in ps
    ensures var d := AfterCalls(db, sha, calls);
      && Inv(d) && Consistent(d, sha, ps)
      && (Done(db, p, sha(p)) ==> Done(d, p, sha(p)))
      && ((forall c | c in calls :: c.p.externalId != p.externalId || sha(c.p) == sha(p)) ==>
            (Conflicts(d, p, sha(p)) <==> Conflicts(db, p, sha(p))))
    decreases |calls|
  {
    hide Inv, Usable, Conflicts, Recorded, Done, Consistent, NoCollision;
    if calls != [] {
      var last, before := calls[|calls| - 1], calls[..|calls| - 1];
      assert last in calls && last.p in Payloads(calls);
      assert forall c | c in before :: c in calls && c.p in Payloads(calls);
      CallsKeepInv(db, sha, before, ps, p);
      AnyCallKeeps(AfterCalls(db, sha, before), sha, ps, last.p, last.id, last.deliveryId, last.commits, p);
    }
  }

  lemma {:induction false} CallsConcat(db: Db, sha: Payload -> Digest, first: seq<Call>, more: seq<Call>)
    requires IdsFresh(db, sha, first + more)
    ensures AfterCalls(db, sha, first + more) == AfterCalls(AfterCalls(db, sha, first), sha, more)
    ensures IdsFresh(db, sha, first) && IdsFresh(AfterCalls(db, sha, first), sha, more)
    decreases |more|
  {
    hide Recorded, Usable;
    if more == [] {
      assert first + more == first;
    } else {
      assert (first + more)[..|first + more| - 1] == first + more[..|more| - 1];
      CallsConcat(db, sha, first, more[..|more| - 1]);
    }
  }

  /**
   Calls for any external ids, crashed anywhere, before and after one call that is let finish: there
   is exactly one artifact, one ledger row and one link of each kind for its external id, for ever,
   unless other evidence was begun under that id before.
   */
  lemma CrashesThenDone(db: Db, sha: Payload -> Digest, calls: seq<Call>, i: nat)
    requires i < |calls| && calls[i].commits >= 4
    requires Inv(db) && IdsFresh(db, sha, calls)
    requires Consistent(db, sha, Payloads(calls)) && NoCollision(sha, Payloads(calls))
    requires var p := calls[i].p;
      && !Conflicts(db, p, sha(p))
      && forall j | 0 <= j < i && calls[j].p.externalId == p.externalId :: sha(calls[j].p) == sha(p)
    ensures Inv(AfterCalls(db, sha, calls)) && Done(AfterCalls(db, sha, calls), calls[i].p, sha(calls[i].p))
  {
    var ps, call := Payloads(calls), calls[i];
    var first, more := calls[..i], calls[i + 1..];
    assert calls == (first + [call]) + more;
    assert forall c | c in calls :: c.p in ps;
    assert call in calls && call.p in ps && Payloads(first) <= ps && Payloads(more) <= ps;
    CallsConcat(db, sha, first + [call], more);
    CallsConcat(db, sha, first, [call]);
    var before := AfterCalls(db, sha, first);
    hide Inv, Usable, Conflicts, Recorded, Done, Consistent, NoCollision, Payloads;
    CallsKeepInv(db, sha, first, ps, call.p);
    OneCall(before, sha, call);
    AnyCallKeeps(before, sha, ps, call.p, call.id, call.deliveryId, call.commits, call.p);
    ShaOfAll(before, sha, ps, call.p);
    CallKeepsInv(before, call.p, sha(call.p), call.id, call.deliveryId, call.commits);
    CallsKeepInv(AfterCalls(before, sha, [call]), sha, more, ps, call.p);
  }

  lemma OneCall(db: Db, sha: Payload -> Digest, call: Call)
    requires IdsFresh(db, sha, [call])
    ensures AfterCalls(db, sha, [call]) == Recorded(db, call.p, sha(call.p), call.id, call.deliveryId, call.commits)
    ensures Usable(db, call.p, call.id)
  {
    assert [call][..0] == [];
    hide Recorded, Usable;
    assert AfterCalls(db, sha, []) == db;
  }

  lemma ShaOfAll(db: Db, sha: Payload -> Digest, ps: set<Payload>, p: Payload)
    requires Consistent(db, sha, ps) && p in ps
    ensures forall a | a in db.records :: ShaOf(a, p, sha(p))
  {
  }
}
