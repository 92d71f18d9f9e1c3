/**
 record as it runs: the search loop over artifact records, then one insert and commit at a time
 (sean_os/integrations.py:130-250). A crash is a number of commits after which nothing more happens.
 */
module CodingDeliveryClass {
  import opened Basics
  import opened CodingDelivery

  datatype Receipt = Receipt(deliveryId: string, artifact: string, deduplicated: bool)

  class CodingDeliveryAdapter {
    var records: seq<Artifact>
    var deliveries: map<string, Delivery>
    var links: multiset<Link>
    const sha: Payload -> Digest

    function View(): Db reads this {
      Db(records, deliveries, links)
    }

    constructor (sha: Payload -> Digest)
      ensures View() == Db([], map[], multiset{}) && this.sha == sha
    {
      this.sha := sha;
      records, deliveries, links := [], map[], multiset{};
    }

    /** The search for an artifact that an interrupted call left behind. */
    method Recover(externalId: string) returns (found: Option<Artifact>)
      ensures found == Find(records, externalId)
    {
      found := None;
      var i := 0;
      while i < |records|
        invariant 0 <= i <= |records|
        invariant Find(records, externalId) == Find(records[i..], externalId)
      {
        if records[i].externalId == externalId {
          return Some(records[i]);
        }
        assert records[i..][1..] == records[i + 1..];
        i := i + 1;
      }
    }

    /** _ensure_link: one commit if the link is missing; false when the crash comes first. */
    method EnsureLink(l: Link, commits: nat) returns (ok: bool, left: nat)
      modifies this`links
      ensures l in old(links) ==> ok && left == commits && links == old(links)
      ensures l !in old(links) ==>
        if commits == 0 then !ok && links == old(links) && left == 0
        else ok && left == commits - 1 && links == old(links) + multiset{l}
    {
      ok, left := true, commits;
      if l !in links {
        if commits == 0 {
          return false, 0;
        }
        links := links + multiset{l};
        left := commits - 1;
      }
    }

    /** The two links of a delivery that is already in the ledger. */
    method EnsureLinks(p: Payload, ghost id: string, ghost deliveryId: string, commits: nat) returns (ok: bool)
      requires p.externalId in deliveries && deliveries[p.externalId].sha == sha(p)
      modifies this`links
      ensures View() == Recorded(old(View()), p, sha(p), id, deliveryId, commits)
      ensures ok ==> Commit(View(), p, sha(p), id, deliveryId).None?
      ensures ok <==> commits >= MissingLinks(old(View()), p, deliveries[p.externalId].artifact)
    {
      var artifact := deliveries[p.externalId].artifact;
      LinksRecorded(View(), p, sha(p), id, deliveryId, commits);
      hide Recorded;
      var left;
      ok, left := EnsureLink(Link(artifact, DELIVERS, p.task), commits);
      if ok {
        ok, left := EnsureLink(Link(artifact, EVIDENCE, p.project), left);
      }
    }

    /** record, with its input checks given as one verdict; `commits` is where the crash comes. */
    method Record(p: Payload, admitted: bool, id: string, deliveryId: string, commits: nat)
      returns (r: Result<Receipt>)
      modifies this
      ensures !admitted ==> r.Err? && View() == old(View())
      ensures admitted ==> View() == Recorded(old(View()), p, sha(p), id, deliveryId, commits)
      ensures r.Ok? <==>
        admitted && !Conflicts(old(View()), p, sha(p)) && commits >= Remaining(old(View()), p, id)
      ensures r.Ok? ==>
        && Commit(View(), p, sha(p), id, deliveryId).None?
        && p.externalId in deliveries
        && r.value.deliveryId == deliveries[p.externalId].deliveryId
        && r.value.artifact == deliveries[p.externalId].artifact == ArtifactIdOf(old(View()), p, id)
        && (r.value.deduplicated <==>
              p.externalId in old(deliveries) || Find(old(records), p.externalId).Some?)
    {
      if !admitted {
        return Err("refused");
      }
      hide Find;
      var digest := sha(p);
      var left := commits;
      var ok;
      if p.externalId in deliveries {
        if deliveries[p.externalId].sha != digest {
          return Err("reused with different evidence");
        }
        var d := deliveries[p.externalId];
        ok := EnsureLinks(p, id, deliveryId, left);
        r := if ok then Ok(Receipt(d.deliveryId, d.artifact, true)) else Err("crash");
        return;
      }
      var found := Recover(p.externalId);
      var artifact;
      if found.Some? {
        artifact := found.value;
        if artifact.sha != digest {
          return Err("recovered evidence has changed");
        }
      } else {
        if left == 0 {
          return Err("crash");
        }
        artifact := Artifact(id, p.externalId, digest, deliveryId, p.project, p.task);
        FindAppended(records, artifact);
        ghost var before := View();
        records := records + [artifact];
        TookCommit(before, View(), p, digest, id, deliveryId, left);
        left := left - 1;
      }
      hide Recorded, Commit, Conflicts;
      r := Deliver(p, artifact, found.Some?, id, deliveryId, left);
    }

    /** The ledger row of an artifact that is on record, and then the links. */
    method Deliver(
      p: Payload, artifact: Artifact, deduplicated: bool, ghost id: string, ghost deliveryId: string, commits: nat)
      returns (r: Result<Receipt>)
      requires p.externalId !in deliveries && Find(records, p.externalId) == Some(artifact) && artifact.sha == sha(p)
      modifies this
      ensures View() == Recorded(old(View()), p, sha(p), id, deliveryId, commits)
      ensures r.Ok? <==> commits >= 1 + MissingLinks(old(View()), p, artifact.id)
      ensures r.Ok? ==>
        && Commit(View(), p, sha(p), id, deliveryId).None? && p.externalId in deliveries
        && r.value == Receipt(artifact.deliveryId, artifact.id, deduplicated)
        && deliveries[p.externalId] == Delivery(artifact.deliveryId, sha(p), artifact.id)
    {
      hide Find;
      if commits == 0 {
        return Err("crash");
      }
      ghost var before := View();
      deliveries := deliveries[p.externalId := Delivery(artifact.deliveryId, sha(p), artifact.id)];
      TookCommit(before, View(), p, sha(p), id, deliveryId, commits);
      hide Recorded, Commit;
      var ok := EnsureLinks(p, id, deliveryId, commits - 1);
      r := if ok then Ok(Receipt(artifact.deliveryId, artifact.id, deduplicated)) else Err("crash");
    }
  }

  /** One link if it is missing and there is a commit left for it: the files, the commits left, and success. */
  function Linking(db: Db, l: Link, commits: nat): (Db, nat, bool) {
    if l in db.links then (db, commits, true)
    else if commits == 0 then (db, 0, false)
    else (db.(links := db.links + multiset{l}), commits - 1, true)
  }

  lemma LinksRecorded(db: Db, p: Payload, sha: Digest, id: string, deliveryId: string, commits: nat)
    requires p.externalId in db.deliveries && db.deliveries[p.externalId].sha == sha
    ensures var artifact := db.deliveries[p.externalId].artifact;
      var (d, left, ok) := Linking(db, Link(artifact, DELIVERS, p.task), commits);
      var (e, _, done) := Linking(d, Link(artifact, EVIDENCE, p.project), left);
      Recorded(db, p, sha, id, deliveryId, commits) == if ok then e else d
  {
    var artifact := db.deliveries[p.externalId].artifact;
    var first, second := Link(artifact, DELIVERS, p.task), Link(artifact, EVIDENCE, p.project);
    assert first != second;
    var (d, left, ok) := Linking(db, first, commits);
    if first !in db.links && commits > 0 {
      assert Commit(db, p, sha, id, deliveryId) == Some(d);
      assert Recorded(db, p, sha, id, deliveryId, commits) == Recorded(d, p, sha, id, deliveryId, left);
    }
    if ok {
      var (e, rest, done) := Linking(d, second, left);
      assert first in d.links;
      if second !in d.links && left > 0 {
        assert Commit(d, p, sha, id, deliveryId) == Some(e);
        assert Recorded(d, p, sha, id, deliveryId, left) == Recorded(e, p, sha, id, deliveryId, rest);
      }
      assert done ==> Commit(e, p, sha, id, deliveryId).None?;
    }
  }

  lemma TookCommit(db: Db, d: Db, p: Payload, sha: Digest, id: string, deliveryId: string, commits: nat)
    requires commits > 0 && Commit(db, p, sha, id, deliveryId) == Some(d)
    ensures Recorded(db, p, sha, id, deliveryId, commits) == Recorded(d, p, sha, id, deliveryId, commits - 1)
  {
  }
}
