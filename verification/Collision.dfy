/** Below the counter's maximum ids repeat exactly where the hash collides on buffers that a run can produce. */
module Collision {
  import opened Prims
  import opened Frame
  import opened Credential
  import opened Runtime
  import opened CredentialLedger
  import opened CredentialRuns
  import opened Staging

  /** The hash sends the buffers of two different counters to one value. */
  predicate Colliding(cfg: Config, p: Plan) {
    p.i < p.j <= U64_MAX && cfg.blake2(Preimage(p.i, p.a, p.b)) == cfg.blake2(Preimage(p.j, p.c, p.d))
  }

  lemma SameIdByCollision(cfg: Config, l: Ledger, p: Plan)
    requires Colliding(cfg, p) && WellFormed(cfg, l) && FollowsPlan(l, p, p.j + 1)
    ensures l[p.i].credentialId == l[p.j].credentialId
  {
    assert l[p.i].issuer == p.a && l[p.i].holder == p.b;
    assert l[p.j].issuer == p.c && l[p.j].holder == p.d;
  }

  /** Where the hash collides and the bounds leave room, some run from genesis issues exactly the two
      colliding credentials at their counters: one of them is lost, and its hash leads to the other. */
  lemma CollisionLosesACredential(cfg: Config, p: Plan) returns (run: seq<Action>)
    requires Colliding(cfg, p) && RoomFor(cfg, p)
    ensures |Issued(cfg, run)| == p.j + 1 && !DistinctIds(Issued(cfg, run))
    ensures var t, first, second := After(cfg, run).credential, p.i as Bytes32, p.j as Bytes32;
      && first in t.byHash && second in t.byHash && t.byHash[first] == t.byHash[second]
      && LeadsHome(t, second) && !LeadsHome(t, first) && |t.credentials| < |t.byHash|
  {
    run := Stage(cfg, p, p.j + 1);
    CredentialsRefineLedger(cfg, run);
    var l := Issued(cfg, run);
    SameIdByCollision(cfg, l, p);
    RepeatedId(cfg, After(cfg, run).credential, l, p.i, p.j);
    assert l[p.i].credentialHash == p.i as Bytes32 && l[p.j].credentialHash == p.j as Bytes32;
  }

  /** Up to the maximum, ids can come to repeat exactly in runtimes whose hash collides on the buffers of
      two counters for parties that the bounds leave room for. */
  lemma CollisionExactly(cfg: Config)
    ensures (exists run :: |Issued(cfg, run)| <= U64_MAX + 1 && !DistinctIds(Issued(cfg, run))) <==>
            (exists p :: Colliding(cfg, p) && RoomFor(cfg, p))
  {
    if p :| Colliding(cfg, p) && RoomFor(cfg, p) {
      var run := CollisionLosesACredential(cfg, p);
    }
    if run :| |Issued(cfg, run)| <= U64_MAX + 1 && !DistinctIds(Issued(cfg, run)) {
      var p := RepeatIsCollision(cfg, run);
    }
  }

  lemma RepeatIsCollision(cfg: Config, run: seq<Action>) returns (p: Plan)
    requires |Issued(cfg, run)| <= U64_MAX + 1 && !DistinctIds(Issued(cfg, run))
    ensures Colliding(cfg, p) && RoomFor(cfg, p)
  {
    var l := Issued(cfg, run);
    CredentialsRefineLedger(cfg, run);
    var i, j :| 0 <= i < j < |l| && l[i].credentialId == l[j].credentialId;
    p := Plan(i, l[i].issuer, l[i].holder, j, l[j].issuer, l[j].holder);
    RunHasRoom(cfg, run, i, j);
  }
}
