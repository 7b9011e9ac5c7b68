/** At the counter's maximum ids repeat whatever the hash, and runs reach it. */
module Saturation {
  import opened Prims
  import opened Frame
  import opened Credential
  import opened Runtime
  import opened CredentialLedger
  import opened CredentialRuns
  import opened Staging

  /** x issues to itself at the two positions from which the counter no longer moves. */
  function TwiceAtMaximum(x: AccountId): Plan {
    Plan(U64_MAX, x, x, U64_MAX + 1, x, x)
  }

  lemma SameIdAtMaximum(cfg: Config, l: Ledger, x: AccountId)
    requires WellFormed(cfg, l) && FollowsPlan(l, TwiceAtMaximum(x), U64_MAX + 2)
    ensures l[U64_MAX].credentialId == l[U64_MAX + 1].credentialId
    ensures !NoRepeatAtMaximum(l)
    ensures !NoRepeatAmong(l, HolderIs(x)) && !NoRepeatAmong(l, IssuerIs(x))
  {
    var n: nat := U64_MAX;
    assert l[n].holder == x && l[n + 1].holder == x && l[n].issuer == x && l[n + 1].issuer == x;
  }

  /** For every runtime that lets an account have a key and two credentials, for every account x and
      whatever the hash, some run from genesis brings the counter to its maximum, where two issues by x
      to itself draw the same id. Both succeed; the first credential is lost, its hash leads to the
      second, and both lists of x name one id twice. */
  lemma SaturatedCounterOverwrites(cfg: Config, x: AccountId)
    returns (run: seq<Action>, once: seq<Action>, twice: seq<Action>)
    requires cfg.maxPublicKeys > 0 && cfg.maxCredentialsPerHolder >= 2
    ensures After(cfg, run).credential.nextId == U64_MAX
    ensures once == run + [IssueAction(x, x, U64_MAX)] && twice == once + [IssueAction(x, x, U64_MAX + 1)]
    ensures Succeeds(cfg, After(cfg, run), IssueAction(x, x, U64_MAX))
    ensures Succeeds(cfg, After(cfg, once), IssueAction(x, x, U64_MAX + 1))
    ensures var t, first, second := After(cfg, twice).credential, U64_MAX as Bytes32, (U64_MAX + 1) as Bytes32;
      && first in t.byHash && second in t.byHash && t.byHash[first] == t.byHash[second]
      && LeadsHome(t, second) && !LeadsHome(t, first)
      && |t.credentials| < |t.byHash| && !IndexSound(t)
      && !NoRepeats(IdsOf(t.HeldBy(x))) && !NoRepeats(t.IssuedBy(x))
    ensures !DistinctIds(Issued(cfg, twice))
  {
    var p, n: nat := TwiceAtMaximum(x), U64_MAX;
    run := Stage(cfg, p, n);
    CredentialsRefineLedger(cfg, run);
    once := IssuePlanned(cfg, run, p, n);
    twice := IssuePlanned(cfg, once, p, n + 1);
    CredentialsRefineLedger(cfg, twice);
    var l := Issued(cfg, twice);
    SameIdAtMaximum(cfg, l, x);
    RepeatedId(cfg, After(cfg, twice).credential, l, n, n + 1);
    ListsNameOnce(cfg, twice, x);
  }

  /** Ids can come to repeat through the saturated counter exactly in runtimes that let an account
      have a key and two credentials; the hash does not matter. */
  lemma SaturationExactly(cfg: Config)
    ensures (exists run :: !NoRepeatAtMaximum(Issued(cfg, run))) <==>
            cfg.maxPublicKeys > 0 && cfg.maxCredentialsPerHolder >= 2
  {
    if cfg.maxPublicKeys > 0 && cfg.maxCredentialsPerHolder >= 2 {
      var run := RepeatIsReachable(cfg);
    }
    if run :| !NoRepeatAtMaximum(Issued(cfg, run)) {
      var l := Issued(cfg, run);
      var i, j :| U64_MAX <= i < j < |l| && l[i].issuer == l[j].issuer && l[i].holder == l[j].holder;
      RunHasRoom(cfg, run, i, j);
    }
  }

  lemma RepeatIsReachable(cfg: Config) returns (run: seq<Action>)
    requires cfg.maxPublicKeys > 0 && cfg.maxCredentialsPerHolder >= 2
    ensures !NoRepeatAtMaximum(Issued(cfg, run))
  {
    run := Stage(cfg, TwiceAtMaximum(0), U64_MAX + 2);
    CredentialsRefineLedger(cfg, run);
    SameIdAtMaximum(cfg, Issued(cfg, run), 0);
  }

  // ---------- a failed verification that comes back ----------

  function RevokeAction(issuer: AccountId, id: Bytes32): Action {
    Action.Call(Signed(issuer), ToCredential(RevokeCredential(id)))
  }

  lemma RevokeWorks(cfg: Config, run: seq<Action>, id: Bytes32)
    requires id in After(cfg, run).credential.credentials && After(cfg, run).credential.credentials[id].status == Active
    ensures var a := RevokeAction(After(cfg, run).credential.credentials[id].issuer, id);
      && Succeeds(cfg, After(cfg, run), a)
      && Issued(cfg, run + [a]) == Issued(cfg, run) && After(cfg, run + [a]).did == After(cfg, run).did
      && id in After(cfg, run + [a]).credential.credentials
      && After(cfg, run + [a]).credential.credentials[id].status == Revoked
      && After(cfg, run + [a]).credential.byHash == After(cfg, run).credential.byHash
  {
    var a := RevokeAction(After(cfg, run).credential.credentials[id].issuer, id);
    IssuedSnoc(cfg, run, a);
    NextByPallet(cfg, After(cfg, run), a);
  }

  lemma RevokedFails(cfg: Config, s: Storage, who: AccountId, hash: Bytes32)
    requires hash in s.credential.byHash && s.credential.byHash[hash] in s.credential.credentials
    requires s.credential.credentials[s.credential.byHash[hash]].status == Revoked
    ensures VerifyOutcome(cfg, s, who, hash) == Err(CredentialFailed(CredentialNotActive))
  {
  }

  /** Finality does fail: in every such runtime some run revokes a credential at the maximum, so that its
      hash no longer verifies, and one more issue to the same pair makes that hash verify again. */
  lemma RevokedHashVerifiesAgain(cfg: Config, x: AccountId, who: AccountId)
    returns (failing: seq<Action>, again: Action)
    requires cfg.maxPublicKeys > 0 && cfg.maxCredentialsPerHolder >= 2
    ensures HashIssued(Issued(cfg, failing), U64_MAX as Bytes32)
    ensures VerifyOutcome(cfg, After(cfg, failing), who, U64_MAX as Bytes32)
            == Err(CredentialFailed(CredentialNotActive))
    ensures Succeeds(cfg, After(cfg, failing), again)
    ensures VerifyOutcome(cfg, After(cfg, failing + [again]), who, U64_MAX as Bytes32).Ok?
  {
    var p, n: nat := TwiceAtMaximum(x), U64_MAX;
    var run := Stage(cfg, p, n);
    var once := IssuePlanned(cfg, run, p, n);
    var id;
    failing, id := RevokeTheFirst(cfg, run, once, x, who);
    again := IssueAction(x, x, n + 1);
    var twice := IssuePlanned(cfg, failing, p, n + 1);
    SecondIsLive(cfg, failing, twice, x, who);
  }

  lemma RevokeTheFirst(cfg: Config, run: seq<Action>, once: seq<Action>, x: AccountId, who: AccountId)
    returns (failing: seq<Action>, id: Bytes32)
    requires Staged(cfg, once, TwiceAtMaximum(x), U64_MAX + 1) && |Issued(cfg, run)| == U64_MAX
    requires once == run + [IssueAction(x, x, U64_MAX)]
    ensures Issued(cfg, failing) == Issued(cfg, once) && After(cfg, failing).did == After(cfg, once).did
    ensures HashIssued(Issued(cfg, failing), U64_MAX as Bytes32)
    ensures VerifyOutcome(cfg, After(cfg, failing), who, U64_MAX as Bytes32)
            == Err(CredentialFailed(CredentialNotActive))
  {
    var n: nat, l := U64_MAX, Issued(cfg, once);
    JustAfter(cfg, run, IssueAction(x, x, n));
    id := l[n].credentialId;
    RevokeWorks(cfg, once, id);
    failing := once + [RevokeAction(x, id)];
    CredentialsRefineLedger(cfg, once);
    HashIndexAt(l, n);
    assert l[n].credentialHash == n as Bytes32;
    RevokedFails(cfg, After(cfg, failing), who, n as Bytes32);
  }

  lemma SecondIsLive(cfg: Config, failing: seq<Action>, twice: seq<Action>, x: AccountId, who: AccountId)
    requires Staged(cfg, twice, TwiceAtMaximum(x), U64_MAX + 2) && |Issued(cfg, failing)| == U64_MAX + 1
    requires twice == failing + [IssueAction(x, x, U64_MAX + 1)]
    requires Issued(cfg, twice)[U64_MAX + 1].expiresAt == None
    ensures VerifyOutcome(cfg, After(cfg, twice), who, U64_MAX as Bytes32).Ok?
  {
    var n: nat, l := U64_MAX, Issued(cfg, twice);
    JustAfter(cfg, failing, IssueAction(x, x, n + 1));
    CredentialsRefineLedger(cfg, twice);
    SameIdAtMaximum(cfg, l, x);
    HashIndexAt(l, n);
    assert l[n].credentialHash == n as Bytes32;
    VerifyFollowsIndex(cfg, After(cfg, twice), who, n as Bytes32);
  }
}
