/** Every stored credential and endorsement traces back to the call that made it. */
module Provenance {
  import opened Prims
  import opened Frame
  import opened Seqs
  import opened Did
  import opened Credential
  import opened Reputation
  import opened Runtime
  import CredentialLedger
  import RL = ReputationLedger

  // ---------- credentials ----------

  /** In storage s the action issues a credential with c's fixed fields: the issuer is then a
      verified institution, and it and the holder have active DIDs. */
  ghost predicate MakesCredential(cfg: Config, s: Storage, a: Action, c: Credential) {
    && a.Call? && a.origin == Signed(c.issuer) && a.call.ToCredential? && a.call.credential.IssueCredential?
    && var call := a.call.credential;
    && call.holder == c.holder && call.credentialHash == c.credentialHash
    && call.credentialType == c.credentialType && call.expiresAt == c.expiresAt
    && IsVerified(s.did, c.issuer) && IsActive(s.did, c.issuer) && IsActive(s.did, c.holder)
    && c.credentialHash !in s.credential.byHash && s.block == c.issuedAt
    && c.credentialId == cfg.blake2(Preimage(s.credential.nextId, c.issuer, c.holder))
  }

  lemma StoredOrMade(cfg: Config, s: Storage, a: Action, id: Bytes32)
    requires id in Next(cfg, s, a).credential.credentials
    ensures var c := Next(cfg, s, a).credential.credentials[id];
      || (id in s.credential.credentials && CredentialLedger.SameIssue(s.credential.credentials[id], c))
      || MakesCredential(cfg, s, a, c)
  {
    if a.Call? && a.call.ToCredential? && Succeeds(cfg, s, a) {
      match a.call.credential
      case IssueCredential(_, _, _, _, _) =>
      case RevokeCredential(_) =>
      case VerifyCredential(_) =>
      case UpdateCredentialMetadata(_, _) =>
    }
  }

  ghost predicate MadeAt(cfg: Config, actions: seq<Action>, k: nat, c: Credential) {
    k < |actions| && MakesCredential(cfg, After(cfg, actions[..k]), actions[k], c)
  }

  lemma MadeEarlier(cfg: Config, actions: seq<Action>, k: nat, c: Credential, d: Credential)
    requires |actions| > 0 && MadeAt(cfg, actions[..|actions| - 1], k, c) && CredentialLedger.SameIssue(c, d)
    ensures MadeAt(cfg, actions, k, d)
  {
    assert actions[..|actions| - 1][..k] == actions[..k];
  }

  /** Provenance of credentials, with no assumption on the hash. */
  lemma {:induction false} CredentialProvenance(cfg: Config, actions: seq<Action>, id: Bytes32)
    requires id in After(cfg, actions).credential.credentials
    ensures exists k: nat :: MadeAt(cfg, actions, k, After(cfg, actions).credential.credentials[id])
  {
    if actions != [] {
      var init, a := actions[..|actions| - 1], actions[|actions| - 1];
      var s, c := After(cfg, init), After(cfg, actions).credential.credentials[id];
      StoredOrMade(cfg, s, a, id);
      if MakesCredential(cfg, s, a, c) {
        assert MadeAt(cfg, actions, |actions| - 1, c);
      } else {
        CredentialProvenance(cfg, init, id);
        var k: nat :| MadeAt(cfg, init, k, s.credential.credentials[id]);
        MadeEarlier(cfg, actions, k, s.credential.credentials[id], c);
      }
    }
  }

  // ---------- endorsements ----------

  /** In storage s the action makes the endorsement e, between distinct accounts with active DIDs. */
  ghost predicate MakesEndorsement(cfg: Config, s: Storage, a: Action, e: Endorsement) {
    && a == Action.Call(Signed(e.endorser), ToReputation(Endorse(e.endorsee, e.endorsementType, e.comment, e.weight)))
    && e.endorser != e.endorsee && 1 <= e.weight <= 10 && |e.comment| <= cfg.maxCommentSize
    && IsActive(s.did, e.endorser) && IsActive(s.did, e.endorsee)
    && !s.reputation.HasEndorsed(e.endorser, e.endorsee) && s.block == e.createdAt
  }

  ghost predicate EndorsedAt(cfg: Config, actions: seq<Action>, k: nat, e: Endorsement) {
    k < |actions| && MakesEndorsement(cfg, After(cfg, actions[..k]), actions[k], e)
  }

  lemma EntryOrMade(cfg: Config, s: Storage, l: RL.Ledger, a: Action, e: Endorsement)
    requires RL.Refines(cfg, s.reputation, l) && e in RL.NextLedger(cfg, s, l, a).entries
    ensures e in l.entries || MakesEndorsement(cfg, s, a, e)
  {
    if a.Call? && a.call.ToReputation? && RL.LedgerStep(cfg, s.block, s.did, l, a.origin, a.call.reputation).Ok? {
      match a.call.reputation
      case Endorse(b, _, _, _) =>
        assert s.reputation.HasEndorsed(a.origin.who, b) <==> RL.HasPair(l, a.origin.who, b);
      case RemoveEndorsement(b) => FilterIn(l.entries, RL.OtherPair(a.origin.who, b), e);
      case _ =>
    }
  }

  lemma {:induction false} EntryProvenance(cfg: Config, actions: seq<Action>, e: Endorsement)
    requires e in RL.LedgerAfter(cfg, actions).entries
    ensures exists k: nat :: EndorsedAt(cfg, actions, k, e)
  {
    if actions != [] {
      var init, a := actions[..|actions| - 1], actions[|actions| - 1];
      RL.ReputationRefinesLedger(cfg, init);
      EntryOrMade(cfg, After(cfg, init), RL.LedgerAfter(cfg, init), a, e);
      if MakesEndorsement(cfg, After(cfg, init), a, e) {
        assert EndorsedAt(cfg, actions, |actions| - 1, e);
      } else {
        EntryProvenance(cfg, init, e);
        var k: nat :| EndorsedAt(cfg, init, k, e);
        assert init[..k] == actions[..k];
        assert EndorsedAt(cfg, actions, k, e);
      }
    }
  }

  /** Provenance of endorsements, on whichever side they are stored. */
  lemma EndorsementProvenance(cfg: Config, actions: seq<Action>, a: AccountId, e: Endorsement)
    requires e in After(cfg, actions).reputation.Given(a) || e in After(cfg, actions).reputation.Received(a)
    ensures exists k: nat :: EndorsedAt(cfg, actions, k, e)
    ensures e in After(cfg, actions).reputation.Given(e.endorser)
    ensures e in After(cfg, actions).reputation.Received(e.endorsee)
  {
    RL.ReputationRefinesLedger(cfg, actions);
    var s, l := After(cfg, actions).reputation, RL.LedgerAfter(cfg, actions);
    assert s.Given(a) == RL.GivenBy(l, a) && s.Received(a) == RL.ReceivedBy(l, a);
    FilterIn(l.entries, RL.By(a), e);
    FilterIn(l.entries, RL.To(a), e);
    assert e in l.entries;
    EntryProvenance(cfg, actions, e);
    FilterIn(l.entries, RL.By(e.endorser), e);
    FilterIn(l.entries, RL.To(e.endorsee), e);
    assert s.Given(e.endorser) == RL.GivenBy(l, e.endorser) && s.Received(e.endorsee) == RL.ReceivedBy(l, e.endorsee);
  }

  // ---------- order in time ----------

  ghost predicate InOrder(s: seq<Endorsement>, block: nat) {
    && (forall i, j :: 0 <= i < j < |s| ==> s[i].createdAt <= s[j].createdAt)
    && (forall e :: e in s ==> e.createdAt <= block)
  }

  lemma {:induction false} FilterKeepsOrder(s: seq<Endorsement>, keep: Endorsement -> bool, block: nat)
    requires InOrder(s, block)
    ensures InOrder(Filter(s, keep), block)
  {
    if s != [] {
      var init, x := s[..|s| - 1], s[|s| - 1];
      assert forall e :: e in init ==> e in s;
      assert InOrder(init, x.createdAt) by {
        forall e | e in init ensures e.createdAt <= x.createdAt {
          var i :| 0 <= i < |init| && init[i] == e;
          assert s[i] == e;
        }
      }
      FilterKeepsOrder(init, keep, x.createdAt);
    }
  }

  lemma {:induction false} LedgerInOrder(cfg: Config, actions: seq<Action>)
    ensures InOrder(RL.LedgerAfter(cfg, actions).entries, After(cfg, actions).block)
  {
    if actions != [] {
      var init, a := actions[..|actions| - 1], actions[|actions| - 1];
      LedgerInOrder(cfg, init);
      NextInOrder(cfg, After(cfg, init), RL.LedgerAfter(cfg, init), a);
      BlockAdvances(cfg, After(cfg, init), a);
    }
  }

  lemma BlockAdvances(cfg: Config, s: Storage, a: Action)
    ensures s.block <= Next(cfg, s, a).block
  {
  }

  lemma NextInOrder(cfg: Config, s: Storage, l: RL.Ledger, a: Action)
    requires InOrder(l.entries, s.block)
    ensures InOrder(RL.NextLedger(cfg, s, l, a).entries, s.block)
  {
    if a.Call? && a.call.ToReputation? && a.call.reputation.RemoveEndorsement? && a.origin.Signed? {
      FilterKeepsOrder(l.entries, RL.OtherPair(a.origin.who, a.call.reputation.endorsee), s.block);
    }
  }

  /** Both lists are in order of creation, and nothing in them is from the future. */
  lemma ListsInOrder(cfg: Config, actions: seq<Action>, a: AccountId)
    ensures InOrder(After(cfg, actions).reputation.Given(a), After(cfg, actions).block)
    ensures InOrder(After(cfg, actions).reputation.Received(a), After(cfg, actions).block)
  {
    RL.ReputationRefinesLedger(cfg, actions);
    LedgerInOrder(cfg, actions);
    var s, l := After(cfg, actions), RL.LedgerAfter(cfg, actions);
    FilterKeepsOrder(l.entries, RL.By(a), s.block);
    FilterKeepsOrder(l.entries, RL.To(a), s.block);
    assert s.reputation.Given(a) == RL.GivenBy(l, a) && s.reputation.Received(a) == RL.ReceivedBy(l, a);
  }
}
