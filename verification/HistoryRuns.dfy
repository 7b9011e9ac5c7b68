/** The chain is a function of its accepted calls: after every run, storage, the outcome of any
    further call and the event log are what the history of accepted calls says. */
module HistoryRuns {
  import opened Prims
  import opened Frame
  import opened Seqs
  import opened Did
  import opened Credential
  import opened Reputation
  import opened Runtime
  import opened History
  import opened IdentityHistory
  import opened CredentialHistory
  import ReputationHistory
  import CL = CredentialLedger
  import RL = ReputationLedger

  ghost function Refusal(cfg: Config, h: seq<Entry>, block: nat, origin: Origin, call: RuntimeCall)
    : Option<DispatchError>
  {
    match call
    case ToDid(c) => DidRefusal(cfg, h, origin, c)
    case ToCredential(c) => CredentialRefusal(cfg, h, block, origin, c)
    case ToReputation(c) => ReputationHistory.ReputationRefusal(cfg, h, origin, c)
  }

  /** The events of the entry that follows h. */
  ghost function Announces(cfg: Config, h: seq<Entry>, e: Entry): seq<Event> {
    match e.call
    case ToDid(c) => DidAnnounces(cfg, e.origin, c)
    case ToCredential(c) => CredentialAnnounces(cfg, h, e.origin, c)
    case ToReputation(c) => ReputationHistory.ReputationAnnounces(h + [e], e.origin, c)
  }

  ghost function Announced(cfg: Config, h: seq<Entry>): seq<Event> {
    if h == [] then []
    else Announced(cfg, h[..|h| - 1]) + Announces(cfg, h[..|h| - 1], h[|h| - 1])
  }

  /** Storage s, with the ledgers of its run, is what the history leaves. */
  ghost predicate Follows(cfg: Config, h: seq<Entry>, s: Storage, cl: CL.Ledger, rl: RL.Ledger) {
    && DidFollows(cfg, h, s.did)
    && CredentialsFollow(cfg, h, s.credential, cl)
    && RL.Refines(cfg, s.reputation, rl) && ReputationHistory.LedgerFollows(h, rl)
    && s.log == Announced(cfg, h)
  }

  /** The call ends as the history says: refused for its reason, or accepted. */
  ghost predicate CallFollows(cfg: Config, h: seq<Entry>, s: Storage, cl: CL.Ledger, rl: RL.Ledger, origin: Origin,
                              call: RuntimeCall) {
    var a := Action.Call(origin, call);
    match Step(cfg, s, origin, call)
    case Err(error) => Refusal(cfg, h, s.block, origin, call) == Some(error)
    case Ok(t) =>
      && Refusal(cfg, h, s.block, origin, call) == None
      && Follows(cfg, h + [Entry(s.block, origin, call)], t, CL.NextLedger(cfg, s, cl, a), RL.NextLedger(cfg, s, rl, a))
  }

  lemma AnnouncedSnoc(cfg: Config, h: seq<Entry>, e: Entry)
    ensures Announced(cfg, h + [e]) == Announced(cfg, h) + Announces(cfg, h, e)
  {
    assert (h + [e])[..|h|] == h;
  }

  lemma DidCallInRun(cfg: Config, h: seq<Entry>, s: Storage, cl: CL.Ledger, rl: RL.Ledger, origin: Origin, c: DidCall)
    requires Follows(cfg, h, s, cl, rl)
    ensures CallFollows(cfg, h, s, cl, rl, origin, ToDid(c))
  {
    var e := Entry(s.block, origin, ToDid(c));
    DidCallStepFollows(cfg, h, s.block, s.did, origin, c);
    CredentialsUntouched(cfg, h, e, s.credential, cl);
    ReputationHistory.LedgerUntouched(h, e, rl);
    AnnouncedSnoc(cfg, h, e);
  }

  lemma CredentialCallInRun(cfg: Config, h: seq<Entry>, s: Storage, cl: CL.Ledger, rl: RL.Ledger, origin: Origin,
                            c: CredentialCall)
    requires Follows(cfg, h, s, cl, rl)
    ensures CallFollows(cfg, h, s, cl, rl, origin, ToCredential(c))
  {
    var e := Entry(s.block, origin, ToCredential(c));
    CredentialCallStepFollows(cfg, h, s.block, s.did, s.credential, cl, origin, c);
    assert CL.NextLedger(cfg, s, cl, Action.Call(origin, ToCredential(c)))
        == LedgerWith(cfg, s.block, s.did, cl, origin, c);
    IdentitiesUntouched(cfg, h, e, s.did);
    ReputationHistory.LedgerUntouched(h, e, rl);
    AnnouncedSnoc(cfg, h, e);
  }

  lemma ReputationAccepted(cfg: Config, h: seq<Entry>, s: Storage, cl: CL.Ledger, rl: RL.Ledger, e: Entry, t: Storage,
                           m: RL.Ledger)
    requires Follows(cfg, h, s, cl, rl) && e.call.ToReputation?
    requires t == s.(reputation := t.reputation, log := s.log + Announces(cfg, h, e))
    requires RL.Refines(cfg, t.reputation, m) && ReputationHistory.LedgerFollows(h + [e], m)
    ensures Follows(cfg, h + [e], t, cl, m)
  {
    IdentitiesUntouched(cfg, h, e, s.did);
    CredentialsUntouched(cfg, h, e, s.credential, cl);
    AnnouncedSnoc(cfg, h, e);
  }

  lemma ReputationCallInRun(cfg: Config, h: seq<Entry>, s: Storage, cl: CL.Ledger, rl: RL.Ledger, origin: Origin,
                            c: ReputationCall)
    requires Follows(cfg, h, s, cl, rl)
    ensures CallFollows(cfg, h, s, cl, rl, origin, ToReputation(c))
  {
    ReputationHistory.ReputationCallStepFollows(cfg, h, s.block, s.did, s.reputation, rl, origin, c);
    var r, a := Step(cfg, s, origin, ToReputation(c)), Action.Call(origin, ToReputation(c));
    if r.Ok? {
      var m := RL.NextLedger(cfg, s, rl, a);
      assert m == RL.LedgerStep(cfg, s.block, s.did, rl, origin, c).value;
      ReputationAccepted(cfg, h, s, cl, rl, Entry(s.block, origin, ToReputation(c)), r.value, m);
      assert CL.NextLedger(cfg, s, cl, a) == cl;
    }
  }

  lemma CallInRun(cfg: Config, h: seq<Entry>, s: Storage, cl: CL.Ledger, rl: RL.Ledger, origin: Origin,
                  call: RuntimeCall)
    requires Follows(cfg, h, s, cl, rl)
    ensures CallFollows(cfg, h, s, cl, rl, origin, call)
  {
    match call
    case ToDid(c) => DidCallInRun(cfg, h, s, cl, rl, origin, c);
    case ToCredential(c) => CredentialCallInRun(cfg, h, s, cl, rl, origin, c);
    case ToReputation(c) => ReputationCallInRun(cfg, h, s, cl, rl, origin, c);
  }

  lemma NothingFollows(cfg: Config)
    ensures Follows(cfg, [], GENESIS, [], RL.EMPTY)
  {
    assert forall a :: RL.GivenBy(RL.EMPTY, a) == [] && RL.ReceivedBy(RL.EMPTY, a) == [];
  }

  lemma NextFollows(cfg: Config, h: seq<Entry>, s: Storage, cl: CL.Ledger, rl: RL.Ledger, a: Action)
    requires Follows(cfg, h, s, cl, rl)
    ensures Follows(cfg, NextHistory(cfg, s, h, a), Next(cfg, s, a), CL.NextLedger(cfg, s, cl, a),
                    RL.NextLedger(cfg, s, rl, a))
  {
    if a.Call? {
      if Succeeds(cfg, s, a) {
        CallInRun(cfg, h, s, cl, rl, a.origin, a.call);
      } else {
        RefusedLedgers(cfg, s, cl, rl, a);
      }
    }
  }

  lemma {:induction false} RunFollows(cfg: Config, actions: seq<Action>)
    ensures Follows(cfg, Accepted(cfg, actions), After(cfg, actions), CL.Issued(cfg, actions),
                    RL.LedgerAfter(cfg, actions))
  {
    if actions == [] {
      NothingFollows(cfg);
    } else {
      var init := actions[..|actions| - 1];
      RunFollows(cfg, init);
      NextFollows(cfg, Accepted(cfg, init), After(cfg, init), CL.Issued(cfg, init), RL.LedgerAfter(cfg, init),
                  actions[|actions| - 1]);
    }
  }

  lemma RefusedLedgers(cfg: Config, s: Storage, cl: CL.Ledger, rl: RL.Ledger, a: Action)
    requires CL.Refines(cfg, s.credential, cl) && RL.Refines(cfg, s.reputation, rl) && !Succeeds(cfg, s, a)
    ensures CL.NextLedger(cfg, s, cl, a) == cl && RL.NextLedger(cfg, s, rl, a) == rl
  {
    match a.call
    case ToDid(_) =>
    case ToCredential(c) =>
      if c.IssueCredential? {
        CL.IssueRefines(cfg, s.block, s.did, s.credential, cl, a.origin, c);
      }
    case ToReputation(c) => RL.StepRefines(cfg, s.block, s.did, s.reputation, rl, a.origin, c);
  }

  // ---------- what follows ----------

  /** The lists, the hash index and the counter of the credential pallet, as the history has them. */
  ghost predicate IndexedAsHistory(cfg: Config, h: seq<Entry>, s: CredentialState, l: CL.Ledger) {
    && EntriesFollow(cfg, h, l)
    && (forall x :: s.HeldBy(x) == CL.HolderRefs(l, x) && s.IssuedBy(x) == CL.IssuerIds(l, x))
    && (forall hash :: Get(s.byHash, hash) == IdOfHash(cfg, h, hash))
    && s.nextId == Min(Count(h, Issues()), U64_MAX)
  }

  /** Main result: every field of every document, institution, credential and score, all lists, flags and
      indexes, and the counter are those that the accepted calls of the run spell out. */
  lemma StorageIsHistory(cfg: Config, actions: seq<Action>)
    ensures DidFollows(cfg, Accepted(cfg, actions), After(cfg, actions).did)
    ensures StoreFollows(cfg, Accepted(cfg, actions), After(cfg, actions).credential.credentials)
    ensures IndexedAsHistory(cfg, Accepted(cfg, actions), After(cfg, actions).credential, CL.Issued(cfg, actions))
    ensures ReputationHistory.ReputationFollows(Accepted(cfg, actions), After(cfg, actions).reputation)
  {
    RunFollows(cfg, actions);
    var s, h := After(cfg, actions), Accepted(cfg, actions);
    ReputationHistory.LedgerReads(cfg, h, s.reputation, RL.LedgerAfter(cfg, actions));
    IndexesRead(cfg, h, s.credential, CL.Issued(cfg, actions));
  }

  lemma IndexesRead(cfg: Config, h: seq<Entry>, s: CredentialState, l: CL.Ledger)
    requires CredentialsFollow(cfg, h, s, l)
    ensures IndexedAsHistory(cfg, h, s, l)
  {
    forall hash ensures Get(s.byHash, hash) == IdOfHash(cfg, h, hash) {
      assert IdOfHash(cfg, h, hash) == Get(CL.HashIndex(l), hash);
    }
  }

  /** Main result: whether a call is accepted after a run, and the error it is refused with, is
      decided by the accepted calls before it and the block. */
  lemma OutcomeIsHistory(cfg: Config, actions: seq<Action>, origin: Origin, call: RuntimeCall)
    ensures var r := Step(cfg, After(cfg, actions), origin, call);
      Refusal(cfg, Accepted(cfg, actions), 1 + BlocksStarted(actions), origin, call)
      == if r.Ok? then None else Some(r.error)
  {
    RunFollows(cfg, actions);
    BlockCounts(cfg, actions);
    CallInRun(cfg, Accepted(cfg, actions), After(cfg, actions), CL.Issued(cfg, actions), RL.LedgerAfter(cfg, actions),
              origin, call);
  }

  /** Main result: the log is what the accepted calls announce, in order, and nothing else. */
  lemma LogIsHistory(cfg: Config, actions: seq<Action>)
    ensures After(cfg, actions).log == Announced(cfg, Accepted(cfg, actions))
  {
    RunFollows(cfg, actions);
  }

  // ---------- the history without the chain ----------

  /** The same history computed from the submitted calls alone: each is entered if the entries before
      it give no reason to refuse it. */
  ghost function Chronicle(cfg: Config, actions: seq<Action>): seq<Entry> {
    if actions == [] then []
    else
      var init, a := actions[..|actions| - 1], actions[|actions| - 1];
      var h, block := Chronicle(cfg, init), 1 + BlocksStarted(init);
      if a.Call? && Refusal(cfg, h, block, a.origin, a.call) == None then h + [Entry(block, a.origin, a.call)] else h
  }

  /** Main result: the accepted calls, and with them storage, outcomes and log, follow from the
      submitted calls without reference to any stored item. */
  lemma {:induction false} AcceptedIsChronicle(cfg: Config, actions: seq<Action>)
    ensures Accepted(cfg, actions) == Chronicle(cfg, actions)
  {
    if actions != [] {
      var init, a := actions[..|actions| - 1], actions[|actions| - 1];
      AcceptedIsChronicle(cfg, init);
      BlockCounts(cfg, init);
      if a.Call? {
        OutcomeIsHistory(cfg, init, a.origin, a.call);
      }
    }
  }

  // ---------- read off for single items ----------

  /** A document's keys: the ordered fold of its owner's accepted calls; each was added by its owner and
      not removed since, and is named by the hash of the 32 bytes that spell it. */
  lemma KeysExactly(cfg: Config, actions: seq<Action>, x: AccountId)
    requires x in After(cfg, actions).did.docs
    ensures After(cfg, actions).did.docs[x].publicKeys == KeysIn(cfg, Accepted(cfg, actions), x)
    ensures forall k :: k in After(cfg, actions).did.docs[x].publicKeys <==>
                        AddedAndKept(cfg, Accepted(cfg, actions), x, k)
    ensures forall k :: k in After(cfg, actions).did.docs[x].publicKeys ==>
      exists b :: Spells(b, k.publicKey as int, 32) && k.keyId == cfg.blake2(b)
  {
    var d, h := After(cfg, actions).did, Accepted(cfg, actions);
    StorageIsHistory(cfg, actions);
    assert DocFollows(cfg, h, x, Get(d.docs, x));
    forall k
      ensures k in d.docs[x].publicKeys <==> AddedAndKept(cfg, h, x, k)
      ensures k in d.docs[x].publicKeys ==> exists b :: Spells(b, k.publicKey as int, 32) && k.keyId == cfg.blake2(b)
    {
      KeysAreAddedAndKept(cfg, h, x, k);
      KeyNameIs(cfg, k.publicKey);
    }
  }

  /** x is an institution exactly if an accepted call registered it, and verified exactly if an accepted
      call verified it and no later one revoked it. */
  lemma InstitutionsExactly(cfg: Config, actions: seq<Action>, x: AccountId)
    ensures var h := Accepted(cfg, actions);
      x in After(cfg, actions).did.institutions <==> exists i :: 0 <= i < |h| && Registers(x)(h[i])
    ensures var h := Accepted(cfg, actions);
      IsVerified(After(cfg, actions).did, x) <==>
      exists i :: 0 <= i < |h| && h[i].call == ToDid(VerifyInstitution(x))
                  && forall j :: i < j < |h| ==> h[j].call != ToDid(RevokeInstitution(x))
  {
    var h := Accepted(cfg, actions);
    StorageIsHistory(cfg, actions);
    assert InstitutionFollows(h, x, Get(After(cfg, actions).did.institutions, x));
    LastIsLast(h, Registers(x));
    VerifiedMeans(h, x);
  }

  lemma {:induction false} VerifiedMeans(h: seq<Entry>, x: AccountId)
    ensures VerifiedIn(h, x) <==>
      exists i :: 0 <= i < |h| && h[i].call == ToDid(VerifyInstitution(x))
                  && forall j :: i < j < |h| ==> h[j].call != ToDid(RevokeInstitution(x))
  {
    if h != [] {
      var init, e := h[..|h| - 1], h[|h| - 1];
      VerifiedMeans(init, x);
      assert forall i :: 0 <= i < |init| ==> init[i] == h[i];
      if VerifiedIn(init, x) && !Judges(x)(e) {
        var i :| 0 <= i < |init| && init[i].call == ToDid(VerifyInstitution(x))
                 && forall j :: i < j < |init| ==> init[j].call != ToDid(RevokeInstitution(x));
        assert h[i].call == ToDid(VerifyInstitution(x));
      }
      if i :| 0 <= i < |h| && h[i].call == ToDid(VerifyInstitution(x))
              && forall j :: i < j < |h| ==> h[j].call != ToDid(RevokeInstitution(x)) {
        assert i == |h| - 1 || init[i].call == ToDid(VerifyInstitution(x));
        assert h[|h| - 1].call == e.call;
      }
    }
  }

  /** A stored credential's metadata is the argument of the last accepted update since its issue, or
      else that of its issue, and its status is Revoked exactly if it was revoked since. */
  lemma MetadataExactly(cfg: Config, actions: seq<Action>, id: Bytes32)
    ensures id in After(cfg, actions).credential.credentials <==> IssueOf(cfg, Accepted(cfg, actions), id).Some?
    ensures id in After(cfg, actions).credential.credentials ==>
      && After(cfg, actions).credential.credentials[id].metadata == MetadataIn(cfg, Accepted(cfg, actions), id)
      && After(cfg, actions).credential.credentials[id].status ==
         if RevokedIn(cfg, Accepted(cfg, actions), id) then Revoked else Active
  {
    StorageIsHistory(cfg, actions);
    assert StoredFollows(cfg, Accepted(cfg, actions), id, Get(After(cfg, actions).credential.credentials, id));
  }

  function UpdateAction(who: AccountId, id: Bytes32, metadata: Bytes): Action {
    Action.Call(Signed(who), ToCredential(UpdateCredentialMetadata(id, metadata)))
  }

  /** An update succeeds exactly for the issuer of an id that was issued and not revoked since, and the
      new metadata is then what is stored. */
  lemma UpdateSucceedsExactly(cfg: Config, actions: seq<Action>, who: AccountId, id: Bytes32, metadata: Bytes)
    ensures Succeeds(cfg, After(cfg, actions), UpdateAction(who, id, metadata)) <==>
      && IssueOf(cfg, Accepted(cfg, actions), id).Some?
      && IssueOf(cfg, Accepted(cfg, actions), id).value.origin == Signed(who)
      && !RevokedIn(cfg, Accepted(cfg, actions), id)
    ensures Succeeds(cfg, After(cfg, actions), UpdateAction(who, id, metadata)) ==>
      var t := After(cfg, actions + [UpdateAction(who, id, metadata)]).credential;
      id in t.credentials && t.credentials[id].metadata == metadata && t.credentials[id].status == Active
  {
    var a := UpdateAction(who, id, metadata);
    OutcomeIsHistory(cfg, actions, a.origin, a.call);
    if Succeeds(cfg, After(cfg, actions), a) {
      assert (actions + [a])[..|actions|] == actions;
      var h, g := Accepted(cfg, actions), Accepted(cfg, actions + [a]);
      assert g == h + [Entry(After(cfg, actions).block, a.origin, a.call)];
      MetadataExactly(cfg, actions + [a], id);
      assert g[..|h|] == h;
    }
  }

  /** An endorsement is stored exactly if an accepted call made it and no later one of its endorser
      removed it, and then on both sides. */
  lemma EndorsementsExactly(cfg: Config, actions: seq<Action>, e: Endorsement)
    ensures e in After(cfg, actions).reputation.Given(e.endorser) <==>
            ReputationHistory.MadeAndKept(Accepted(cfg, actions), e)
    ensures e in After(cfg, actions).reputation.Received(e.endorsee) <==>
            ReputationHistory.MadeAndKept(Accepted(cfg, actions), e)
  {
    var h := Accepted(cfg, actions);
    StorageIsHistory(cfg, actions);
    ReputationHistory.LiveIsMadeAndKept(h, e);
    FilterIn(ReputationHistory.LiveIn(h), (x: Endorsement) => x.endorser == e.endorser, e);
    FilterIn(ReputationHistory.LiveIn(h), (x: Endorsement) => x.endorsee == e.endorsee, e);
    assert e in ReputationHistory.GivenIn(h, e.endorser) <==> e in ReputationHistory.LiveIn(h);
    assert e in ReputationHistory.ReceivedIn(h, e.endorsee) <==> e in ReputationHistory.LiveIn(h);
  }
}
