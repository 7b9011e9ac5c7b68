/** Who may change what, over runs: state that belongs to an account or to root stays as it is
    while its owner does not act, whatever everyone else does. */
module Authority {
  import opened Prims
  import opened Frame
  import opened Seqs
  import opened Did
  import opened Credential
  import opened Reputation
  import opened Runtime
  import opened CredentialLedger
  import CredentialRuns
  import RL = ReputationLedger

  // ---------- the kind of origin ----------

  /** The calls kept for root; all others are for signed accounts. */
  predicate RootOnly(call: RuntimeCall) {
    match call
    case ToDid(c) => c.VerifyInstitution? || c.RevokeInstitution?
    case ToCredential(_) => false
    case ToReputation(c) => c.RecordCredentialIssuance? || c.UpdateReputationScore?
  }

  predicate RightOrigin(origin: Origin, call: RuntimeCall) {
    if RootOnly(call) then origin == Root else origin.Signed?
  }

  lemma DidOrigin(cfg: Config, block: nat, d: DidState, origin: Origin, call: DidCall)
    ensures DidStep(cfg, block, d, origin, call) == Err(BadOrigin) <==> !RightOrigin(origin, ToDid(call))
  {
  }

  lemma CredentialOrigin(cfg: Config, block: nat, d: DidState, s: CredentialState, origin: Origin, call: CredentialCall)
    ensures CredentialStep(cfg, block, d, s, origin, call) == Err(BadOrigin) <==> !RightOrigin(origin, ToCredential(call))
  {
  }

  lemma ReputationOrigin(cfg: Config, block: nat, d: DidState, s: ReputationState, origin: Origin, call: ReputationCall)
    ensures ReputationStep(cfg, block, d, s, origin, call) == Err(BadOrigin) <==> !RightOrigin(origin, ToReputation(call))
  {
  }

  /** A call fails with BadOrigin exactly when its origin is of the wrong kind, in any state. */
  lemma OriginDecides(cfg: Config, s: Storage, origin: Origin, call: RuntimeCall)
    ensures Step(cfg, s, origin, call) == Err(BadOrigin) <==> !RightOrigin(origin, call)
  {
    match call
    case ToDid(c) => DidOrigin(cfg, s.block, s.did, origin, c);
    case ToCredential(c) => CredentialOrigin(cfg, s.block, s.did, s.credential, origin, c);
    case ToReputation(c) => ReputationOrigin(cfg, s.block, s.did, s.reputation, origin, c);
  }

  function Rightful(): Action -> bool {
    (a: Action) => a.Call? ==> RightOrigin(a.origin, a.call)
  }

  /** Striking every call of the wrong kind of origin out of a run leaves its result, log included. */
  lemma {:induction false} WrongOriginsDoNothing(cfg: Config, s: Storage, actions: seq<Action>)
    ensures Run(cfg, s, Filter(actions, Rightful())) == Run(cfg, s, actions)
  {
    if actions != [] {
      var init, a := actions[..|actions| - 1], actions[|actions| - 1];
      WrongOriginsDoNothing(cfg, s, init);
      if Rightful()(a) {
        RunSnoc(cfg, s, Filter(init, Rightful()), a);
      } else {
        OriginDecides(cfg, Run(cfg, s, init), a.origin, a.call);
      }
    }
  }

  // ---------- what belongs to root ----------

  predicate NotByRoot(a: Action) {
    a.Call? ==> a.origin != Root
  }

  /** Who is verified, and which issuances are recorded. */
  ghost predicate SameRootState(s: Storage, t: Storage) {
    && (forall x :: IsVerified(s.did, x) <==> IsVerified(t.did, x))
    && (forall x :: s.reputation.Score(x).credentialsIssued == t.reputation.Score(x).credentialsIssued)
  }

  lemma DidStepWithoutRoot(cfg: Config, block: nat, d: DidState, origin: Origin, call: DidCall)
    requires DidStep(cfg, block, d, origin, call).Ok? && origin != Root
    ensures forall x :: IsVerified(DidStep(cfg, block, d, origin, call).value.state, x) <==> IsVerified(d, x)
  {
  }

  lemma ReputationStepWithoutRoot(cfg: Config, block: nat, d: DidState, s: ReputationState, origin: Origin,
                                  call: ReputationCall)
    requires ReputationStep(cfg, block, d, s, origin, call).Ok? && origin != Root
    ensures forall x :: ReputationStep(cfg, block, d, s, origin, call).value.state.Score(x).credentialsIssued
                        == s.Score(x).credentialsIssued
  {
  }

  /** While root makes no call no institution becomes verified or stops being it, new ones included,
      and no issuance is recorded for anyone. */
  lemma {:induction false} OnlyRootVerifiesAndRecords(cfg: Config, s: Storage, actions: seq<Action>)
    requires forall a :: a in actions ==> NotByRoot(a)
    ensures SameRootState(s, Run(cfg, s, actions))
  {
    if actions != [] {
      var init, a := actions[..|actions| - 1], actions[|actions| - 1];
      OnlyRootVerifiesAndRecords(cfg, s, init);
      assert NotByRoot(a);
      var m := Run(cfg, s, init);
      NextByPallet(cfg, m, a);
      if a.Call? && Succeeds(cfg, m, a) {
        match a.call
        case ToDid(c) => DidStepWithoutRoot(cfg, m.block, m.did, a.origin, c);
        case ToCredential(_) =>
        case ToReputation(c) => ReputationStepWithoutRoot(cfg, m.block, m.did, m.reputation, a.origin, c);
      }
    }
  }

  // ---------- what belongs to an account ----------

  predicate NotSignedBy(a: Action, x: AccountId) {
    a.Call? ==> a.origin != Signed(x)
  }

  /** x's document, given list and flags, and x's entries in every received list. */
  ghost predicate SameOwned(s: Storage, t: Storage, x: AccountId) {
    && Get(s.did.docs, x) == Get(t.did.docs, x)
    && s.reputation.Given(x) == t.reputation.Given(x)
    && (forall y :: s.reputation.HasEndorsed(x, y) == t.reputation.HasEndorsed(x, y))
    && (forall y :: Filter(s.reputation.Received(y), RL.By(x)) == Filter(t.reputation.Received(y), RL.By(x)))
  }

  lemma OthersKeepDocument(cfg: Config, block: nat, d: DidState, origin: Origin, call: DidCall, x: AccountId)
    requires DidStep(cfg, block, d, origin, call).Ok? && origin != Signed(x)
    ensures Get(DidStep(cfg, block, d, origin, call).value.state.docs, x) == Get(d.docs, x)
  {
  }

  lemma OthersKeepGiven(cfg: Config, block: nat, d: DidState, s: ReputationState, origin: Origin, call: ReputationCall,
                        x: AccountId)
    requires ReputationStep(cfg, block, d, s, origin, call).Ok? && origin != Signed(x)
    ensures var t := ReputationStep(cfg, block, d, s, origin, call).value.state;
      t.Given(x) == s.Given(x) && forall y :: t.HasEndorsed(x, y) == s.HasEndorsed(x, y)
  {
  }

  /** What a call can do to y's received list: nothing, append the caller's entry, or drop the caller's. */
  lemma ReceivedShape(cfg: Config, block: nat, d: DidState, s: ReputationState, origin: Origin, call: ReputationCall,
                      y: AccountId)
    requires ReputationStep(cfg, block, d, s, origin, call).Ok?
    ensures var after := ReputationStep(cfg, block, d, s, origin, call).value.state.Received(y);
      || after == s.Received(y)
      || (origin.Signed? && call.Endorse? && after == s.Received(y)
            + [Endorsement(origin.who, y, call.endorsementType, call.comment, block, call.weight)])
      || (origin.Signed? && call.RemoveEndorsement? && after == Filter(s.Received(y), FromOther(origin.who)))
  {
  }

  lemma OthersKeepReceived(cfg: Config, block: nat, d: DidState, s: ReputationState, origin: Origin,
                           call: ReputationCall, x: AccountId, y: AccountId)
    requires ReputationStep(cfg, block, d, s, origin, call).Ok? && origin != Signed(x)
    ensures Filter(ReputationStep(cfg, block, d, s, origin, call).value.state.Received(y), RL.By(x))
            == Filter(s.Received(y), RL.By(x))
  {
    ReceivedShape(cfg, block, d, s, origin, call, y);
    if origin.Signed? && call.Endorse? {
      var e := Endorsement(origin.who, y, call.endorsementType, call.comment, block, call.weight);
      FilterSnoc(s.Received(y), e, RL.By(x));
    } else if origin.Signed? {
      FilterSwap(s.Received(y), RL.By(x), FromOther(origin.who), FromOther(origin.who));
      RL.FilterKept(s.Received(y), RL.By(x), FromOther(origin.who));
    }
  }

  lemma OthersKeepOwned(cfg: Config, s: Storage, a: Action, x: AccountId)
    requires NotSignedBy(a, x)
    ensures SameOwned(s, Next(cfg, s, a), x)
  {
    NextByPallet(cfg, s, a);
    if a.Call? && Succeeds(cfg, s, a) {
      match a.call {
        case ToDid(c) => OthersKeepDocument(cfg, s.block, s.did, a.origin, c, x);
        case ToCredential(_) =>
        case ToReputation(c) =>
          OthersKeepGiven(cfg, s.block, s.did, s.reputation, a.origin, c, x);
          forall y
            ensures Filter(Next(cfg, s, a).reputation.Received(y), RL.By(x)) == Filter(s.reputation.Received(y), RL.By(x))
          {
            OthersKeepReceived(cfg, s.block, s.did, s.reputation, a.origin, c, x, y);
          }
      }
    }
  }

  /** While x signs nothing, x's document, x's given list and flags, and x's entries in everyone's
      received list stay as they are, whatever accounts and root do. */
  lemma {:induction false} OnlyOwnerChanges(cfg: Config, s: Storage, actions: seq<Action>, x: AccountId)
    requires forall a :: a in actions ==> NotSignedBy(a, x)
    ensures SameOwned(s, Run(cfg, s, actions), x)
  {
    if actions != [] {
      var init, a := actions[..|actions| - 1], actions[|actions| - 1];
      OnlyOwnerChanges(cfg, s, init, x);
      assert NotSignedBy(a, x);
      OthersKeepOwned(cfg, Run(cfg, s, init), a, x);
    }
  }

  // ---------- what belongs to an issuer ----------

  lemma OthersByIssuer(cfg: Config, block: nat, d: DidState, s: CredentialState, origin: Origin, call: CredentialCall)
    requires !call.IssueCredential? && CredentialStep(cfg, block, d, s, origin, call).Ok?
    ensures call.VerifyCredential? ||
            (call.credentialId in s.credentials && origin == Signed(s.credentials[call.credentialId].issuer))
  {
  }

  lemma OthersKeepCredential(cfg: Config, s: Storage, l: Ledger, a: Action, id: Bytes32)
    requires Refines(cfg, s.credential, l) && id in s.credential.credentials
    requires NotRedrawn(l, NextLedger(cfg, s, l, a), id) && NotSignedBy(a, s.credential.credentials[id].issuer)
    ensures id in Next(cfg, s, a).credential.credentials
    ensures Next(cfg, s, a).credential.credentials[id] == s.credential.credentials[id]
  {
    NextByPallet(cfg, s, a);
    if a.Call? && a.call.ToCredential? && Succeeds(cfg, s, a) {
      var c := a.call.credential;
      if c.IssueCredential? {
        CredentialRuns.IssueKeepsOthers(cfg, s, l, a.origin, c, id);
      } else {
        OthersReplaceOne(cfg, s.block, s.did, s.credential, a.origin, c);
        OthersByIssuer(cfg, s.block, s.did, s.credential, a.origin, c);
      }
    }
  }

  lemma {:induction false} KeptWhileSilent(cfg: Config, first: seq<Action>, second: seq<Action>, id: Bytes32)
    requires id in After(cfg, first).credential.credentials
    requires NotRedrawn(Issued(cfg, first), Issued(cfg, first + second), id)
    requires forall a :: a in second ==> NotSignedBy(a, After(cfg, first).credential.credentials[id].issuer)
    ensures id in After(cfg, first + second).credential.credentials
    ensures After(cfg, first + second).credential.credentials[id] == After(cfg, first).credential.credentials[id]
  {
    if second == [] {
      assert first + second == first;
    } else {
      var init, a := second[..|second| - 1], second[|second| - 1];
      assert first + second == first + init + [a];
      IssuedSnoc(cfg, first + init, a);
      var s, l := After(cfg, first + init), Issued(cfg, first + init);
      IssuedGrows(cfg, first, init);
      CredentialRuns.NotRedrawnParts(Issued(cfg, first), l, NextLedger(cfg, s, l, a), id);
      KeptWhileSilent(cfg, first, init, id);
      CredentialsRefineLedger(cfg, first + init);
      assert a in second;
      OthersKeepCredential(cfg, s, l, a, id);
    }
  }

  /** While its issuer signs nothing, a stored credential stays exactly as it is if and only if its id
      is not drawn again. */
  lemma OnlyIssuerChanges(cfg: Config, first: seq<Action>, second: seq<Action>, id: Bytes32)
    requires id in After(cfg, first).credential.credentials
    requires forall a :: a in second ==> NotSignedBy(a, After(cfg, first).credential.credentials[id].issuer)
    ensures id in After(cfg, first + second).credential.credentials
    ensures After(cfg, first + second).credential.credentials[id] == After(cfg, first).credential.credentials[id]
            <==> NotRedrawn(Issued(cfg, first), Issued(cfg, first + second), id)
  {
    CredentialRuns.Lifecycle(cfg, first, second, id);
    if NotRedrawn(Issued(cfg, first), Issued(cfg, first + second), id) {
      KeptWhileSilent(cfg, first, second, id);
    } else {
      CredentialRuns.RedrawReplaces(cfg, first, second, id);
    }
  }
}
