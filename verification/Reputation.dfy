/** The reputation pallet: endorsements stored on both sides and as flags, saturating
    counters, and a cached capped score. */
module Reputation {
  import opened Prims
  import opened Frame
  import opened Seqs
  import opened Did

  datatype ReputationScore = ReputationScore(
    credentialsIssued: U32,
    credentialsVerified: U32,
    endorsementsReceived: U32,
    endorsementsGiven: U32,
    totalScore: U32)

  datatype Endorsement = Endorsement(
    endorser: AccountId,
    endorsee: AccountId,
    endorsementType: EndorsementType,
    comment: Bytes,
    createdAt: nat,
    weight: U8)

  /** The pallet's storage as a value; absent entries read as the default. */
  datatype ReputationState = ReputationState(
    scores: map<AccountId, ReputationScore>,
    given: map<AccountId, seq<Endorsement>>,
    received: map<AccountId, seq<Endorsement>>,
    endorsed: map<(AccountId, AccountId), bool>)
  {
    function Score(a: AccountId): ReputationScore {
      if a in scores then scores[a] else ReputationScore(0, 0, 0, 0, 0)
    }

    function Given(a: AccountId): seq<Endorsement> {
      if a in given then given[a] else []
    }

    function Received(a: AccountId): seq<Endorsement> {
      if a in received then received[a] else []
    }

    predicate HasEndorsed(a: AccountId, b: AccountId) {
      (a, b) in endorsed && endorsed[(a, b)]
    }
  }

  datatype ReputationCall =
    | Endorse(endorsee: AccountId, endorsementType: EndorsementType, comment: Bytes, weight: U8)
    | RemoveEndorsement(endorsee: AccountId)
    | RecordCredentialIssuance(issuer: AccountId)
    | RecordCredentialVerification
    | UpdateReputationScore(account: AccountId)

  function CalculateReputationScore(score: ReputationScore): U32 {
    var credentialsScore := SatMul32(score.credentialsIssued, 10);
    var verificationScore := SatMul32(score.credentialsVerified, 5);
    var endorsementScore := SatMul32(score.endorsementsReceived, 20);
    Min(SatAdd32(SatAdd32(credentialsScore, verificationScore), endorsementScore), 1000)
  }

  function Rescore(score: ReputationScore): ReputationScore {
    score.(totalScore := CalculateReputationScore(score))
  }

  function ToOther(b: AccountId): Endorsement -> bool {
    (e: Endorsement) => e.endorsee != b
  }

  function FromOther(a: AccountId): Endorsement -> bool {
    (e: Endorsement) => e.endorser != a
  }

  /** The checks of `endorse` on its arguments and on both identities, in their order. */
  function CheckEndorsement(cfg: Config, d: DidState, a: AccountId, b: AccountId, comment: Bytes, weight: U8): Guard {
    if |comment| > cfg.maxCommentSize then Fail(ReputationFailed(CommentTooLarge))
    else if a == b then Fail(ReputationFailed(CannotEndorseSelf))
    else if !(1 <= weight <= 10) then Fail(ReputationFailed(InvalidWeight))
    else if a !in d.docs then Fail(ReputationFailed(NoDid))
    else if !d.docs[a].active then Fail(ReputationFailed(ReputationError.DidNotActive))
    else if b !in d.docs then Fail(ReputationFailed(NoDid))
    else Ensure(d.docs[b].active, ReputationFailed(ReputationError.DidNotActive))
  }

  /** The writes of endorsing, made only if both lists have room. */
  function CommitStep(cfg: Config, s: ReputationState, e: Endorsement): Outcome<Effect<ReputationState>> {
    var a, b := e.endorser, e.endorsee;
    :- Ensure(|s.Given(a)| < cfg.maxEndorsements && |s.Received(b)| < cfg.maxEndorsements,
              ReputationFailed(TooManyEndorsements));
    var scores := s.scores[a := s.Score(a).(endorsementsGiven := SatAdd32(s.Score(a).endorsementsGiven, 1))];
    var scoreB := s.(scores := scores).Score(b);
    Ok(Effect(
         ReputationState(
           scores[b := Rescore(scoreB.(endorsementsReceived := SatAdd32(scoreB.endorsementsReceived, 1)))],
           s.given[a := s.Given(a) + [e]],
           s.received[b := s.Received(b) + [e]],
           s.endorsed[(a, b) := true]),
         [EndorsementCreated(a, b, e.endorsementType, e.weight)]))
  }

  /** Endorsing when it is atomic: every check first, then every write. */
  function EndorseStep(cfg: Config, block: nat, d: DidState, s: ReputationState, origin: Origin, b: AccountId,
                       endorsementType: EndorsementType, comment: Bytes, weight: U8): Outcome<Effect<ReputationState>>
  {
    var a :- EnsureSigned(origin);
    :- CheckEndorsement(cfg, d, a, b, comment, weight);
    :- Ensure(!s.HasEndorsed(a, b), ReputationFailed(AlreadyEndorsed));
    CommitStep(cfg, s, Endorsement(a, b, endorsementType, comment, block, weight))
  }

  /** What each call does, as a function of the storage it finds. */
  function ReputationStep(cfg: Config, block: nat, d: DidState, s: ReputationState, origin: Origin,
                          call: ReputationCall)
    : Outcome<Effect<ReputationState>>
  {
    match call
    case Endorse(b, endorsementType, comment, weight) =>
      EndorseStep(cfg, block, d, s, origin, b, endorsementType, comment, weight)
    case RemoveEndorsement(b) =>
      var a :- EnsureSigned(origin);
      :- Ensure(s.HasEndorsed(a, b), ReputationFailed(EndorsementNotFound));
      var scores := s.scores[a := s.Score(a).(endorsementsGiven := SatSub32(s.Score(a).endorsementsGiven, 1))];
      var scoreB := s.(scores := scores).Score(b);
      Ok(Effect(
           ReputationState(
             scores[b := Rescore(scoreB.(endorsementsReceived := SatSub32(scoreB.endorsementsReceived, 1)))],
             s.given[a := Filter(s.Given(a), ToOther(b))],
             s.received[b := Filter(s.Received(b), FromOther(a))],
             s.endorsed - {(a, b)}),
           [EndorsementRemoved(a, b)]))
    case RecordCredentialIssuance(a) =>
      var _ :- EnsureRoot(origin);
      var score := Rescore(s.Score(a).(credentialsIssued := SatAdd32(s.Score(a).credentialsIssued, 1)));
      Ok(Effect(s.(scores := s.scores[a := score]),
                [CredentialIssuanceRecorded(a), ReputationUpdated(a, score.totalScore)]))
    case RecordCredentialVerification =>
      var a :- EnsureSigned(origin);
      var score := Rescore(s.Score(a).(credentialsVerified := SatAdd32(s.Score(a).credentialsVerified, 1)));
      Ok(Effect(s.(scores := s.scores[a := score]),
                [CredentialVerificationRecorded(a), ReputationUpdated(a, score.totalScore)]))
    case UpdateReputationScore(a) =>
      var _ :- EnsureRoot(origin);
      var score := Rescore(s.Score(a));
      Ok(Effect(s.(scores := s.scores[a := score]), [ReputationUpdated(a, score.totalScore)]))
  }

  /** The pallet's storage items, updated in place. `Endorse` may fail on the second list
      after it has extended the first; the caller rolls that write back. */
  class ReputationPallet {
    const cfg: Config
    const system: System
    const did: DidPallet
    var reputationScores: map<AccountId, ReputationScore>
    var endorsementsGiven: map<AccountId, seq<Endorsement>>
    var endorsementsReceived: map<AccountId, seq<Endorsement>>
    var hasEndorsed: map<(AccountId, AccountId), bool>

    constructor (cfg: Config, system: System, did: DidPallet)
      ensures this.cfg == cfg && this.system == system && this.did == did
      ensures State() == ReputationState(map[], map[], map[], map[])
    {
      this.cfg, this.system, this.did := cfg, system, did;
      reputationScores, endorsementsGiven, endorsementsReceived, hasEndorsed := map[], map[], map[], map[];
    }

    function State(): ReputationState
      reads this
    {
      ReputationState(reputationScores, endorsementsGiven, endorsementsReceived, hasEndorsed)
    }

    /** Extend the endorser's list, or fail without writing. */
    method PushGiven(e: Endorsement) returns (r: Outcome<()>)
      modifies this`endorsementsGiven
      ensures r == if |old(State()).Given(e.endorser)| < cfg.maxEndorsements then Ok(())
                   else Err(ReputationFailed(TooManyEndorsements))
      ensures endorsementsGiven ==
                if r.Ok? then old(endorsementsGiven)[e.endorser := old(State()).Given(e.endorser) + [e]]
                else old(endorsementsGiven)
    {
      var given :- TryPush(State().Given(e.endorser), e, cfg.maxEndorsements, ReputationFailed(TooManyEndorsements));
      endorsementsGiven := endorsementsGiven[e.endorser := given];
      return Ok(());
    }

    /** Extend the endorsee's list, or fail without writing. */
    method PushReceived(e: Endorsement) returns (r: Outcome<()>)
      modifies this`endorsementsReceived
      ensures r == if |old(State()).Received(e.endorsee)| < cfg.maxEndorsements then Ok(())
                   else Err(ReputationFailed(TooManyEndorsements))
      ensures endorsementsReceived ==
                if r.Ok? then old(endorsementsReceived)[e.endorsee := old(State()).Received(e.endorsee) + [e]]
                else old(endorsementsReceived)
    {
      var received :- TryPush(State().Received(e.endorsee), e, cfg.maxEndorsements,
                              ReputationFailed(TooManyEndorsements));
      endorsementsReceived := endorsementsReceived[e.endorsee := received];
      return Ok(());
    }

    method Endorse(origin: Origin, endorsee: AccountId, endorsementType: EndorsementType, comment: Bytes, weight: U8)
      returns (r: Outcome<()>)
      modifies this, system`log
      ensures Realizes(EndorseStep(cfg, system.block, did.State(), old(State()), origin,
                                   endorsee, endorsementType, comment, weight),
                       r, State(), old(system.log), system.log)
      // Only a full received list is noticed after a write, that of the endorser's list.
      ensures r.Err? ==> State() == old(State()).(given := endorsementsGiven) && system.log == old(system.log)
      ensures r.Err? && r.error != ReputationFailed(TooManyEndorsements) ==> State() == old(State())
      ensures r == Err(ReputationFailed(TooManyEndorsements)) && origin.Signed? ==>
                (|State().Given(origin.who)| > |old(State()).Given(origin.who)| <==>
                 |old(State()).Given(origin.who)| < cfg.maxEndorsements)
    {
      var endorser :- EnsureSigned(origin);
      :- Ensure(|comment| <= cfg.maxCommentSize, ReputationFailed(CommentTooLarge));
      :- Ensure(endorser != endorsee, ReputationFailed(CannotEndorseSelf));
      :- Ensure(weight >= 1 && weight <= 10, ReputationFailed(InvalidWeight));
      var endorserDid :- OkOr(Get(did.didDocuments, endorser), ReputationFailed(NoDid));
      :- Ensure(endorserDid.active, ReputationFailed(ReputationError.DidNotActive));
      var endorseeDid :- OkOr(Get(did.didDocuments, endorsee), ReputationFailed(NoDid));
      :- Ensure(endorseeDid.active, ReputationFailed(ReputationError.DidNotActive));
      :- Ensure(!State().HasEndorsed(endorser, endorsee), ReputationFailed(AlreadyEndorsed));

      var endorsement := Endorsement(endorser, endorsee, endorsementType, comment, system.block, weight);
      r := WriteEndorsement(endorsement);
    }

    /** The second half of endorsing, from the first list to the event. */
    method WriteEndorsement(e: Endorsement) returns (r: Outcome<()>)
      modifies this, system`log
      ensures Realizes(CommitStep(cfg, old(State()), e), r, State(), old(system.log), system.log)
      ensures r.Err? ==> State() == old(State()).(given := endorsementsGiven) && system.log == old(system.log)
      ensures r.Err? ==> (|State().Given(e.endorser)| > |old(State()).Given(e.endorser)| <==>
                          |old(State()).Given(e.endorser)| < cfg.maxEndorsements)
    {
      var _ :- PushGiven(e);
      var _ :- PushReceived(e);
      hasEndorsed := hasEndorsed[(e.endorser, e.endorsee) := true];

      var score := State().Score(e.endorser);
      score := score.(endorsementsGiven := SatAdd32(score.endorsementsGiven, 1));
      reputationScores := reputationScores[e.endorser := score];

      score := State().Score(e.endorsee);
      score := score.(endorsementsReceived := SatAdd32(score.endorsementsReceived, 1));
      score := score.(totalScore := CalculateReputationScore(score));
      reputationScores := reputationScores[e.endorsee := score];

      system.Deposit(EndorsementCreated(e.endorser, e.endorsee, e.endorsementType, e.weight));
      return Ok(());
    }

    method RemoveEndorsement(origin: Origin, endorsee: AccountId) returns (r: Outcome<()>)
      modifies this, system`log
      ensures Realizes(ReputationStep(cfg, system.block, did.State(), old(State()), origin,
                                      ReputationCall.RemoveEndorsement(endorsee)),
                       r, State(), old(system.log), system.log)
      ensures r.Err? ==> State() == old(State()) && system.log == old(system.log)
    {
      var endorser :- EnsureSigned(origin);
      :- Ensure(State().HasEndorsed(endorser, endorsee), ReputationFailed(EndorsementNotFound));

      endorsementsGiven := endorsementsGiven[endorser := Filter(State().Given(endorser), ToOther(endorsee))];
      endorsementsReceived := endorsementsReceived[endorsee := Filter(State().Received(endorsee), FromOther(endorser))];
      hasEndorsed := hasEndorsed - {(endorser, endorsee)};

      var score := State().Score(endorser);
      score := score.(endorsementsGiven := SatSub32(score.endorsementsGiven, 1));
      reputationScores := reputationScores[endorser := score];

      score := State().Score(endorsee);
      score := score.(endorsementsReceived := SatSub32(score.endorsementsReceived, 1));
      score := score.(totalScore := CalculateReputationScore(score));
      reputationScores := reputationScores[endorsee := score];

      system.Deposit(EndorsementRemoved(endorser, endorsee));
      return Ok(());
    }

    method RecordCredentialIssuance(origin: Origin, issuer: AccountId) returns (r: Outcome<()>)
      modifies this, system`log
      ensures Realizes(ReputationStep(cfg, system.block, did.State(), old(State()), origin,
                                      ReputationCall.RecordCredentialIssuance(issuer)),
                       r, State(), old(system.log), system.log)
      ensures r.Err? ==> State() == old(State()) && system.log == old(system.log)
    {
      var _ :- EnsureRoot(origin);
      var score := State().Score(issuer);
      score := score.(credentialsIssued := SatAdd32(score.credentialsIssued, 1));
      score := score.(totalScore := CalculateReputationScore(score));
      reputationScores := reputationScores[issuer := score];
      system.Deposit(CredentialIssuanceRecorded(issuer));
      var newScore := State().Score(issuer).totalScore;
      system.Deposit(ReputationUpdated(issuer, newScore));
      return Ok(());
    }

    method RecordCredentialVerification(origin: Origin) returns (r: Outcome<()>)
      modifies this, system`log
      ensures Realizes(ReputationStep(cfg, system.block, did.State(), old(State()), origin,
                                      ReputationCall.RecordCredentialVerification),
                       r, State(), old(system.log), system.log)
      ensures r.Err? ==> State() == old(State()) && system.log == old(system.log)
    {
      var verifier :- EnsureSigned(origin);
      var score := State().Score(verifier);
      score := score.(credentialsVerified := SatAdd32(score.credentialsVerified, 1));
      score := score.(totalScore := CalculateReputationScore(score));
      reputationScores := reputationScores[verifier := score];
      system.Deposit(CredentialVerificationRecorded(verifier));
      var newScore := State().Score(verifier).totalScore;
      system.Deposit(ReputationUpdated(verifier, newScore));
      return Ok(());
    }

    method UpdateReputationScore(origin: Origin, account: AccountId) returns (r: Outcome<()>)
      modifies this, system`log
      ensures Realizes(ReputationStep(cfg, system.block, did.State(), old(State()), origin,
                                      ReputationCall.UpdateReputationScore(account)),
                       r, State(), old(system.log), system.log)
      ensures r.Err? ==> State() == old(State()) && system.log == old(system.log)
    {
      var _ :- EnsureRoot(origin);
      var score := State().Score(account);
      score := score.(totalScore := CalculateReputationScore(score));
      reputationScores := reputationScores[account := score];
      var newScore := State().Score(account).totalScore;
      system.Deposit(ReputationUpdated(account, newScore));
      return Ok(());
    }

    method Dispatch(origin: Origin, call: ReputationCall) returns (r: Outcome<()>)
      modifies this, system`log
      ensures Realizes(ReputationStep(cfg, system.block, did.State(), old(State()), origin, call),
                       r, State(), old(system.log), system.log)
    {
      match call
      case Endorse(endorsee, endorsementType, comment, weight) =>
        r := Endorse(origin, endorsee, endorsementType, comment, weight);
      case RemoveEndorsement(endorsee) => r := RemoveEndorsement(origin, endorsee);
      case RecordCredentialIssuance(issuer) => r := RecordCredentialIssuance(origin, issuer);
      case RecordCredentialVerification => r := RecordCredentialVerification(origin);
      case UpdateReputationScore(account) => r := UpdateReputationScore(origin, account);
    }
  }
}
