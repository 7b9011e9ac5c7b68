/** The reputation pallet as a reading of the accepted calls: the live endorsements, every field of
    every score, which calls are refused and why, and what is announced. */
module ReputationHistory {
  import opened Prims
  import opened Frame
  import opened Seqs
  import opened Did
  import opened Reputation
  import opened Runtime
  import opened History
  import opened IdentityHistory
  import RL = ReputationLedger

  // ---------- what the history says ----------

  function OutsidePair(a: AccountId, b: AccountId): Endorsement -> bool {
    (e: Endorsement) => e.endorser != a || e.endorsee != b
  }

  /** The endorsements of the accepted calls in order, less those removed by their endorser. */
  function LiveIn(h: seq<Entry>): seq<Endorsement> {
    if h == [] then []
    else
      var live, e := LiveIn(h[..|h| - 1]), h[|h| - 1];
      if !(e.origin.Signed? && e.call.ToReputation?) then live
      else
        match e.call.reputation
        case Endorse(b, t, comment, weight) => live + [Endorsement(e.origin.who, b, t, comment, e.block, weight)]
        case RemoveEndorsement(b) => Filter(live, OutsidePair(e.origin.who, b))
        case _ => live
  }

  predicate Makes(h: Entry, e: Endorsement) {
    && h.origin == Signed(e.endorser) && h.block == e.createdAt
    && h.call == ToReputation(Endorse(e.endorsee, e.endorsementType, e.comment, e.weight))
  }

  predicate Removes(h: Entry, a: AccountId, b: AccountId) {
    h.origin == Signed(a) && h.call == ToReputation(RemoveEndorsement(b))
  }

  predicate MadeAndKept(h: seq<Entry>, e: Endorsement) {
    exists i :: 0 <= i < |h| && Makes(h[i], e) && forall j :: i < j < |h| ==> !Removes(h[j], e.endorser, e.endorsee)
  }

  /** The fold in plain words: an endorsement is live exactly when an accepted call made it and no
      later accepted call of its endorser removed it. */
  lemma {:induction false} LiveIsMadeAndKept(h: seq<Entry>, e: Endorsement)
    ensures e in LiveIn(h) <==> MadeAndKept(h, e)
  {
    if h != [] {
      var init, last := h[..|h| - 1], h[|h| - 1];
      LiveIsMadeAndKept(init, e);
      MadeSnoc(init, last, e);
      assert init + [last] == h;
      if last.origin.Signed? && last.call.ToReputation? && last.call.reputation.RemoveEndorsement? {
        FilterIn(LiveIn(init), OutsidePair(last.origin.who, last.call.reputation.endorsee), e);
      }
    }
  }

  lemma MadeSnoc(h: seq<Entry>, last: Entry, e: Endorsement)
    ensures MadeAndKept(h + [last], e) <==>
            Makes(last, e) || (MadeAndKept(h, e) && !Removes(last, e.endorser, e.endorsee))
  {
    var m := h + [last];
    assert forall i :: 0 <= i < |h| ==> m[i] == h[i];
    if Makes(last, e) {
      assert Makes(m[|h|], e);
    }
    if MadeAndKept(m, e) && !Makes(last, e) {
      var i :| 0 <= i < |m| && Makes(m[i], e) && forall j :: i < j < |m| ==> !Removes(m[j], e.endorser, e.endorsee);
      assert Makes(h[i], e);
      assert !Removes(m[|h|], e.endorser, e.endorsee);
    }
    if MadeAndKept(h, e) && !Removes(last, e.endorser, e.endorsee) {
      var i :| 0 <= i < |h| && Makes(h[i], e) && forall j :: i < j < |h| ==> !Removes(h[j], e.endorser, e.endorsee);
      assert Makes(m[i], e);
    }
  }

  predicate EndorsedIn(h: seq<Entry>, a: AccountId, b: AccountId) {
    exists e :: e in LiveIn(h) && e.endorser == a && e.endorsee == b
  }

  function GivenIn(h: seq<Entry>, a: AccountId): seq<Endorsement> {
    Filter(LiveIn(h), (e: Endorsement) => e.endorser == a)
  }

  function ReceivedIn(h: seq<Entry>, b: AccountId): seq<Endorsement> {
    Filter(LiveIn(h), (e: Endorsement) => e.endorsee == b)
  }

  function RecordsIssuance(a: AccountId): Entry -> bool {
    (e: Entry) => e.call == ToReputation(RecordCredentialIssuance(a))
  }

  function RecordsVerification(a: AccountId): Entry -> bool {
    (e: Entry) => e.origin == Signed(a) && e.call == ToReputation(RecordCredentialVerification)
  }

  function PointsIn(h: seq<Entry>, a: AccountId): U32 {
    Min(10 * Count(h, RecordsIssuance(a)) + 5 * Count(h, RecordsVerification(a)) + 20 * |ReceivedIn(h, a)|, 1000)
  }

  // ---------- the storage that the history leaves ----------

  ghost predicate LedgerFollows(h: seq<Entry>, l: RL.Ledger) {
    && l.entries == LiveIn(h)
    && (forall a :: l.issuances[a] == Count(h, RecordsIssuance(a)))
    && (forall a :: l.verifications[a] == Count(h, RecordsVerification(a)))
  }

  /** Activity counters stop at the u32 maximum; list counters are exact; the total is that of the
      uncapped counts. */
  predicate ScoreFollows(h: seq<Entry>, a: AccountId, score: ReputationScore) {
    && score.credentialsIssued == Cap32(Count(h, RecordsIssuance(a)))
    && score.credentialsVerified == Cap32(Count(h, RecordsVerification(a)))
    && score.endorsementsReceived == |ReceivedIn(h, a)| && score.endorsementsGiven == |GivenIn(h, a)|
    && score.totalScore == PointsIn(h, a)
  }

  ghost predicate ReputationFollows(h: seq<Entry>, s: ReputationState) {
    && (forall a :: s.Given(a) == GivenIn(h, a))
    && (forall b :: s.Received(b) == ReceivedIn(h, b))
    && (forall a, b :: s.HasEndorsed(a, b) <==> EndorsedIn(h, a, b))
    && (forall a :: ScoreFollows(h, a, s.Score(a)))
  }

  // ---------- refusals and announcements ----------

  /** Why the call is refused after history h, if it is; the first failing test decides. */
  function ReputationRefusal(cfg: Config, h: seq<Entry>, origin: Origin, call: ReputationCall): Option<DispatchError> {
    match call
    case Endorse(b, _, comment, weight) =>
      if !origin.Signed? then Some(BadOrigin)
      else if |comment| > cfg.maxCommentSize then Some(ReputationFailed(CommentTooLarge))
      else if origin.who == b then Some(ReputationFailed(CannotEndorseSelf))
      else if weight < 1 || 10 < weight then Some(ReputationFailed(InvalidWeight))
      else if !Enrolled(h, origin.who) then Some(ReputationFailed(NoDid))
      else if !ActiveIn(h, origin.who) then Some(ReputationFailed(ReputationError.DidNotActive))
      else if !Enrolled(h, b) then Some(ReputationFailed(NoDid))
      else if !ActiveIn(h, b) then Some(ReputationFailed(ReputationError.DidNotActive))
      else if EndorsedIn(h, origin.who, b) then Some(ReputationFailed(AlreadyEndorsed))
      else if |GivenIn(h, origin.who)| >= cfg.maxEndorsements || |ReceivedIn(h, b)| >= cfg.maxEndorsements
        then Some(ReputationFailed(TooManyEndorsements))
      else None
    case RemoveEndorsement(b) =>
      if !origin.Signed? then Some(BadOrigin)
      else if !EndorsedIn(h, origin.who, b) then Some(ReputationFailed(EndorsementNotFound))
      else None
    case RecordCredentialVerification => if !origin.Signed? then Some(BadOrigin) else None
    case RecordCredentialIssuance(_) => if origin != Root then Some(BadOrigin) else None
    case UpdateReputationScore(_) => if origin != Root then Some(BadOrigin) else None
  }

  /** What the accepted call that completes the history announces. */
  function ReputationAnnounces(h: seq<Entry>, origin: Origin, call: ReputationCall): seq<Event> {
    match (origin, call)
    case (Signed(a), Endorse(b, t, _, weight)) => [EndorsementCreated(a, b, t, weight)]
    case (Signed(a), RemoveEndorsement(b)) => [EndorsementRemoved(a, b)]
    case (Root, RecordCredentialIssuance(a)) => [CredentialIssuanceRecorded(a), ReputationUpdated(a, PointsIn(h, a))]
    case (Signed(a), RecordCredentialVerification) =>
      [CredentialVerificationRecorded(a), ReputationUpdated(a, PointsIn(h, a))]
    case (Root, UpdateReputationScore(a)) => [ReputationUpdated(a, PointsIn(h, a))]
    case _ => []
  }

  // ---------- one call ----------

  lemma ProjectionsRead(h: seq<Entry>, l: RL.Ledger, a: AccountId)
    requires LedgerFollows(h, l)
    ensures RL.GivenBy(l, a) == GivenIn(h, a) && RL.ReceivedBy(l, a) == ReceivedIn(h, a)
    ensures RL.ScoreOf(l, a) == PointsIn(h, a)
  {
    FilterCongruent(l.entries, RL.By(a), (e: Endorsement) => e.endorser == a);
    FilterCongruent(l.entries, RL.To(a), (e: Endorsement) => e.endorsee == a);
  }

  /** What the ledger says of storage, in the words of the history. */
  lemma LedgerReads(cfg: Config, h: seq<Entry>, s: ReputationState, l: RL.Ledger)
    requires RL.Refines(cfg, s, l) && LedgerFollows(h, l)
    ensures ReputationFollows(h, s)
  {
    forall a
      ensures s.Given(a) == GivenIn(h, a) && s.Received(a) == ReceivedIn(h, a)
      ensures ScoreFollows(h, a, s.Score(a))
    {
      ProjectionsRead(h, l, a);
      assert s.Given(a) == RL.GivenBy(l, a) && s.Received(a) == RL.ReceivedBy(l, a);
      assert RL.ScoreAgrees(s.Score(a), l, a);
    }
    forall a, b ensures s.HasEndorsed(a, b) <==> EndorsedIn(h, a, b) {
      assert s.HasEndorsed(a, b) <==> RL.HasPair(l, a, b);
      RL.PairIsMember(l, a, b);
    }
  }

  lemma ReputationRefused(cfg: Config, h: seq<Entry>, block: nat, d: DidState, l: RL.Ledger, origin: Origin,
                          call: ReputationCall)
    requires DidFollows(cfg, h, d) && LedgerFollows(h, l)
    ensures var r := RL.LedgerStep(cfg, block, d, l, origin, call);
      ReputationRefusal(cfg, h, origin, call) == if r.Ok? then None else Some(r.error)
  {
    if origin.Signed? {
      match call
      case Endorse(b, _, _, _) =>
        ProjectionsRead(h, l, origin.who);
        ProjectionsRead(h, l, b);
        RL.PairIsMember(l, origin.who, b);
        assert DocFollows(cfg, h, origin.who, Get(d.docs, origin.who)) && DocFollows(cfg, h, b, Get(d.docs, b));
      case RemoveEndorsement(b) => RL.PairIsMember(l, origin.who, b);
      case _ =>
    }
  }

  lemma EntriesFollowCall(cfg: Config, h: seq<Entry>, block: nat, d: DidState, l: RL.Ledger, origin: Origin,
                          call: ReputationCall)
    requires l.entries == LiveIn(h) && RL.LedgerStep(cfg, block, d, l, origin, call).Ok?
    ensures RL.LedgerStep(cfg, block, d, l, origin, call).value.entries
            == LiveIn(h + [Entry(block, origin, ToReputation(call))])
  {
    assert (h + [Entry(block, origin, ToReputation(call))])[..|h|] == h;
    if call.RemoveEndorsement? {
      FilterCongruent(l.entries, RL.OtherPair(origin.who, call.endorsee), OutsidePair(origin.who, call.endorsee));
    }
  }

  lemma LedgerFollowsCall(cfg: Config, h: seq<Entry>, block: nat, d: DidState, l: RL.Ledger, origin: Origin,
                          call: ReputationCall)
    requires LedgerFollows(h, l) && RL.LedgerStep(cfg, block, d, l, origin, call).Ok?
    ensures LedgerFollows(h + [Entry(block, origin, ToReputation(call))],
                          RL.LedgerStep(cfg, block, d, l, origin, call).value)
  {
    var e, m := Entry(block, origin, ToReputation(call)), RL.LedgerStep(cfg, block, d, l, origin, call).value;
    EntriesFollowCall(cfg, h, block, d, l, origin, call);
    forall a
      ensures m.issuances[a] == Count(h + [e], RecordsIssuance(a))
      ensures m.verifications[a] == Count(h + [e], RecordsVerification(a))
    {
      CountsFollowCall(cfg, h, block, d, l, origin, call, a);
    }
  }

  lemma CountsFollowCall(cfg: Config, h: seq<Entry>, block: nat, d: DidState, l: RL.Ledger, origin: Origin,
                         call: ReputationCall, a: AccountId)
    requires RL.LedgerStep(cfg, block, d, l, origin, call).Ok?
    requires l.issuances[a] == Count(h, RecordsIssuance(a)) && l.verifications[a] == Count(h, RecordsVerification(a))
    ensures var g := h + [Entry(block, origin, ToReputation(call))];
      var m := RL.LedgerStep(cfg, block, d, l, origin, call).value;
      m.issuances[a] == Count(g, RecordsIssuance(a)) && m.verifications[a] == Count(g, RecordsVerification(a))
  {
    LastSnoc(h, Entry(block, origin, ToReputation(call)), RecordsIssuance(a));
    LastSnoc(h, Entry(block, origin, ToReputation(call)), RecordsVerification(a));
  }

  /** Calls of the other pallets leave the endorsements and counts of the history. */
  lemma LedgerUntouched(h: seq<Entry>, e: Entry, l: RL.Ledger)
    requires LedgerFollows(h, l) && !e.call.ToReputation?
    ensures LedgerFollows(h + [e], l)
  {
    assert (h + [e])[..|h|] == h;
    forall a ensures l.issuances[a] == Count(h + [e], RecordsIssuance(a)) {
      LastSnoc(h, e, RecordsIssuance(a));
    }
    forall a ensures l.verifications[a] == Count(h + [e], RecordsVerification(a)) {
      LastSnoc(h, e, RecordsVerification(a));
    }
  }

  lemma AnnouncedAsDone(cfg: Config, h: seq<Entry>, block: nat, d: DidState, s: ReputationState, m: RL.Ledger,
                        origin: Origin, call: ReputationCall)
    requires ReputationStep(cfg, block, d, s, origin, call).Ok?
    requires RL.Refines(cfg, ReputationStep(cfg, block, d, s, origin, call).value.state, m) && LedgerFollows(h, m)
    ensures ReputationStep(cfg, block, d, s, origin, call).value.events == ReputationAnnounces(h, origin, call)
  {
    var t := ReputationStep(cfg, block, d, s, origin, call).value.state;
    LedgerReads(cfg, h, t, m);
    match call
    case RecordCredentialIssuance(a) => assert t.Score(a).totalScore == PointsIn(h, a);
    case RecordCredentialVerification => assert t.Score(origin.who).totalScore == PointsIn(h, origin.who);
    case UpdateReputationScore(a) => assert t.Score(a).totalScore == PointsIn(h, a);
    case _ =>
  }

  /** The call ends as the history says: refused for its reason, or accepted with its announcement. */
  ghost predicate ReputationCallFollows(cfg: Config, h: seq<Entry>, block: nat, d: DidState, s: ReputationState,
                                        l: RL.Ledger, origin: Origin, call: ReputationCall) {
    var g := h + [Entry(block, origin, ToReputation(call))];
    var m := RL.LedgerStep(cfg, block, d, l, origin, call);
    match ReputationStep(cfg, block, d, s, origin, call)
    case Err(error) => ReputationRefusal(cfg, h, origin, call) == Some(error)
    case Ok(r) =>
      && ReputationRefusal(cfg, h, origin, call) == None && r.events == ReputationAnnounces(g, origin, call)
      && m.Ok? && RL.Refines(cfg, r.state, m.value) && LedgerFollows(g, m.value)
  }

  /** One reputation call on storage that follows the history. */
  lemma ReputationCallStepFollows(cfg: Config, h: seq<Entry>, block: nat, d: DidState, s: ReputationState,
                                  l: RL.Ledger, origin: Origin, call: ReputationCall)
    requires DidFollows(cfg, h, d) && RL.Refines(cfg, s, l) && LedgerFollows(h, l)
    ensures ReputationCallFollows(cfg, h, block, d, s, l, origin, call)
  {
    RL.StepRefines(cfg, block, d, s, l, origin, call);
    ReputationRefused(cfg, h, block, d, l, origin, call);
    var r := RL.LedgerStep(cfg, block, d, l, origin, call);
    if r.Ok? {
      LedgerFollowsCall(cfg, h, block, d, l, origin, call);
      AnnouncedAsDone(cfg, h + [Entry(block, origin, ToReputation(call))], block, d, s, r.value, origin, call);
    }
  }
}
