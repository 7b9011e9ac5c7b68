/** The reputation pallet as one ordered ledger of endorsements and two multisets of
    recorded activity, and the proof that the stored copies always agree with it. */
module ReputationLedger {
  import opened Prims
  import opened Frame
  import opened Seqs
  import opened Did
  import opened Reputation
  import opened Runtime

  /** Live endorsements in the order they were made; who had issuances and verifications recorded. */
  datatype Ledger = Ledger(
    entries: seq<Endorsement>,
    issuances: multiset<AccountId>,
    verifications: multiset<AccountId>)

  const EMPTY: Ledger := Ledger([], multiset{}, multiset{})

  function By(a: AccountId): Endorsement -> bool {
    (e: Endorsement) => e.endorser == a
  }

  function To(b: AccountId): Endorsement -> bool {
    (e: Endorsement) => e.endorsee == b
  }

  function OtherPair(a: AccountId, b: AccountId): Endorsement -> bool {
    (e: Endorsement) => !(e.endorser == a && e.endorsee == b)
  }

  function GivenBy(l: Ledger, a: AccountId): seq<Endorsement> {
    Filter(l.entries, By(a))
  }

  function ReceivedBy(l: Ledger, b: AccountId): seq<Endorsement> {
    Filter(l.entries, To(b))
  }

  predicate HasPair(l: Ledger, a: AccountId, b: AccountId) {
    exists i :: 0 <= i < |l.entries| && l.entries[i].endorser == a && l.entries[i].endorsee == b
  }

  /** The ledger without the endorsement of b by a. */
  function Drop(l: Ledger, a: AccountId, b: AccountId): Ledger {
    l.(entries := Filter(l.entries, OtherPair(a, b)))
  }

  /** The published score, over unbounded counts. */
  function ScoreOf(l: Ledger, a: AccountId): nat {
    Min(10 * l.issuances[a] + 5 * l.verifications[a] + 20 * |ReceivedBy(l, a)|, 1000)
  }

  /** The calls on the ledger: a scan, a count, an append or a deletion. */
  function LedgerStep(cfg: Config, block: nat, d: DidState, l: Ledger, origin: Origin,
                      call: ReputationCall): Outcome<Ledger> {
    match call
    case Endorse(b, endorsementType, comment, weight) =>
      var a :- EnsureSigned(origin);
      :- CheckEndorsement(cfg, d, a, b, comment, weight);
      :- Ensure(!HasPair(l, a, b), ReputationFailed(AlreadyEndorsed));
      :- Ensure(|GivenBy(l, a)| < cfg.maxEndorsements && |ReceivedBy(l, b)| < cfg.maxEndorsements,
                ReputationFailed(TooManyEndorsements));
      Ok(l.(entries := l.entries + [Endorsement(a, b, endorsementType, comment, block, weight)]))
    case RemoveEndorsement(b) =>
      var a :- EnsureSigned(origin);
      :- Ensure(HasPair(l, a, b), ReputationFailed(EndorsementNotFound));
      Ok(Drop(l, a, b))
    case RecordCredentialIssuance(a) =>
      var _ :- EnsureRoot(origin);
      Ok(l.(issuances := l.issuances + multiset{a}))
    case RecordCredentialVerification =>
      var a :- EnsureSigned(origin);
      Ok(l.(verifications := l.verifications + multiset{a}))
    case UpdateReputationScore(a) =>
      var _ :- EnsureRoot(origin);
      Ok(l)
  }

  // ---------- the relation between storage and ledger ----------

  ghost predicate DistinctPairs(s: seq<Endorsement>) {
    forall i, j :: 0 <= i < j < |s| ==> !(s[i].endorser == s[j].endorser && s[i].endorsee == s[j].endorsee)
  }

  ghost predicate WellFormed(cfg: Config, l: Ledger) {
    && DistinctPairs(l.entries)
    && (forall a :: |GivenBy(l, a)| <= cfg.maxEndorsements)
    && (forall b :: |ReceivedBy(l, b)| <= cfg.maxEndorsements)
  }

  /** The stored score of `a`, field by field; the two list counters are exact. */
  ghost predicate ScoreAgrees(score: ReputationScore, l: Ledger, a: AccountId) {
    && score.credentialsIssued == Cap32(l.issuances[a])
    && score.credentialsVerified == Cap32(l.verifications[a])
    && score.endorsementsReceived == |ReceivedBy(l, a)|
    && score.endorsementsGiven == |GivenBy(l, a)|
    && score.totalScore == ScoreOf(l, a)
  }

  ghost predicate ListsAgree(s: ReputationState, l: Ledger) {
    && (forall a :: s.Given(a) == GivenBy(l, a))
    && (forall b :: s.Received(b) == ReceivedBy(l, b))
    && (forall a, b :: s.HasEndorsed(a, b) <==> HasPair(l, a, b))
  }

  ghost predicate Refines(cfg: Config, s: ReputationState, l: Ledger) {
    && WellFormed(cfg, l)
    && ListsAgree(s, l)
    && (forall a :: ScoreAgrees(s.Score(a), l, a))
  }

  // ---------- the score ----------

  /** Two layers of saturation do not show: the published score is that of the unbounded counts. */
  lemma ScoreIsExact(score: ReputationScore, issuances: nat, verifications: nat)
    requires score.credentialsIssued == Cap32(issuances)
    requires score.credentialsVerified == Cap32(verifications)
    ensures CalculateReputationScore(score)
            == Min(10 * issuances + 5 * verifications + 20 * score.endorsementsReceived, 1000)
  {
  }

  // ---------- appending and deleting ----------

  lemma AppendPairs(l: Ledger, e: Endorsement, a: AccountId, b: AccountId)
    ensures HasPair(l.(entries := l.entries + [e]), a, b) <==>
            HasPair(l, a, b) || (a == e.endorser && b == e.endorsee)
  {
    var m := l.(entries := l.entries + [e]);
    assert m.entries[|l.entries|] == e;
    if HasPair(l, a, b) {
      var i :| 0 <= i < |l.entries| && l.entries[i].endorser == a && l.entries[i].endorsee == b;
      assert m.entries[i] == l.entries[i];
    }
  }

  lemma AppendProjects(l: Ledger, e: Endorsement)
    ensures var m := l.(entries := l.entries + [e]);
      && (forall a :: GivenBy(m, a) == if a == e.endorser then GivenBy(l, a) + [e] else GivenBy(l, a))
      && (forall b :: ReceivedBy(m, b) == if b == e.endorsee then ReceivedBy(l, b) + [e] else ReceivedBy(l, b))
      && (forall a, b :: HasPair(m, a, b) <==> HasPair(l, a, b) || (a == e.endorser && b == e.endorsee))
  {
    var m := l.(entries := l.entries + [e]);
    forall a ensures GivenBy(m, a) == if a == e.endorser then GivenBy(l, a) + [e] else GivenBy(l, a) {
      FilterSnoc(l.entries, e, By(a));
    }
    forall b ensures ReceivedBy(m, b) == if b == e.endorsee then ReceivedBy(l, b) + [e] else ReceivedBy(l, b) {
      FilterSnoc(l.entries, e, To(b));
    }
    forall a, b ensures HasPair(m, a, b) <==> HasPair(l, a, b) || (a == e.endorser && b == e.endorsee) {
      AppendPairs(l, e, a, b);
    }
  }

  /** `retain` looks at one endpoint only, but removes exactly the pair from both lists. */
  lemma DropProjects(l: Ledger, a: AccountId, b: AccountId)
    ensures var m := Drop(l, a, b);
      && GivenBy(m, a) == Filter(GivenBy(l, a), ToOther(b))
      && ReceivedBy(m, b) == Filter(ReceivedBy(l, b), FromOther(a))
      && (forall c :: c != a ==> GivenBy(m, c) == GivenBy(l, c))
      && (forall c :: c != b ==> ReceivedBy(m, c) == ReceivedBy(l, c))
  {
    var m := Drop(l, a, b);
    FilterSwap(l.entries, By(a), OtherPair(a, b), ToOther(b));
    FilterSwap(l.entries, To(b), OtherPair(a, b), FromOther(a));
    forall c | c != a ensures GivenBy(m, c) == GivenBy(l, c) {
      FilterSwap(l.entries, By(c), OtherPair(a, b), OtherPair(a, b));
      FilterKept(l.entries, By(c), OtherPair(a, b));
    }
    forall c | c != b ensures ReceivedBy(m, c) == ReceivedBy(l, c) {
      FilterSwap(l.entries, To(c), OtherPair(a, b), OtherPair(a, b));
      FilterKept(l.entries, To(c), OtherPair(a, b));
    }
  }

  lemma FilterKept(s: seq<Endorsement>, first: Endorsement -> bool, second: Endorsement -> bool)
    requires forall e :: first(e) ==> second(e)
    ensures Filter(Filter(s, first), second) == Filter(s, first)
  {
    forall e | e in Filter(s, first) ensures second(e) {
      FilterIn(s, first, e);
    }
    FilterAll(Filter(s, first), second);
  }

  lemma PairIsMember(l: Ledger, a: AccountId, b: AccountId)
    ensures HasPair(l, a, b) <==> exists e :: e in l.entries && e.endorser == a && e.endorsee == b
  {
    if e :| e in l.entries && e.endorser == a && e.endorsee == b {
      var i :| 0 <= i < |l.entries| && l.entries[i] == e;
    }
  }

  lemma DropPairs(l: Ledger, a: AccountId, b: AccountId, c: AccountId, d: AccountId)
    ensures HasPair(Drop(l, a, b), c, d) <==> HasPair(l, c, d) && !(c == a && d == b)
  {
    PairIsMember(l, c, d);
    PairIsMember(Drop(l, a, b), c, d);
    forall e: Endorsement ensures e in Drop(l, a, b).entries <==> e in l.entries && OtherPair(a, b)(e) {
      FilterIn(l.entries, OtherPair(a, b), e);
    }
  }

  lemma {:induction false} FilterKeepsDistinct(s: seq<Endorsement>, keep: Endorsement -> bool)
    requires DistinctPairs(s)
    ensures DistinctPairs(Filter(s, keep))
  {
    if s != [] {
      var init, x := s[..|s| - 1], s[|s| - 1];
      FilterKeepsDistinct(init, keep);
      forall e | e in Filter(init, keep)
        ensures !(e.endorser == x.endorser && e.endorsee == x.endorsee)
      {
        FilterIn(init, keep, e);
        var i :| 0 <= i < |init| && init[i] == e;
        assert s[i] == e;
      }
    }
  }

  /** With distinct pairs, deleting a present pair shortens both lists by exactly one. */
  lemma DropCounts(l: Ledger, a: AccountId, b: AccountId)
    requires DistinctPairs(l.entries) && HasPair(l, a, b)
    ensures |GivenBy(Drop(l, a, b), a)| == |GivenBy(l, a)| - 1
    ensures |ReceivedBy(Drop(l, a, b), b)| == |ReceivedBy(l, b)| - 1
  {
    var i :| 0 <= i < |l.entries| && l.entries[i].endorser == a && l.entries[i].endorsee == b;
    forall j | 0 <= j < |l.entries| && j != i ensures OtherPair(a, b)(l.entries[j]) {
      if j < i {
      } else {
      }
    }
    FilterDropsOne(l.entries, i, OtherPair(a, b), By(a));
    FilterDropsOne(l.entries, i, OtherPair(a, b), To(b));
  }

  // ---------- every call preserves the relation ----------

  lemma AppendKeepsWellFormed(cfg: Config, l: Ledger, e: Endorsement)
    requires WellFormed(cfg, l) && !HasPair(l, e.endorser, e.endorsee)
    requires |GivenBy(l, e.endorser)| < cfg.maxEndorsements && |ReceivedBy(l, e.endorsee)| < cfg.maxEndorsements
    ensures WellFormed(cfg, l.(entries := l.entries + [e]))
  {
    var m := l.(entries := l.entries + [e]);
    assert DistinctPairs(m.entries) by {
      forall i | 0 <= i < |l.entries|
        ensures !(l.entries[i].endorser == e.endorser && l.entries[i].endorsee == e.endorsee)
      {
        assert !HasPair(l, e.endorser, e.endorsee);
      }
    }
    AppendProjects(l, e);
  }

  lemma DropKeepsWellFormed(cfg: Config, l: Ledger, a: AccountId, b: AccountId)
    requires WellFormed(cfg, l)
    ensures WellFormed(cfg, Drop(l, a, b))
  {
    FilterKeepsDistinct(l.entries, OtherPair(a, b));
    DropProjects(l, a, b);
  }

  /** Scores after a call that leaves everyone but a and b alone. */
  lemma ScoresCarryOver(s: ReputationState, l: Ledger, t: ReputationState, m: Ledger, a: AccountId, b: AccountId)
    requires forall c :: ScoreAgrees(s.Score(c), l, c)
    requires forall c :: c != a && c != b ==>
      t.Score(c) == s.Score(c) && l.issuances[c] == m.issuances[c] && l.verifications[c] == m.verifications[c]
      && GivenBy(m, c) == GivenBy(l, c) && ReceivedBy(m, c) == ReceivedBy(l, c)
    requires ScoreAgrees(t.Score(a), m, a) && ScoreAgrees(t.Score(b), m, b)
    ensures forall c :: ScoreAgrees(t.Score(c), m, c)
  {
    forall c ensures ScoreAgrees(t.Score(c), m, c) {
      if c != a && c != b {
        assert ScoreAgrees(s.Score(c), l, c);
      }
    }
  }

  lemma EndorseRefines(cfg: Config, s: ReputationState, l: Ledger, e: Endorsement)
    requires Refines(cfg, s, l) && !HasPair(l, e.endorser, e.endorsee) && e.endorser != e.endorsee
    requires CommitStep(cfg, s, e).Ok?
    ensures Refines(cfg, CommitStep(cfg, s, e).value.state, l.(entries := l.entries + [e]))
  {
    var a, b := e.endorser, e.endorsee;
    var t, m := CommitStep(cfg, s, e).value.state, l.(entries := l.entries + [e]);
    assert s.Given(a) == GivenBy(l, a) && s.Received(b) == ReceivedBy(l, b);
    AppendKeepsWellFormed(cfg, l, e);
    EndorseLists(s, l, t, e);
    EndorseScores(cfg, s, l, t, e);
  }

  lemma EndorseLists(s: ReputationState, l: Ledger, t: ReputationState, e: Endorsement)
    requires ListsAgree(s, l)
    requires t.given == s.given[e.endorser := s.Given(e.endorser) + [e]]
    requires t.received == s.received[e.endorsee := s.Received(e.endorsee) + [e]]
    requires t.endorsed == s.endorsed[(e.endorser, e.endorsee) := true]
    ensures ListsAgree(t, l.(entries := l.entries + [e]))
  {
    var m := l.(entries := l.entries + [e]);
    forall c, d ensures t.HasEndorsed(c, d) <==> HasPair(m, c, d) {
      AppendPairs(l, e, c, d);
      assert s.HasEndorsed(c, d) <==> HasPair(l, c, d);
    }
    forall c ensures t.Given(c) == GivenBy(m, c) && t.Received(c) == ReceivedBy(m, c) {
      assert s.Given(c) == GivenBy(l, c) && s.Received(c) == ReceivedBy(l, c);
      FilterSnoc(l.entries, e, By(c));
      FilterSnoc(l.entries, e, To(c));
    }
  }

  lemma EndorseScores(cfg: Config, s: ReputationState, l: Ledger, t: ReputationState, e: Endorsement)
    requires e.endorser != e.endorsee
    requires forall c :: ScoreAgrees(s.Score(c), l, c)
    requires |GivenBy(l, e.endorser)| < cfg.maxEndorsements && |ReceivedBy(l, e.endorsee)| < cfg.maxEndorsements
    requires
      var a, b := e.endorser, e.endorsee;
      t.scores == s.scores[a := s.Score(a).(endorsementsGiven := SatAdd32(s.Score(a).endorsementsGiven, 1))]
                          [b := Rescore(s.Score(b).(endorsementsReceived := SatAdd32(s.Score(b).endorsementsReceived, 1)))]
    ensures forall c :: ScoreAgrees(t.Score(c), l.(entries := l.entries + [e]), c)
  {
    forall c ensures ScoreAgrees(t.Score(c), l.(entries := l.entries + [e]), c) {
      assert ScoreAgrees(s.Score(c), l, c);
      if c == e.endorser {
        EndorserScored(l, e, s.Score(c));
      } else if c == e.endorsee {
        EndorseeScored(l, e, s.Score(c));
      } else {
        BystanderScored(l, e, c, s.Score(c));
      }
    }
  }

  lemma EndorserScored(l: Ledger, e: Endorsement, score: ReputationScore)
    requires e.endorser != e.endorsee && |GivenBy(l, e.endorser)| < U32_MAX && ScoreAgrees(score, l, e.endorser)
    ensures ScoreAgrees(score.(endorsementsGiven := SatAdd32(score.endorsementsGiven, 1)),
                        l.(entries := l.entries + [e]), e.endorser)
  {
    FilterSnoc(l.entries, e, By(e.endorser));
    FilterSnoc(l.entries, e, To(e.endorser));
  }

  lemma EndorseeScored(l: Ledger, e: Endorsement, score: ReputationScore)
    requires e.endorser != e.endorsee && |ReceivedBy(l, e.endorsee)| < U32_MAX && ScoreAgrees(score, l, e.endorsee)
    ensures ScoreAgrees(Rescore(score.(endorsementsReceived := SatAdd32(score.endorsementsReceived, 1))),
                        l.(entries := l.entries + [e]), e.endorsee)
  {
    FilterSnoc(l.entries, e, By(e.endorsee));
    FilterSnoc(l.entries, e, To(e.endorsee));
    ScoreIsExact(score.(endorsementsReceived := SatAdd32(score.endorsementsReceived, 1)),
                 l.issuances[e.endorsee], l.verifications[e.endorsee]);
  }

  lemma BystanderScored(l: Ledger, e: Endorsement, c: AccountId, score: ReputationScore)
    requires c != e.endorser && c != e.endorsee && ScoreAgrees(score, l, c)
    ensures ScoreAgrees(score, l.(entries := l.entries + [e]), c)
  {
    FilterSnoc(l.entries, e, By(c));
    FilterSnoc(l.entries, e, To(c));
  }

  lemma RemoveRefines(cfg: Config, block: nat, d: DidState, s: ReputationState, l: Ledger, a: AccountId, b: AccountId)
    requires Refines(cfg, s, l) && HasPair(l, a, b)
    ensures var r := ReputationStep(cfg, block, d, s, Signed(a), RemoveEndorsement(b));
      r.Ok? && Refines(cfg, r.value.state, Drop(l, a, b))
  {
    var r := ReputationStep(cfg, block, d, s, Signed(a), RemoveEndorsement(b));
    assert s.HasEndorsed(a, b);
    var t, m := r.value.state, Drop(l, a, b);
    DropKeepsWellFormed(cfg, l, a, b);
    RemoveLists(s, l, t, a, b);
    RemoveScores(s, l, t, a, b);
  }

  lemma RemoveLists(s: ReputationState, l: Ledger, t: ReputationState, a: AccountId, b: AccountId)
    requires ListsAgree(s, l)
    requires t.given == s.given[a := Filter(s.Given(a), ToOther(b))]
    requires t.received == s.received[b := Filter(s.Received(b), FromOther(a))]
    requires t.endorsed == s.endorsed - {(a, b)}
    ensures ListsAgree(t, Drop(l, a, b))
  {
    DropProjects(l, a, b);
    assert s.Given(a) == GivenBy(l, a) && s.Received(b) == ReceivedBy(l, b);
    forall c, d ensures t.HasEndorsed(c, d) <==> HasPair(Drop(l, a, b), c, d) {
      DropPairs(l, a, b, c, d);
      assert s.HasEndorsed(c, d) <==> HasPair(l, c, d);
    }
  }

  lemma RemoveScores(s: ReputationState, l: Ledger, t: ReputationState, a: AccountId, b: AccountId)
    requires DistinctPairs(l.entries) && HasPair(l, a, b)
    requires forall c :: ScoreAgrees(s.Score(c), l, c)
    requires
      var scores := s.scores[a := s.Score(a).(endorsementsGiven := SatSub32(s.Score(a).endorsementsGiven, 1))];
      var scoreB := s.(scores := scores).Score(b);
      t.scores == scores[b := Rescore(scoreB.(endorsementsReceived := SatSub32(scoreB.endorsementsReceived, 1)))]
    ensures forall c :: ScoreAgrees(t.Score(c), Drop(l, a, b), c)
  {
    forall c ensures ScoreAgrees(t.Score(c), Drop(l, a, b), c) {
      assert ScoreAgrees(s.Score(c), l, c);
      if c == b {
        EndorseeDropped(l, a, b, s.Score(b));
      } else if c == a {
        EndorserDropped(l, a, b, s.Score(a));
      } else {
        DropProjects(l, a, b);
      }
    }
  }

  lemma EndorserDropped(l: Ledger, a: AccountId, b: AccountId, score: ReputationScore)
    requires a != b && DistinctPairs(l.entries) && HasPair(l, a, b) && ScoreAgrees(score, l, a)
    ensures ScoreAgrees(score.(endorsementsGiven := SatSub32(score.endorsementsGiven, 1)), Drop(l, a, b), a)
  {
    DropCounts(l, a, b);
    DropProjects(l, a, b);
  }

  /** The endorsee may be the endorser, whose given count is lowered first. */
  lemma EndorseeDropped(l: Ledger, a: AccountId, b: AccountId, score: ReputationScore)
    requires DistinctPairs(l.entries) && HasPair(l, a, b) && ScoreAgrees(score, l, b)
    ensures
      var lowered := if a == b then score.(endorsementsGiven := SatSub32(score.endorsementsGiven, 1)) else score;
      ScoreAgrees(Rescore(lowered.(endorsementsReceived := SatSub32(lowered.endorsementsReceived, 1))),
                  Drop(l, a, b), b)
  {
    DropCounts(l, a, b);
    DropProjects(l, a, b);
    ScoreIsExact(score.(endorsementsReceived := SatSub32(score.endorsementsReceived, 1)),
                 l.issuances[b], l.verifications[b]);
  }

  /** Changing only what was recorded for `a` keeps the lists. */
  lemma RecordRefines(cfg: Config, s: ReputationState, l: Ledger, m: Ledger, a: AccountId, score: ReputationScore)
    requires Refines(cfg, s, l) && m.entries == l.entries
    requires forall c :: c != a ==> m.issuances[c] == l.issuances[c] && m.verifications[c] == l.verifications[c]
    requires score.credentialsIssued == Cap32(m.issuances[a]) && score.credentialsVerified == Cap32(m.verifications[a])
    requires score.endorsementsReceived == s.Score(a).endorsementsReceived
    requires score.endorsementsGiven == s.Score(a).endorsementsGiven
    ensures Refines(cfg, s.(scores := s.scores[a := Rescore(score)]), m)
  {
    var t := s.(scores := s.scores[a := Rescore(score)]);
    SameEntries(cfg, s, l, t, m);
    assert ScoreAgrees(s.Score(a), l, a);
    ScoreIsExact(score, m.issuances[a], m.verifications[a]);
    assert ScoreAgrees(t.Score(a), m, a);
    ScoresCarryOver(s, l, t, m, a, a);
  }

  lemma SameEntries(cfg: Config, s: ReputationState, l: Ledger, t: ReputationState, m: Ledger)
    requires WellFormed(cfg, l) && ListsAgree(s, l) && m.entries == l.entries
    requires t.given == s.given && t.received == s.received && t.endorsed == s.endorsed
    ensures WellFormed(cfg, m) && ListsAgree(t, m)
    ensures forall c :: GivenBy(m, c) == GivenBy(l, c) && ReceivedBy(m, c) == ReceivedBy(l, c)
  {
    assert forall c :: GivenBy(m, c) == GivenBy(l, c) && ReceivedBy(m, c) == ReceivedBy(l, c);
    forall a, b ensures t.HasEndorsed(a, b) <==> HasPair(m, a, b) {
      assert s.HasEndorsed(a, b) <==> HasPair(l, a, b);
    }
    forall c ensures t.Given(c) == GivenBy(m, c) && t.Received(c) == ReceivedBy(m, c) {
      assert s.Given(c) == GivenBy(l, c) && s.Received(c) == ReceivedBy(l, c);
    }
  }

  /** The call has the same outcome on storage and on the ledger, and ends in related states. */
  ghost predicate StepsAgree(cfg: Config, block: nat, d: DidState, s: ReputationState, l: Ledger, origin: Origin,
                             call: ReputationCall) {
    match (ReputationStep(cfg, block, d, s, origin, call), LedgerStep(cfg, block, d, l, origin, call))
    case (Ok(e), Ok(m)) => Refines(cfg, e.state, m)
    case (Err(x), Err(y)) => x == y
    case _ => false
  }

  /** One call on storage refines the same call on the ledger. */
  lemma StepRefines(cfg: Config, block: nat, d: DidState, s: ReputationState, l: Ledger, origin: Origin,
                    call: ReputationCall)
    requires Refines(cfg, s, l)
    ensures StepsAgree(cfg, block, d, s, l, origin, call)
  {
    match call
    case Endorse(b, endorsementType, comment, weight) =>
      if origin.Signed? {
        assert s.HasEndorsed(origin.who, b) <==> HasPair(l, origin.who, b);
        assert s.Given(origin.who) == GivenBy(l, origin.who) && s.Received(b) == ReceivedBy(l, b);
        var r := LedgerStep(cfg, block, d, l, origin, call);
        if r.Ok? {
          EndorseRefines(cfg, s, l, Endorsement(origin.who, b, endorsementType, comment, block, weight));
        }
      }
    case RemoveEndorsement(b) =>
      if origin.Signed? {
        assert s.HasEndorsed(origin.who, b) <==> HasPair(l, origin.who, b);
        if HasPair(l, origin.who, b) {
          RemoveRefines(cfg, block, d, s, l, origin.who, b);
        }
      }
    case _ => RecordsAgree(cfg, block, d, s, l, origin, call);
  }

  lemma RecordsAgree(cfg: Config, block: nat, d: DidState, s: ReputationState, l: Ledger, origin: Origin,
                     call: ReputationCall)
    requires Refines(cfg, s, l) && !call.Endorse? && !call.RemoveEndorsement?
    ensures StepsAgree(cfg, block, d, s, l, origin, call)
  {
    var r := LedgerStep(cfg, block, d, l, origin, call);
    if r.Ok? {
      match call
      case RecordCredentialIssuance(a) =>
        var score := s.Score(a);
        assert ScoreAgrees(score, l, a);
        RecordRefines(cfg, s, l, r.value, a, score.(credentialsIssued := SatAdd32(score.credentialsIssued, 1)));
      case RecordCredentialVerification =>
        var a := origin.who;
        var score := s.Score(a);
        assert ScoreAgrees(score, l, a);
        RecordRefines(cfg, s, l, r.value, a, score.(credentialsVerified := SatAdd32(score.credentialsVerified, 1)));
      case UpdateReputationScore(a) =>
        assert ScoreAgrees(s.Score(a), l, a);
        RecordRefines(cfg, s, l, r.value, a, s.Score(a));
    }
  }

  // ---------- over runs ----------

  /** The ledger's own reading of a step; it sees of storage only the block and the identities. */
  function NextLedger(cfg: Config, s: Storage, l: Ledger, a: Action): Ledger {
    if a.Call? && a.call.ToReputation? then
      var r := LedgerStep(cfg, s.block, s.did, l, a.origin, a.call.reputation);
      if r.Ok? then r.value else l
    else l
  }

  function LedgerRun(cfg: Config, s: Storage, l: Ledger, actions: seq<Action>): Ledger {
    if actions == [] then l
    else
      var init := actions[..|actions| - 1];
      NextLedger(cfg, Run(cfg, s, init), LedgerRun(cfg, s, l, init), actions[|actions| - 1])
  }

  function LedgerAfter(cfg: Config, actions: seq<Action>): Ledger {
    LedgerRun(cfg, GENESIS, EMPTY, actions)
  }

  lemma NextRefines(cfg: Config, s: Storage, l: Ledger, a: Action)
    requires Refines(cfg, s.reputation, l)
    ensures Refines(cfg, Next(cfg, s, a).reputation, NextLedger(cfg, s, l, a))
  {
    if a.Call? && a.call.ToReputation? {
      StepRefines(cfg, s.block, s.did, s.reputation, l, a.origin, a.call.reputation);
    }
  }

  /** Main result: in every reachable state the stored lists, flags, counters and scores are
      those of the ledger of that run. */
  lemma {:induction false} ReputationRefinesLedger(cfg: Config, actions: seq<Action>)
    ensures Refines(cfg, After(cfg, actions).reputation, LedgerAfter(cfg, actions))
  {
    if actions == [] {
      assert forall a :: GivenBy(EMPTY, a) == [] && ReceivedBy(EMPTY, a) == [];
    } else {
      var init := actions[..|actions| - 1];
      ReputationRefinesLedger(cfg, init);
      NextRefines(cfg, After(cfg, init), LedgerAfter(cfg, init), actions[|actions| - 1]);
    }
  }

  /** Counters equal list lengths, and the cached score is the one a recount would give. */
  lemma CountersAreExact(cfg: Config, actions: seq<Action>, a: AccountId)
    ensures var s := After(cfg, actions).reputation;
      && s.Score(a).endorsementsGiven == |s.Given(a)| <= cfg.maxEndorsements
      && s.Score(a).endorsementsReceived == |s.Received(a)| <= cfg.maxEndorsements
      && s.Score(a).totalScore == CalculateReputationScore(s.Score(a))
      && Rescore(s.Score(a)) == s.Score(a)
  {
    ReputationRefinesLedger(cfg, actions);
    var s, l := After(cfg, actions).reputation, LedgerAfter(cfg, actions);
    assert ScoreAgrees(s.Score(a), l, a);
    ScoreIsExact(s.Score(a), l.issuances[a], l.verifications[a]);
  }

  /** The two states answer every query alike. */
  ghost predicate SameView(s: ReputationState, t: ReputationState) {
    && (forall a :: s.Score(a) == t.Score(a))
    && (forall a :: s.Given(a) == t.Given(a))
    && (forall a :: s.Received(a) == t.Received(a))
    && (forall a, b :: s.HasEndorsed(a, b) == t.HasEndorsed(a, b))
  }

  /** The manual rescore changes nothing anyone can read, in any reachable state. */
  lemma UpdateReputationScoreIsNoOp(cfg: Config, actions: seq<Action>, account: AccountId)
    ensures Step(cfg, After(cfg, actions), Root, ToReputation(UpdateReputationScore(account))).Ok?
    ensures Step(cfg, After(cfg, actions), Root, ToReputation(UpdateReputationScore(account))).value
              .(log := After(cfg, actions).log, reputation := After(cfg, actions).reputation) == After(cfg, actions)
    ensures SameView(Step(cfg, After(cfg, actions), Root, ToReputation(UpdateReputationScore(account))).value.reputation,
                     After(cfg, actions).reputation)
  {
    CountersAreExact(cfg, actions, account);
    var s := After(cfg, actions);
    var t := Step(cfg, s, Root, ToReputation(UpdateReputationScore(account))).value;
    assert t.reputation == s.reputation.(scores := s.reputation.scores[account := s.reputation.Score(account)]);
  }
}
