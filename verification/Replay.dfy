/** Reading the event log alone reconstructs the state an outside observer cares about. */
module Replay {
  import opened Prims
  import opened Frame
  import opened Seqs
  import opened Did
  import opened Credential
  import opened Reputation
  import opened Runtime
  import RL = ReputationLedger

  // ---------- what a reader of events knows about each pallet ----------

  datatype IdentityView = IdentityView(
    active: map<AccountId, bool>,
    verified: map<AccountId, bool>,
    names: map<AccountId, Bytes>)

  datatype CredentialView = CredentialView(
    holder: AccountId,
    issuer: AccountId,
    credentialType: CredentialType,
    credentialHash: Bytes32,
    status: CredentialStatus)

  datatype CredentialsView = CredentialsView(
    stored: map<Bytes32, CredentialView>,
    byHolder: map<AccountId, seq<CredentialReference>>,
    byIssuer: map<AccountId, seq<Bytes32>>,
    byHash: map<Bytes32, Bytes32>,
    issues: nat)
  {
    function HeldBy(a: AccountId): seq<CredentialReference> {
      if a in byHolder then byHolder[a] else []
    }

    function IssuedBy(a: AccountId): seq<Bytes32> {
      if a in byIssuer then byIssuer[a] else []
    }
  }

  /** An endorsement without its comment and time, which events do not carry. */
  datatype EndorsementView = EndorsementView(
    endorser: AccountId,
    endorsee: AccountId,
    endorsementType: EndorsementType,
    weight: U8)

  datatype ReputationView = ReputationView(
    live: seq<EndorsementView>,
    issuances: multiset<AccountId>,
    verifications: multiset<AccountId>)

  function ViewBy(a: AccountId): EndorsementView -> bool {
    (e: EndorsementView) => e.endorser == a
  }

  function ViewTo(b: AccountId): EndorsementView -> bool {
    (e: EndorsementView) => e.endorsee == b
  }

  function ViewOfOther(a: AccountId, b: AccountId): EndorsementView -> bool {
    (e: EndorsementView) => !(e.endorser == a && e.endorsee == b)
  }

  predicate OfDid(e: Event) {
    || e.DidCreated? || e.DidUpdated? || e.DidDeactivated? || e.PublicKeyAdded? || e.PublicKeyRemoved?
    || e.InstitutionRegistered? || e.InstitutionVerified? || e.InstitutionRevoked?
  }

  predicate OfCredential(e: Event) {
    e.CredentialIssued? || e.CredentialRevoked? || e.CredentialVerified? || e.CredentialMetadataUpdated?
  }

  predicate OfReputation(e: Event) {
    !OfDid(e) && !OfCredential(e)
  }

  function ObserveIdentity(v: IdentityView, e: Event): IdentityView {
    match e
    case DidCreated(a) => v.(active := v.active[a := true])
    case DidUpdated(a) => v.(active := v.active[a := true])
    case DidDeactivated(a) => v.(active := v.active[a := false])
    case InstitutionRegistered(a, name) => v.(verified := v.verified[a := false], names := v.names[a := name])
    case InstitutionVerified(a) => v.(verified := v.verified[a := true])
    case InstitutionRevoked(a) => v.(verified := v.verified[a := false])
    case _ => v
  }

  function ObserveCredentials(v: CredentialsView, e: Event): CredentialsView {
    match e
    case CredentialIssued(id, hash, holder, issuer, credentialType) =>
      CredentialsView(
        v.stored[id := CredentialView(holder, issuer, credentialType, hash, Active)],
        v.byHolder[holder := v.HeldBy(holder) + [CredentialReference(id, credentialType)]],
        v.byIssuer[issuer := v.IssuedBy(issuer) + [id]],
        v.byHash[hash := id],
        v.issues + 1)
    case CredentialRevoked(id, _) =>
      if id in v.stored then v.(stored := v.stored[id := v.stored[id].(status := Revoked)]) else v
    case _ => v
  }

  function ObserveReputation(v: ReputationView, e: Event): ReputationView {
    match e
    case EndorsementCreated(a, b, t, weight) => v.(live := v.live + [EndorsementView(a, b, t, weight)])
    case EndorsementRemoved(a, b) => v.(live := Filter(v.live, ViewOfOther(a, b)))
    case CredentialIssuanceRecorded(a) => v.(issuances := v.issuances + multiset{a})
    case CredentialVerificationRecorded(a) => v.(verifications := v.verifications + multiset{a})
    case _ => v
  }

  function ReplayIdentity(log: seq<Event>): IdentityView {
    if log == [] then IdentityView(map[], map[], map[])
    else ObserveIdentity(ReplayIdentity(log[..|log| - 1]), log[|log| - 1])
  }

  function ReplayCredentials(log: seq<Event>): CredentialsView {
    if log == [] then CredentialsView(map[], map[], map[], map[], 0)
    else ObserveCredentials(ReplayCredentials(log[..|log| - 1]), log[|log| - 1])
  }

  function ReplayReputation(log: seq<Event>): ReputationView {
    if log == [] then ReputationView([], multiset{}, multiset{})
    else ObserveReputation(ReplayReputation(log[..|log| - 1]), log[|log| - 1])
  }

  lemma ReplayOne(log: seq<Event>, e: Event)
    ensures ReplayIdentity(log + [e]) == ObserveIdentity(ReplayIdentity(log), e)
    ensures ReplayCredentials(log + [e]) == ObserveCredentials(ReplayCredentials(log), e)
    ensures ReplayReputation(log + [e]) == ObserveReputation(ReplayReputation(log), e)
  {
    assert (log + [e])[..|log|] == log;
  }

  /** Each reader passes over the events of the other pallets. */
  lemma {:induction false} OthersIgnored(log: seq<Event>, events: seq<Event>)
    ensures (forall e :: e in events ==> !OfDid(e)) ==> ReplayIdentity(log + events) == ReplayIdentity(log)
    ensures (forall e :: e in events ==> !OfCredential(e)) ==> ReplayCredentials(log + events) == ReplayCredentials(log)
    ensures (forall e :: e in events ==> !OfReputation(e)) ==> ReplayReputation(log + events) == ReplayReputation(log)
  {
    if events == [] {
      assert log + events == log;
    } else {
      var init, e := events[..|events| - 1], events[|events| - 1];
      OthersIgnored(log, init);
      ReplayOne(log + init, e);
      assert log + init + [e] == log + events;
      assert e in events && forall x :: x in init ==> x in events;
    }
  }

  /** The events an action appends. */
  function Deposited(cfg: Config, s: Storage, a: Action): seq<Event> {
    if a.NextBlock? || !Succeeds(cfg, s, a) then []
    else
      match a.call
      case ToDid(c) => DidStep(cfg, s.block, s.did, a.origin, c).value.events
      case ToCredential(c) => CredentialStep(cfg, s.block, s.did, s.credential, a.origin, c).value.events
      case ToReputation(c) => ReputationStep(cfg, s.block, s.did, s.reputation, a.origin, c).value.events
  }

  lemma LogExtends(cfg: Config, s: Storage, a: Action)
    ensures Next(cfg, s, a).log == s.log + Deposited(cfg, s, a)
  {
  }

  /** A pallet deposits its own events only. */
  lemma OwnEventsOnly(cfg: Config, s: Storage, a: Action, e: Event)
    requires e in Deposited(cfg, s, a)
    ensures a.Call?
    ensures OfDid(e) <==> a.call.ToDid?
    ensures OfCredential(e) <==> a.call.ToCredential?
  {
    match a.call
    case ToDid(c) => DidEvents(cfg, s.block, s.did, a.origin, c);
    case ToCredential(c) => CredentialEvents(cfg, s.block, s.did, s.credential, a.origin, c);
    case ToReputation(c) => ReportsAreOwn(cfg, s.block, s.did, s.reputation, a.origin, c, e);
  }

  lemma ReportsAreOwn(cfg: Config, block: nat, d: DidState, s: ReputationState, origin: Origin, call: ReputationCall,
                      e: Event)
    requires ReputationStep(cfg, block, d, s, origin, call).Ok?
    requires e in ReputationStep(cfg, block, d, s, origin, call).value.events
    ensures OfReputation(e)
  {
    CallReports(cfg, block, d, s, origin, call);
    ReportOrUpdate(origin, call, ReputationStep(cfg, block, d, s, origin, call).value.events, e);
  }

  lemma ReportOrUpdate(origin: Origin, call: ReputationCall, events: seq<Event>, e: Event)
    requires Reports(origin, call, events) && e in events
    ensures OfReputation(e)
  {
    assert e == events[0] || (|events| == 2 && e == events[1]);
  }

  // ---------- the DID pallet ----------

  ghost predicate IdentitySeen(v: IdentityView, d: DidState) {
    && v.active.Keys == d.docs.Keys && (forall a :: a in d.docs ==> v.active[a] == d.docs[a].active)
    && v.verified.Keys == d.institutions.Keys
    && (forall a :: a in d.institutions ==> v.verified[a] == d.institutions[a].verified)
    && v.names.Keys == d.institutions.Keys
    && (forall a :: a in d.institutions ==> v.names[a] == d.institutions[a].name)
  }

  lemma DidEvents(cfg: Config, block: nat, d: DidState, origin: Origin, call: DidCall)
    requires DidStep(cfg, block, d, origin, call).Ok?
    ensures |DidStep(cfg, block, d, origin, call).value.events| == 1
    ensures OfDid(DidStep(cfg, block, d, origin, call).value.events[0])
  {
  }

  lemma DocCallSeen(cfg: Config, v: IdentityView, block: nat, d: DidState, origin: Origin, call: DidCall)
    requires IdentitySeen(v, d) && DidStep(cfg, block, d, origin, call).Ok?
    requires !call.RegisterInstitution? && !call.VerifyInstitution? && !call.RevokeInstitution?
    ensures var r := DidStep(cfg, block, d, origin, call).value;
      |r.events| == 1 && IdentitySeen(ObserveIdentity(v, r.events[0]), r.state)
  {
    var r := DidStep(cfg, block, d, origin, call).value;
    var who := origin.who;
    assert who in r.state.docs && r.state == d.(docs := d.docs[who := r.state.docs[who]]);
    var w := ObserveIdentity(v, r.events[0]);
    assert w == v.(active := w.active);
    assert w.active == v.active[who := r.state.docs[who].active];
  }

  lemma RegisterSeen(cfg: Config, v: IdentityView, block: nat, d: DidState, origin: Origin, call: DidCall)
    requires IdentitySeen(v, d) && call.RegisterInstitution? && DidStep(cfg, block, d, origin, call).Ok?
    ensures var r := DidStep(cfg, block, d, origin, call).value;
      |r.events| == 1 && IdentitySeen(ObserveIdentity(v, r.events[0]), r.state)
  {
  }

  lemma VerificationSeen(cfg: Config, v: IdentityView, block: nat, d: DidState, origin: Origin, call: DidCall)
    requires IdentitySeen(v, d) && (call.VerifyInstitution? || call.RevokeInstitution?)
    requires DidStep(cfg, block, d, origin, call).Ok?
    ensures var r := DidStep(cfg, block, d, origin, call).value;
      |r.events| == 1 && IdentitySeen(ObserveIdentity(v, r.events[0]), r.state)
  {
    var r := DidStep(cfg, block, d, origin, call).value;
    var a := call.institution;
    assert r.state == d.(institutions := d.institutions[a := d.institutions[a].(verified := call.VerifyInstitution?)]);
  }

  lemma DidCallSeen(cfg: Config, v: IdentityView, block: nat, d: DidState, origin: Origin, call: DidCall)
    requires IdentitySeen(v, d) && DidStep(cfg, block, d, origin, call).Ok?
    ensures var r := DidStep(cfg, block, d, origin, call).value;
      |r.events| == 1 && IdentitySeen(ObserveIdentity(v, r.events[0]), r.state)
  {
    if call.RegisterInstitution? {
      RegisterSeen(cfg, v, block, d, origin, call);
    } else if call.VerifyInstitution? || call.RevokeInstitution? {
      VerificationSeen(cfg, v, block, d, origin, call);
    } else {
      DocCallSeen(cfg, v, block, d, origin, call);
    }
  }

  lemma OwnDidCallSeen(cfg: Config, s: Storage, a: Action)
    requires a.Call? && a.call.ToDid? && Succeeds(cfg, s, a)
    requires IdentitySeen(ReplayIdentity(s.log), s.did)
    ensures IdentitySeen(ReplayIdentity(s.log + Deposited(cfg, s, a)), Next(cfg, s, a).did)
  {
    var v, events := ReplayIdentity(s.log), Deposited(cfg, s, a);
    assert |events| == 1 && IdentitySeen(ObserveIdentity(v, events[0]), Next(cfg, s, a).did) by {
      DidCallSeen(cfg, v, s.block, s.did, a.origin, a.call.did);
    }
    assert events == [events[0]];
    ReplayOne(s.log, events[0]);
  }

  lemma NextIdentitySeen(cfg: Config, s: Storage, a: Action)
    requires IdentitySeen(ReplayIdentity(s.log), s.did)
    ensures IdentitySeen(ReplayIdentity(Next(cfg, s, a).log), Next(cfg, s, a).did)
  {
    var events := Deposited(cfg, s, a);
    LogExtends(cfg, s, a);
    if a.Call? && a.call.ToDid? && Succeeds(cfg, s, a) {
      OwnDidCallSeen(cfg, s, a);
    } else {
      forall e | e in events ensures !OfDid(e) {
        OwnEventsOnly(cfg, s, a, e);
      }
      OthersIgnored(s.log, events);
    }
  }

  // ---------- the credential pallet ----------

  function ViewOf(c: Credential): CredentialView {
    CredentialView(c.holder, c.issuer, c.credentialType, c.credentialHash, c.status)
  }

  ghost predicate StoreSeen(stored: map<Bytes32, CredentialView>, credentials: map<Bytes32, Credential>) {
    && stored.Keys == credentials.Keys
    && (forall id :: id in credentials ==> stored[id] == ViewOf(credentials[id]))
  }

  /** Every storage item, up to the metadata and times of a credential and the counter's cap. */
  ghost predicate CredentialsSeen(v: CredentialsView, s: CredentialState) {
    && StoreSeen(v.stored, s.credentials)
    && v.byHolder == s.byHolder && v.byIssuer == s.byIssuer && v.byHash == s.byHash
    && s.nextId == Cap64(v.issues)
  }

  lemma CredentialEvents(cfg: Config, block: nat, d: DidState, s: CredentialState, origin: Origin, call: CredentialCall)
    requires CredentialStep(cfg, block, d, s, origin, call).Ok?
    ensures |CredentialStep(cfg, block, d, s, origin, call).value.events| == 1
    ensures OfCredential(CredentialStep(cfg, block, d, s, origin, call).value.events[0])
  {
  }

  lemma IssueSeen(cfg: Config, v: CredentialsView, block: nat, d: DidState, s: CredentialState, origin: Origin,
                  call: CredentialCall)
    requires CredentialsSeen(v, s) && call.IssueCredential? && CredentialStep(cfg, block, d, s, origin, call).Ok?
    ensures var r := CredentialStep(cfg, block, d, s, origin, call).value;
      |r.events| == 1 && CredentialsSeen(ObserveCredentials(v, r.events[0]), r.state)
  {
    var id := cfg.blake2(Preimage(s.nextId, origin.who, call.holder));
    var r := CredentialStep(cfg, block, d, s, origin, call).value;
    var w := ObserveCredentials(v, r.events[0]);
    assert r.state.credentials == s.credentials[id := r.state.credentials[id]];
    assert w.stored == v.stored[id := ViewOf(r.state.credentials[id])];
    assert v.HeldBy(call.holder) == s.HeldBy(call.holder) && v.IssuedBy(origin.who) == s.IssuedBy(origin.who);
  }

  lemma OtherCredentialCallSeen(cfg: Config, v: CredentialsView, block: nat, d: DidState, s: CredentialState,
                                origin: Origin, call: CredentialCall)
    requires CredentialsSeen(v, s) && !call.IssueCredential? && CredentialStep(cfg, block, d, s, origin, call).Ok?
    ensures var r := CredentialStep(cfg, block, d, s, origin, call).value;
      |r.events| == 1 && CredentialsSeen(ObserveCredentials(v, r.events[0]), r.state)
  {
    match call
    case RevokeCredential(_) =>
    case VerifyCredential(_) =>
    case UpdateCredentialMetadata(_, _) =>
  }

  lemma OwnCredentialCallSeen(cfg: Config, s: Storage, a: Action)
    requires a.Call? && a.call.ToCredential? && Succeeds(cfg, s, a)
    requires CredentialsSeen(ReplayCredentials(s.log), s.credential)
    ensures CredentialsSeen(ReplayCredentials(s.log + Deposited(cfg, s, a)), Next(cfg, s, a).credential)
  {
    var v, events := ReplayCredentials(s.log), Deposited(cfg, s, a);
    assert |events| == 1 && CredentialsSeen(ObserveCredentials(v, events[0]), Next(cfg, s, a).credential) by {
      if a.call.credential.IssueCredential? {
        IssueSeen(cfg, v, s.block, s.did, s.credential, a.origin, a.call.credential);
      } else {
        OtherCredentialCallSeen(cfg, v, s.block, s.did, s.credential, a.origin, a.call.credential);
      }
    }
    assert events == [events[0]];
    ReplayOne(s.log, events[0]);
  }

  lemma NextCredentialsSeen(cfg: Config, s: Storage, a: Action)
    requires CredentialsSeen(ReplayCredentials(s.log), s.credential)
    ensures CredentialsSeen(ReplayCredentials(Next(cfg, s, a).log), Next(cfg, s, a).credential)
  {
    var events := Deposited(cfg, s, a);
    LogExtends(cfg, s, a);
    if a.Call? && a.call.ToCredential? && Succeeds(cfg, s, a) {
      OwnCredentialCallSeen(cfg, s, a);
    } else {
      forall e | e in events ensures !OfCredential(e) {
        OwnEventsOnly(cfg, s, a, e);
      }
      OthersIgnored(s.log, events);
    }
  }

  // ---------- the reputation pallet ----------

  function ViewOfEndorsement(e: Endorsement): EndorsementView {
    EndorsementView(e.endorser, e.endorsee, e.endorsementType, e.weight)
  }

  function ViewsOf(s: seq<Endorsement>): seq<EndorsementView> {
    seq(|s|, i requires 0 <= i < |s| => ViewOfEndorsement(s[i]))
  }

  lemma {:induction false} ViewsFilter(s: seq<Endorsement>, keep: Endorsement -> bool, pick: EndorsementView -> bool)
    requires forall e :: keep(e) == pick(ViewOfEndorsement(e))
    ensures ViewsOf(Filter(s, keep)) == Filter(ViewsOf(s), pick)
  {
    if s != [] {
      var init, x := s[..|s| - 1], s[|s| - 1];
      ViewsFilter(init, keep, pick);
      assert ViewsOf(s) == ViewsOf(init) + [ViewOfEndorsement(x)];
      FilterSnoc(ViewsOf(init), ViewOfEndorsement(x), pick);
      assert ViewsOf(Filter(init, keep) + [x]) == ViewsOf(Filter(init, keep)) + [ViewOfEndorsement(x)];
    }
  }

  ghost predicate LedgerSeen(v: ReputationView, l: RL.Ledger) {
    && v.live == ViewsOf(l.entries)
    && v.issuances == l.issuances && v.verifications == l.verifications
  }

  /** The first event of a successful call. */
  ghost predicate IsReport(origin: Origin, call: ReputationCall, e: Event) {
    match call
    case Endorse(b, t, _, w) => origin.Signed? && e == EndorsementCreated(origin.who, b, t, w)
    case RemoveEndorsement(b) => origin.Signed? && e == EndorsementRemoved(origin.who, b)
    case RecordCredentialIssuance(a) => e == CredentialIssuanceRecorded(a)
    case RecordCredentialVerification => origin.Signed? && e == CredentialVerificationRecorded(origin.who)
    case UpdateReputationScore(_) => e.ReputationUpdated?
  }

  /** One such event, and possibly the score it leads to. */
  ghost predicate Reports(origin: Origin, call: ReputationCall, events: seq<Event>) {
    1 <= |events| <= 2 && IsReport(origin, call, events[0]) && (|events| == 2 ==> events[1].ReputationUpdated?)
  }

  lemma CallReports(cfg: Config, block: nat, d: DidState, s: ReputationState, origin: Origin, call: ReputationCall)
    requires ReputationStep(cfg, block, d, s, origin, call).Ok?
    ensures Reports(origin, call, ReputationStep(cfg, block, d, s, origin, call).value.events)
  {
  }

  lemma ReportReplayed(log: seq<Event>, events: seq<Event>)
    requires 1 <= |events| <= 2 && (|events| == 2 ==> events[1].ReputationUpdated?)
    ensures ReplayReputation(log + events) == ObserveReputation(ReplayReputation(log), events[0])
  {
    var head := log + [events[0]];
    assert ReplayReputation(head) == ObserveReputation(ReplayReputation(log), events[0]) by {
      ReplayOne(log, events[0]);
    }
    if |events| == 1 {
      assert head == log + events;
    } else {
      assert ReplayReputation(head + [events[1]]) == ReplayReputation(head) by {
        ReplayOne(head, events[1]);
      }
      assert head + [events[1]] == log + events;
    }
  }

  lemma ReportSeen(cfg: Config, block: nat, d: DidState, v: ReputationView, l: RL.Ledger, origin: Origin,
                   call: ReputationCall, e: Event)
    requires IsReport(origin, call, e) && LedgerSeen(v, l) && RL.LedgerStep(cfg, block, d, l, origin, call).Ok?
    ensures LedgerSeen(ObserveReputation(v, e), RL.LedgerStep(cfg, block, d, l, origin, call).value)
  {
    match call
    case Endorse(b, t, comment, weight) =>
      var x := Endorsement(origin.who, b, t, comment, block, weight);
      assert ViewsOf(l.entries + [x]) == ViewsOf(l.entries) + [ViewOfEndorsement(x)];
    case RemoveEndorsement(b) =>
      ViewsFilter(l.entries, RL.OtherPair(origin.who, b), ViewOfOther(origin.who, b));
    case _ =>
  }

  lemma NextLedgerSeen(cfg: Config, s: Storage, l: RL.Ledger, a: Action)
    requires RL.Refines(cfg, s.reputation, l) && LedgerSeen(ReplayReputation(s.log), l)
    ensures LedgerSeen(ReplayReputation(Next(cfg, s, a).log), RL.NextLedger(cfg, s, l, a))
  {
    var events := Deposited(cfg, s, a);
    LogExtends(cfg, s, a);
    if a.Call? && a.call.ToReputation? {
      RL.StepRefines(cfg, s.block, s.did, s.reputation, l, a.origin, a.call.reputation);
      if Succeeds(cfg, s, a) {
        CallReports(cfg, s.block, s.did, s.reputation, a.origin, a.call.reputation);
        ReportReplayed(s.log, events);
        ReportSeen(cfg, s.block, s.did, ReplayReputation(s.log), l, a.origin, a.call.reputation, events[0]);
      } else {
        assert s.log + [] == s.log;
      }
    } else {
      forall e | e in events ensures !OfReputation(e) {
        OwnEventsOnly(cfg, s, a, e);
      }
      OthersIgnored(s.log, events);
    }
  }

  // ---------- over runs ----------

  lemma {:induction false} LogIsComplete(cfg: Config, actions: seq<Action>)
    ensures IdentitySeen(ReplayIdentity(After(cfg, actions).log), After(cfg, actions).did)
    ensures CredentialsSeen(ReplayCredentials(After(cfg, actions).log), After(cfg, actions).credential)
    ensures LedgerSeen(ReplayReputation(After(cfg, actions).log), RL.LedgerAfter(cfg, actions))
  {
    if actions != [] {
      var init, a := actions[..|actions| - 1], actions[|actions| - 1];
      LogIsComplete(cfg, init);
      RL.ReputationRefinesLedger(cfg, init);
      var s := After(cfg, init);
      NextIdentitySeen(cfg, s, a);
      NextCredentialsSeen(cfg, s, a);
      NextLedgerSeen(cfg, s, RL.LedgerAfter(cfg, init), a);
    }
  }

  ghost predicate ReputationSeen(v: ReputationView, s: ReputationState) {
    && (forall a :: ViewsOf(s.Given(a)) == Filter(v.live, ViewBy(a)))
    && (forall b :: ViewsOf(s.Received(b)) == Filter(v.live, ViewTo(b)))
    && (forall a, b :: s.HasEndorsed(a, b) <==> exists e :: e in v.live && e.endorser == a && e.endorsee == b)
    && (forall a :: s.Score(a).credentialsIssued == Cap32(v.issuances[a]))
    && (forall a :: s.Score(a).credentialsVerified == Cap32(v.verifications[a]))
  }

  lemma FlagSeen(l: RL.Ledger, a: AccountId, b: AccountId)
    ensures RL.HasPair(l, a, b) <==> exists e :: e in ViewsOf(l.entries) && e.endorser == a && e.endorsee == b
  {
    if RL.HasPair(l, a, b) {
      var i :| 0 <= i < |l.entries| && l.entries[i].endorser == a && l.entries[i].endorsee == b;
      assert ViewsOf(l.entries)[i] in ViewsOf(l.entries);
    }
    if e :| e in ViewsOf(l.entries) && e.endorser == a && e.endorsee == b {
      var i :| 0 <= i < |l.entries| && ViewsOf(l.entries)[i] == e;
      assert l.entries[i].endorser == a;
    }
  }

  lemma LedgerShowsReputation(cfg: Config, v: ReputationView, s: ReputationState, l: RL.Ledger)
    requires LedgerSeen(v, l) && RL.Refines(cfg, s, l)
    ensures ReputationSeen(v, s)
  {
    forall a ensures ViewsOf(s.Given(a)) == Filter(v.live, ViewBy(a)) {
      assert s.Given(a) == RL.GivenBy(l, a);
      ViewsFilter(l.entries, RL.By(a), ViewBy(a));
    }
    forall b ensures ViewsOf(s.Received(b)) == Filter(v.live, ViewTo(b)) {
      assert s.Received(b) == RL.ReceivedBy(l, b);
      ViewsFilter(l.entries, RL.To(b), ViewTo(b));
    }
    forall a, b
      ensures s.HasEndorsed(a, b) <==> exists e :: e in v.live && e.endorser == a && e.endorsee == b
    {
      assert s.HasEndorsed(a, b) <==> RL.HasPair(l, a, b);
      FlagSeen(l, a, b);
    }
    assert forall a :: RL.ScoreAgrees(s.Score(a), l, a);
  }

  /** Replaying the log gives the active and verified flags and institution names; every credential's
      parties, type, hash and status, both credential lists, the hash index and the capped counter;
      both endorsement lists in order but for comments and times, the flags, and both activity
      counters up to the u32 cap. */
  lemma ReplayReconstructs(cfg: Config, actions: seq<Action>)
    ensures IdentitySeen(ReplayIdentity(After(cfg, actions).log), After(cfg, actions).did)
    ensures CredentialsSeen(ReplayCredentials(After(cfg, actions).log), After(cfg, actions).credential)
    ensures ReputationSeen(ReplayReputation(After(cfg, actions).log), After(cfg, actions).reputation)
  {
    LogIsComplete(cfg, actions);
    RL.ReputationRefinesLedger(cfg, actions);
    var s := After(cfg, actions);
    LedgerShowsReputation(cfg, ReplayReputation(s.log), s.reputation, RL.LedgerAfter(cfg, actions));
  }

  // ---------- the published score, from events alone ----------

  /** Over unbounded event counts: 10 per recorded issuance, 5 per recorded verification and 20
      per live endorsement, capped at 1000. */
  function FoldedScore(log: seq<Event>, a: AccountId): nat {
    var v := ReplayReputation(log);
    Min(10 * v.issuances[a] + 5 * v.verifications[a] + 20 * |Filter(v.live, ViewTo(a))|, 1000)
  }

  /** The stored score is the folded one, even after counters saturate. */
  lemma ScoreFromEvents(cfg: Config, actions: seq<Action>, a: AccountId)
    ensures After(cfg, actions).reputation.Score(a).totalScore == FoldedScore(After(cfg, actions).log, a)
  {
    LogIsComplete(cfg, actions);
    RL.ReputationRefinesLedger(cfg, actions);
    var s, l := After(cfg, actions), RL.LedgerAfter(cfg, actions);
    assert RL.ScoreAgrees(s.reputation.Score(a), l, a);
    ViewsFilter(l.entries, RL.To(a), ViewTo(a));
    assert |ViewsOf(RL.ReceivedBy(l, a))| == |RL.ReceivedBy(l, a)|;
  }

  /** A call reports a score last, and reports the one it stores. */
  lemma ScoreIsReportedLast(cfg: Config, block: nat, d: DidState, s: ReputationState, origin: Origin,
                            call: ReputationCall, i: nat)
    requires ReputationStep(cfg, block, d, s, origin, call).Ok?
    requires i < |ReputationStep(cfg, block, d, s, origin, call).value.events|
    requires ReputationStep(cfg, block, d, s, origin, call).value.events[i].ReputationUpdated?
    ensures var r := ReputationStep(cfg, block, d, s, origin, call).value;
      i == |r.events| - 1 && r.events[i].newScore == r.state.Score(r.events[i].account).totalScore
  {
  }

  ghost predicate ReportsScore(events: seq<Event>, s: ReputationState) {
    forall i :: 0 <= i < |events| && events[i].ReputationUpdated? ==>
      i == |events| - 1 && events[i].newScore == s.Score(events[i].account).totalScore
  }

  lemma DepositedReports(cfg: Config, s: Storage, a: Action)
    ensures ReportsScore(Deposited(cfg, s, a), Next(cfg, s, a).reputation)
  {
    var events := Deposited(cfg, s, a);
    forall i | 0 <= i < |events| && events[i].ReputationUpdated?
      ensures i == |events| - 1
      ensures events[i].newScore == Next(cfg, s, a).reputation.Score(events[i].account).totalScore
    {
      OwnEventsOnly(cfg, s, a, events[i]);
      ScoreIsReportedLast(cfg, s.block, s.did, s.reputation, a.origin, a.call.reputation, i);
    }
  }

  /** A score update adds nothing to the folded score. */
  lemma JustPublished(t: Storage, before: seq<Event>, events: seq<Event>, k: nat)
    requires t.log == before + events && ReportsScore(events, t.reputation)
    requires |before| <= k < |t.log| && t.log[k].ReputationUpdated?
    requires t.reputation.Score(t.log[k].account).totalScore == FoldedScore(t.log, t.log[k].account)
    ensures t.log[k].newScore == FoldedScore(t.log[..k], t.log[k].account)
  {
    assert t.log[k] == events[k - |before|];
    assert ReplayReputation(t.log) == ReplayReputation(t.log[..k]);
  }

  /** Every score the chain ever published is the one folded from the events before it. */
  lemma {:induction false} PublishedScores(cfg: Config, actions: seq<Action>, k: nat)
    requires k < |After(cfg, actions).log| && After(cfg, actions).log[k].ReputationUpdated?
    ensures After(cfg, actions).log[k].newScore
            == FoldedScore(After(cfg, actions).log[..k], After(cfg, actions).log[k].account)
    decreases |actions|
  {
    var init, a := actions[..|actions| - 1], actions[|actions| - 1];
    var s, t := After(cfg, init), After(cfg, actions);
    LogExtends(cfg, s, a);
    if k < |s.log| {
      PublishedScores(cfg, init, k);
      assert s.log[..k] == t.log[..k];
    } else {
      DepositedReports(cfg, s, a);
      ScoreFromEvents(cfg, actions, t.log[k].account);
      JustPublished(t, s.log, Deposited(cfg, s, a), k);
    }
  }
}
