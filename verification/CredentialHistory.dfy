/** The credential pallet as a reading of the accepted calls: the bytes hashed for each id, every
    field of every stored credential, which calls are refused and why, and what is announced. */
module CredentialHistory {
  import opened Prims
  import opened Frame
  import opened Seqs
  import opened Did
  import opened Credential
  import opened Runtime
  import opened CredentialLedger
  import opened History
  import opened IdentityHistory

  // ---------- the issues of a history ----------

  predicate IsIssue(e: Entry) {
    e.origin.Signed? && e.call.ToCredential? && e.call.credential.IssueCredential?
  }

  function Issues(): Entry -> bool {
    (e: Entry) => IsIssue(e)
  }

  function IssuesTo(x: AccountId): Entry -> bool {
    (e: Entry) => IsIssue(e) && e.call.credential.holder == x
  }

  function IssuesFrom(x: AccountId): Entry -> bool {
    (e: Entry) => IsIssue(e) && e.origin.who == x
  }

  /** The hash of 8 bytes that spell the capped number of earlier issues, the 32 bytes of the issuer
      and the 32 bytes of the holder. */
  ghost function IdFor(cfg: Config, n: nat, issuer: AccountId, holder: AccountId): Bytes32 {
    cfg.blake2(Spelled(Min(n, U64_MAX), 8) + Spelled(issuer as int, 32) + Spelled(holder as int, 32))
  }

  lemma IdForIs(cfg: Config, n: nat, issuer: AccountId, holder: AccountId)
    ensures IdFor(cfg, n, issuer, holder) == IdAt(cfg, n, issuer, holder)
  {
    LeBound();
    SpelledIs(Min(n, U64_MAX), 8);
    SpelledIs(issuer as int, 32);
    SpelledIs(holder as int, 32);
  }

  /** The id an issue draws after n others. */
  ghost function Drawn(cfg: Config, n: nat, e: Entry): Bytes32
    requires IsIssue(e)
  {
    IdFor(cfg, n, e.origin.who, e.call.credential.holder)
  }

  ghost predicate Draws(cfg: Config, h: seq<Entry>, e: Entry, id: Bytes32) {
    IsIssue(e) && Drawn(cfg, Count(h, Issues()), e) == id
  }

  /** The last issue that drew id. */
  ghost function IssueOf(cfg: Config, h: seq<Entry>, id: Bytes32): (r: Option<Entry>)
    ensures r.Some? ==> IsIssue(r.value)
  {
    if h == [] then None
    else if Draws(cfg, h[..|h| - 1], h[|h| - 1], id) then Some(h[|h| - 1])
    else IssueOf(cfg, h[..|h| - 1], id)
  }

  /** The argument of the last update of id since its last issue, or else of that issue. */
  ghost function MetadataIn(cfg: Config, h: seq<Entry>, id: Bytes32): Bytes {
    if h == [] then []
    else
      var init, e := h[..|h| - 1], h[|h| - 1];
      if Draws(cfg, init, e, id) then e.call.credential.metadata
      else
        match e.call
        case ToCredential(UpdateCredentialMetadata(i, metadata)) =>
          if i == id then metadata else MetadataIn(cfg, init, id)
        case _ => MetadataIn(cfg, init, id)
  }

  /** Whether id was revoked since its last issue. */
  ghost predicate RevokedIn(cfg: Config, h: seq<Entry>, id: Bytes32) {
    if h == [] then false
    else
      var init, e := h[..|h| - 1], h[|h| - 1];
      !Draws(cfg, init, e, id) && (e.call == ToCredential(RevokeCredential(id)) || RevokedIn(cfg, init, id))
  }

  /** The id drawn by the issue with this hash. */
  ghost function IdOfHash(cfg: Config, h: seq<Entry>, hash: Bytes32): Option<Bytes32> {
    if h == [] then None
    else
      var init, e := h[..|h| - 1], h[|h| - 1];
      if IsIssue(e) && e.call.credential.credentialHash == hash then Some(Drawn(cfg, Count(init, Issues()), e))
      else IdOfHash(cfg, init, hash)
  }

  // ---------- the storage that the history leaves ----------

  /** The credential that an issue makes, with the metadata and status it has come to. */
  function MadeBy(e: Entry, id: Bytes32, metadata: Bytes, status: CredentialStatus): Credential
    requires IsIssue(e)
  {
    var c := e.call.credential;
    Credential(id, c.credentialHash, c.holder, e.origin.who, c.credentialType, metadata, e.block, c.expiresAt, status)
  }

  ghost predicate StoredFollows(cfg: Config, h: seq<Entry>, id: Bytes32, c: Option<Credential>) {
    match IssueOf(cfg, h, id)
    case None => c == None
    case Some(e) => c == Some(MadeBy(e, id, MetadataIn(cfg, h, id), if RevokedIn(cfg, h, id) then Revoked else Active))
  }

  ghost predicate StoreFollows(cfg: Config, h: seq<Entry>, credentials: map<Bytes32, Credential>) {
    forall id :: StoredFollows(cfg, h, id, Get(credentials, id))
  }

  ghost predicate EntryFollows(cfg: Config, k: nat, e: Entry, c: Credential) {
    IsIssue(e) && c == MadeBy(e, Drawn(cfg, k, e), e.call.credential.metadata, Active)
  }

  /** Entry k of the ledger is the k-th issue, under the id it draws. */
  ghost predicate EntriesFollow(cfg: Config, h: seq<Entry>, l: Ledger) {
    var issues := Filter(h, Issues());
    && |issues| == |l|
    && forall k :: 0 <= k < |l| ==> EntryFollows(cfg, k, issues[k], l[k])
  }

  ghost predicate IndexesFollow(cfg: Config, h: seq<Entry>, l: Ledger) {
    && (forall x :: Count(h, IssuesTo(x)) == |HolderRefs(l, x)|)
    && (forall x :: Count(h, IssuesFrom(x)) == |IssuerIds(l, x)|)
    && (forall hash :: IdOfHash(cfg, h, hash) == Get(HashIndex(l), hash))
  }

  /** Storage s with its ledger l is what the history leaves. */
  ghost predicate CredentialsFollow(cfg: Config, h: seq<Entry>, s: CredentialState, l: Ledger) {
    && Refines(cfg, s, l) && EntriesFollow(cfg, h, l) && IndexesFollow(cfg, h, l)
    && StoreFollows(cfg, h, s.credentials)
  }

  // ---------- refusals and announcements ----------

  /** Why the call is refused after history h, if it is; the first failing test decides. */
  ghost function CredentialRefusal(cfg: Config, h: seq<Entry>, block: nat, origin: Origin,
                                   call: CredentialCall): Option<DispatchError> {
    if !origin.Signed? then Some(BadOrigin)
    else
      var x := origin.who;
      match call
      case IssueCredential(holder, hash, _, _, _) =>
        if !VerifiedIn(h, x) then Some(CredentialFailed(IssuerNotVerified))
        else if !Enrolled(h, x) then Some(CredentialFailed(IssuerHasNoDid))
        else if !ActiveIn(h, x) then Some(CredentialFailed(CredentialError.DidNotActive))
        else if !Enrolled(h, holder) then Some(CredentialFailed(HolderHasNoDid))
        else if !ActiveIn(h, holder) then Some(CredentialFailed(CredentialError.DidNotActive))
        else if IdOfHash(cfg, h, hash).Some? then Some(CredentialFailed(CredentialAlreadyExists))
        else if Count(h, IssuesTo(holder)) >= cfg.maxCredentialsPerHolder
             || Count(h, IssuesFrom(x)) >= cfg.maxCredentialsPerHolder
          then Some(CredentialFailed(TooManyCredentials))
        else None
      case VerifyCredential(hash) =>
        (match IdOfHash(cfg, h, hash)
         case None => Some(CredentialFailed(CredentialNotFound))
         case Some(id) =>
           if IssueOf(cfg, h, id).None? then Some(CredentialFailed(CredentialNotFound))
           else if RevokedIn(cfg, h, id) then Some(CredentialFailed(CredentialNotActive))
           else
             match IssueOf(cfg, h, id).value.call.credential.expiresAt
             case Some(last) => if block > last then Some(CredentialFailed(CredentialExpired)) else None
             case None => None)
      case RevokeCredential(id) =>
        (match IssueOf(cfg, h, id)
         case None => Some(CredentialFailed(CredentialNotFound))
         case Some(e) =>
           if e.origin != Signed(x) then Some(CredentialFailed(CredentialError.NotAuthorized))
           else if RevokedIn(cfg, h, id) then Some(CredentialFailed(CredentialAlreadyRevoked))
           else None)
      case UpdateCredentialMetadata(id, _) =>
        (match IssueOf(cfg, h, id)
         case None => Some(CredentialFailed(CredentialNotFound))
         case Some(e) =>
           if e.origin != Signed(x) then Some(CredentialFailed(CredentialError.NotAuthorized))
           else if RevokedIn(cfg, h, id) then Some(CredentialFailed(CredentialNotActive))
           else None)
  }

  /** What an accepted call announces. */
  ghost function CredentialAnnounces(cfg: Config, h: seq<Entry>, origin: Origin, call: CredentialCall): seq<Event> {
    if !origin.Signed? then []
    else
      var x := origin.who;
      match call
      case IssueCredential(holder, hash, t, _, _) =>
        [CredentialIssued(IdFor(cfg, Count(h, Issues()), x, holder), hash, holder, x, t)]
      case RevokeCredential(id) => [CredentialRevoked(id, x)]
      case VerifyCredential(hash) =>
        (match IdOfHash(cfg, h, hash) case Some(id) => [CredentialVerified(id, x)] case None => [])
      case UpdateCredentialMetadata(id, _) => [CredentialMetadataUpdated(id)]
  }

  // ---------- one call ----------

  lemma IdentitiesRead(cfg: Config, h: seq<Entry>, d: DidState, x: AccountId)
    requires DidFollows(cfg, h, d)
    ensures VerifiedIn(h, x) == IsVerified(d, x) && ActiveIn(h, x) == IsActive(d, x)
    ensures Enrolled(h, x) == (x in d.docs)
  {
    assert DocFollows(cfg, h, x, Get(d.docs, x)) && InstitutionFollows(h, x, Get(d.institutions, x));
  }

  lemma IssueRefused(cfg: Config, h: seq<Entry>, block: nat, d: DidState, s: CredentialState, l: Ledger,
                     origin: Origin, call: CredentialCall)
    requires DidFollows(cfg, h, d) && CredentialsFollow(cfg, h, s, l) && call.IssueCredential?
    ensures var r := CredentialStep(cfg, block, d, s, origin, call);
      CredentialRefusal(cfg, h, block, origin, call) == if r.Ok? then None else Some(r.error)
  {
    if origin.Signed? {
      IdentitiesRead(cfg, h, d, origin.who);
      IdentitiesRead(cfg, h, d, call.holder);
      assert IdOfHash(cfg, h, call.credentialHash) == Get(s.byHash, call.credentialHash);
      assert Count(h, IssuesTo(call.holder)) == |s.HeldBy(call.holder)|;
      assert Count(h, IssuesFrom(origin.who)) == |s.IssuedBy(origin.who)|;
    }
  }

  lemma VerifyRefused(cfg: Config, h: seq<Entry>, block: nat, d: DidState, s: CredentialState, l: Ledger,
                      origin: Origin, hash: Bytes32)
    requires CredentialsFollow(cfg, h, s, l)
    ensures var r := CredentialStep(cfg, block, d, s, origin, VerifyCredential(hash));
      CredentialRefusal(cfg, h, block, origin, VerifyCredential(hash)) == if r.Ok? then None else Some(r.error)
  {
    assert IdOfHash(cfg, h, hash) == Get(s.byHash, hash);
    if hash in s.byHash {
      assert StoredFollows(cfg, h, s.byHash[hash], Get(s.credentials, s.byHash[hash]));
    }
  }

  lemma CredentialRefused(cfg: Config, h: seq<Entry>, block: nat, d: DidState, s: CredentialState, l: Ledger,
                          origin: Origin, call: CredentialCall)
    requires DidFollows(cfg, h, d) && CredentialsFollow(cfg, h, s, l)
    ensures var r := CredentialStep(cfg, block, d, s, origin, call);
      CredentialRefusal(cfg, h, block, origin, call) == if r.Ok? then None else Some(r.error)
  {
    match call
    case IssueCredential(_, _, _, _, _) => IssueRefused(cfg, h, block, d, s, l, origin, call);
    case VerifyCredential(hash) => VerifyRefused(cfg, h, block, d, s, l, origin, hash);
    case RevokeCredential(id) => assert StoredFollows(cfg, h, id, Get(s.credentials, id));
    case UpdateCredentialMetadata(id, _) => assert StoredFollows(cfg, h, id, Get(s.credentials, id));
  }

  lemma AnnouncedAsDone(cfg: Config, h: seq<Entry>, block: nat, d: DidState, s: CredentialState, l: Ledger,
                        origin: Origin, call: CredentialCall)
    requires CredentialsFollow(cfg, h, s, l) && CredentialStep(cfg, block, d, s, origin, call).Ok?
    ensures CredentialStep(cfg, block, d, s, origin, call).value.events == CredentialAnnounces(cfg, h, origin, call)
  {
    match call
    case IssueCredential(holder, _, _, _, _) => IdForIs(cfg, |l|, origin.who, holder);
    case VerifyCredential(hash) => assert IdOfHash(cfg, h, hash) == Get(s.byHash, hash);
    case _ =>
  }

  /** An entry that issues nothing leaves every id with its issue, and all lists. */
  lemma NoIssue(cfg: Config, h: seq<Entry>, e: Entry, l: Ledger)
    requires !IsIssue(e) && EntriesFollow(cfg, h, l) && IndexesFollow(cfg, h, l)
    ensures EntriesFollow(cfg, h + [e], l) && IndexesFollow(cfg, h + [e], l)
    ensures forall id :: IssueOf(cfg, h + [e], id) == IssueOf(cfg, h, id)
  {
    assert (h + [e])[..|h|] == h;
    FilterSnoc(h, e, Issues());
    forall x ensures Count(h + [e], IssuesTo(x)) == Count(h, IssuesTo(x)) {
      LastSnoc(h, e, IssuesTo(x));
    }
    forall x ensures Count(h + [e], IssuesFrom(x)) == Count(h, IssuesFrom(x)) {
      LastSnoc(h, e, IssuesFrom(x));
    }
    forall hash ensures IdOfHash(cfg, h + [e], hash) == IdOfHash(cfg, h, hash) {
    }
  }

  lemma StoredUntouched(cfg: Config, h: seq<Entry>, e: Entry, id: Bytes32, c: Option<Credential>)
    requires StoredFollows(cfg, h, id, c) && !Draws(cfg, h, e, id)
    requires !(e.call.ToCredential? && e.call.credential == RevokeCredential(id))
    requires !(e.call.ToCredential? && e.call.credential.UpdateCredentialMetadata?
               && e.call.credential.credentialId == id)
    ensures StoredFollows(cfg, h + [e], id, c)
  {
    assert (h + [e])[..|h|] == h;
  }

  /** Calls of the other pallets leave the credentials of the history. */
  lemma CredentialsUntouched(cfg: Config, h: seq<Entry>, e: Entry, s: CredentialState, l: Ledger)
    requires CredentialsFollow(cfg, h, s, l) && !e.call.ToCredential?
    ensures CredentialsFollow(cfg, h + [e], s, l)
  {
    NoIssue(cfg, h, e, l);
    forall id ensures StoredFollows(cfg, h + [e], id, Get(s.credentials, id)) {
      StoredUntouched(cfg, h, e, id, Get(s.credentials, id));
    }
  }

  lemma EntriesAppend(cfg: Config, h: seq<Entry>, e: Entry, l: Ledger, c: Credential)
    requires EntriesFollow(cfg, h, l) && EntryFollows(cfg, |l|, e, c)
    ensures EntriesFollow(cfg, h + [e], l + [c])
  {
    var issues, m := Filter(h, Issues()), l + [c];
    assert Filter(h + [e], Issues()) == issues + [e] by {
      FilterSnoc(h, e, Issues());
    }
    forall k | 0 <= k < |m| ensures EntryFollows(cfg, k, (issues + [e])[k], m[k]) {
      if k < |l| {
        assert EntryFollows(cfg, k, issues[k], l[k]);
      }
    }
  }

  lemma CountsAppend(h: seq<Entry>, e: Entry, l: Ledger, c: Credential, x: AccountId)
    requires IsIssue(e) && c.holder == e.call.credential.holder && c.issuer == e.origin.who
    requires Count(h, IssuesTo(x)) == |HolderRefs(l, x)| && Count(h, IssuesFrom(x)) == |IssuerIds(l, x)|
    ensures Count(h + [e], IssuesTo(x)) == |HolderRefs(l + [c], x)|
    ensures Count(h + [e], IssuesFrom(x)) == |IssuerIds(l + [c], x)|
  {
    LastSnoc(h, e, IssuesTo(x));
    LastSnoc(h, e, IssuesFrom(x));
    AppendProjects(l, c);
  }

  lemma IndexesAppend(cfg: Config, h: seq<Entry>, e: Entry, l: Ledger)
    requires IsIssue(e) && Count(h, Issues()) == |l| && IndexesFollow(cfg, h, l)
    ensures IndexesFollow(cfg, h + [e], l + [MadeBy(e, Drawn(cfg, |l|, e), e.call.credential.metadata, Active)])
  {
    var c := MadeBy(e, Drawn(cfg, |l|, e), e.call.credential.metadata, Active);
    forall x
      ensures Count(h + [e], IssuesTo(x)) == |HolderRefs(l + [c], x)|
      ensures Count(h + [e], IssuesFrom(x)) == |IssuerIds(l + [c], x)|
    {
      CountsAppend(h, e, l, c, x);
    }
    assert (h + [e])[..|h|] == h;
    assert HashIndex(l + [c]) == HashIndex(l)[c.credentialHash := c.credentialId] by {
      AppendProjects(l, c);
    }
    forall hash ensures IdOfHash(cfg, h + [e], hash) == Get(HashIndex(l + [c]), hash) {
      assert IdOfHash(cfg, h, hash) == Get(HashIndex(l), hash);
    }
  }

  lemma StoredAppend(cfg: Config, h: seq<Entry>, e: Entry, id: Bytes32)
    requires Draws(cfg, h, e, id)
    ensures StoredFollows(cfg, h + [e], id, Some(MadeBy(e, id, e.call.credential.metadata, Active)))
  {
    assert (h + [e])[..|h|] == h;
  }

  /** The new credential is the entry's, under the id that the history draws. */
  lemma IssueFollows(cfg: Config, h: seq<Entry>, block: nat, d: DidState, s: CredentialState, l: Ledger,
                     origin: Origin, call: CredentialCall)
    requires CredentialsFollow(cfg, h, s, l) && call.IssueCredential?
    requires CredentialStep(cfg, block, d, s, origin, call).Ok?
    ensures LedgerIssue(cfg, block, d, l, origin, call).Ok?
    ensures CredentialsFollow(cfg, h + [Entry(block, origin, ToCredential(call))],
                              CredentialStep(cfg, block, d, s, origin, call).value.state,
                              l + [LedgerIssue(cfg, block, d, l, origin, call).value])
  {
    IssueRefines(cfg, block, d, s, l, origin, call);
    var e, t := Entry(block, origin, ToCredential(call)), CredentialStep(cfg, block, d, s, origin, call).value.state;
    var c := MadeBy(e, Drawn(cfg, |l|, e), call.metadata, Active);
    IdForIs(cfg, |l|, origin.who, call.holder);
    assert LedgerIssue(cfg, block, d, l, origin, call) == Ok(c);
    EntriesAppend(cfg, h, e, l, c);
    IndexesAppend(cfg, h, e, l);
    assert t.credentials == s.credentials[c.credentialId := c];
    StoreAppend(cfg, h, e, s.credentials, c.credentialId);
  }

  lemma StoreAppend(cfg: Config, h: seq<Entry>, e: Entry, credentials: map<Bytes32, Credential>, id: Bytes32)
    requires StoreFollows(cfg, h, credentials) && Draws(cfg, h, e, id)
    ensures StoreFollows(cfg, h + [e], credentials[id := MadeBy(e, id, e.call.credential.metadata, Active)])
  {
    var after := credentials[id := MadeBy(e, id, e.call.credential.metadata, Active)];
    forall i ensures StoredFollows(cfg, h + [e], i, Get(after, i)) {
      if i == id {
        StoredAppend(cfg, h, e, id);
      } else {
        StoredUntouched(cfg, h, e, i, Get(credentials, i));
      }
    }
  }

  /** The one credential that another call changes is what the longer history says. */
  lemma ChangeFollows(cfg: Config, h: seq<Entry>, block: nat, d: DidState, s: CredentialState, origin: Origin,
                      call: CredentialCall)
    requires call.RevokeCredential? || call.UpdateCredentialMetadata?
    requires CredentialStep(cfg, block, d, s, origin, call).Ok?
    requires StoredFollows(cfg, h, call.credentialId, Get(s.credentials, call.credentialId))
    ensures StoredFollows(cfg, h + [Entry(block, origin, ToCredential(call))], call.credentialId,
                          Get(CredentialStep(cfg, block, d, s, origin, call).value.state.credentials, call.credentialId))
  {
    var e := Entry(block, origin, ToCredential(call));
    assert (h + [e])[..|h|] == h;
    assert !IsIssue(e);
  }

  lemma OtherCallFollows(cfg: Config, h: seq<Entry>, block: nat, d: DidState, s: CredentialState, l: Ledger,
                         origin: Origin, call: CredentialCall)
    requires CredentialsFollow(cfg, h, s, l) && !call.IssueCredential?
    requires CredentialStep(cfg, block, d, s, origin, call).Ok?
    ensures CredentialsFollow(cfg, h + [Entry(block, origin, ToCredential(call))],
                              CredentialStep(cfg, block, d, s, origin, call).value.state, l)
  {
    var e, t := Entry(block, origin, ToCredential(call)), CredentialStep(cfg, block, d, s, origin, call).value.state;
    OthersRefine(cfg, block, d, s, l, origin, call);
    OthersReplaceOne(cfg, block, d, s, origin, call);
    NoIssue(cfg, h, e, l);
    forall id ensures StoredFollows(cfg, h + [e], id, Get(t.credentials, id)) {
      assert StoredFollows(cfg, h, id, Get(s.credentials, id));
      if !call.VerifyCredential? && id == call.credentialId {
        ChangeFollows(cfg, h, block, d, s, origin, call);
      } else {
        StoredUntouched(cfg, h, e, id, Get(t.credentials, id));
      }
    }
  }

  function LedgerWith(cfg: Config, block: nat, d: DidState, l: Ledger, origin: Origin, call: CredentialCall): Ledger {
    if call.IssueCredential? && LedgerIssue(cfg, block, d, l, origin, call).Ok?
    then l + [LedgerIssue(cfg, block, d, l, origin, call).value]
    else l
  }

  /** The call ends as the history says: refused for its reason, or accepted with its announcement. */
  ghost predicate CredentialCallFollows(cfg: Config, h: seq<Entry>, block: nat, d: DidState, s: CredentialState,
                                        l: Ledger, origin: Origin, call: CredentialCall) {
    match CredentialStep(cfg, block, d, s, origin, call)
    case Err(error) => CredentialRefusal(cfg, h, block, origin, call) == Some(error)
    case Ok(r) =>
      && CredentialRefusal(cfg, h, block, origin, call) == None && r.events == CredentialAnnounces(cfg, h, origin, call)
      && CredentialsFollow(cfg, h + [Entry(block, origin, ToCredential(call))], r.state,
                           LedgerWith(cfg, block, d, l, origin, call))
  }

  /** One credential call on storage that follows the history. */
  lemma CredentialCallStepFollows(cfg: Config, h: seq<Entry>, block: nat, d: DidState, s: CredentialState, l: Ledger,
                                  origin: Origin, call: CredentialCall)
    requires DidFollows(cfg, h, d) && CredentialsFollow(cfg, h, s, l)
    ensures CredentialCallFollows(cfg, h, block, d, s, l, origin, call)
  {
    CredentialRefused(cfg, h, block, d, s, l, origin, call);
    if CredentialStep(cfg, block, d, s, origin, call).Ok? {
      AnnouncedAsDone(cfg, h, block, d, s, l, origin, call);
      if call.IssueCredential? {
        IssueFollows(cfg, h, block, d, s, l, origin, call);
      } else {
        OtherCallFollows(cfg, h, block, d, s, l, origin, call);
      }
    }
  }
}
