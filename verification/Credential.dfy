/** The credential pallet: issuing, revoking, verifying and updating credentials, and the
    five storage items that have to agree. */
module Credential {
  import opened Prims
  import opened Frame
  import opened Did

  datatype CredentialStatus = Active | Revoked | Expired

  datatype Credential = Credential(
    credentialId: Bytes32,
    credentialHash: Bytes32,
    holder: AccountId,
    issuer: AccountId,
    credentialType: CredentialType,
    metadata: Bytes,
    issuedAt: nat,
    expiresAt: Option<nat>,
    status: CredentialStatus)

  datatype CredentialReference = CredentialReference(credentialId: Bytes32, credentialType: CredentialType)

  /** The pallet's storage as a value; absent list entries read as empty. */
  datatype CredentialState = CredentialState(
    credentials: map<Bytes32, Credential>,
    byHolder: map<AccountId, seq<CredentialReference>>,
    byIssuer: map<AccountId, seq<Bytes32>>,
    byHash: map<Bytes32, Bytes32>,
    nextId: U64)
  {
    function HeldBy(a: AccountId): seq<CredentialReference> {
      if a in byHolder then byHolder[a] else []
    }

    function IssuedBy(a: AccountId): seq<Bytes32> {
      if a in byIssuer then byIssuer[a] else []
    }
  }

  datatype CredentialCall =
    | IssueCredential(holder: AccountId, credentialHash: Bytes32, credentialType: CredentialType,
                      metadata: Bytes, expiresAt: Option<nat>)
    | RevokeCredential(credentialId: Bytes32)
    | VerifyCredential(credentialHash: Bytes32)
    | UpdateCredentialMetadata(credentialId: Bytes32, newMetadata: Bytes)

  /** The buffer whose hash becomes a credential id. */
  function Preimage(counter: U64, issuer: AccountId, holder: AccountId): Bytes {
    ToLe(counter, 8) + Encode32(issuer as int) + Encode32(holder as int)
  }

  /** What the buffer has to be: 8 bytes that spell the counter, then the 32 bytes of the issuer, then
      those of the holder. */
  predicate IsBuffer(b: Bytes, counter: nat, issuer: AccountId, holder: AccountId) {
    && |b| == 72 && FromLe(b[..8]) == counter
    && FromLe(b[8..40]) == issuer as int && FromLe(b[40..]) == holder as int
  }

  lemma PreimageIsBuffer(counter: U64, issuer: AccountId, holder: AccountId)
    ensures IsBuffer(Preimage(counter, issuer, holder), counter, issuer, holder)
  {
    var b := Preimage(counter, issuer, holder);
    assert b[..8] == ToLe(counter, 8);
    assert b[8..40] == Encode32(issuer as int);
    assert b[40..] == Encode32(holder as int);
    LeBound();
    LeRoundTrip(counter, 8);
    LeRoundTrip(issuer as int, 32);
    LeRoundTrip(holder as int, 32);
  }

  /** The identity checks of issuing, in their order. */
  function CheckParties(d: DidState, issuer: AccountId, holder: AccountId): Guard {
    if !IsVerified(d, issuer) then Fail(CredentialFailed(IssuerNotVerified))
    else if issuer !in d.docs then Fail(CredentialFailed(IssuerHasNoDid))
    else if !d.docs[issuer].active then Fail(CredentialFailed(CredentialError.DidNotActive))
    else if holder !in d.docs then Fail(CredentialFailed(HolderHasNoDid))
    else Ensure(d.docs[holder].active, CredentialFailed(CredentialError.DidNotActive))
  }

  predicate PastExpiry(c: Credential, block: nat) {
    c.expiresAt.Some? && c.expiresAt.value < block
  }

  /** The writes of issuing, made only if both lists have room. */
  function CommitStep(cfg: Config, block: nat, s: CredentialState, issuer: AccountId, holder: AccountId, hash: Bytes32,
                      credentialType: CredentialType, metadata: Bytes, expiresAt: Option<nat>)
    : Outcome<Effect<CredentialState>>
  {
    var bound := cfg.maxCredentialsPerHolder;
    :- Ensure(|s.HeldBy(holder)| < bound && |s.IssuedBy(issuer)| < bound, CredentialFailed(TooManyCredentials));
    var id := cfg.blake2(Preimage(s.nextId, issuer, holder));
    Ok(Effect(
         CredentialState(
           s.credentials[id := Credential(id, hash, holder, issuer, credentialType, metadata, block, expiresAt, Active)],
           s.byHolder[holder := s.HeldBy(holder) + [CredentialReference(id, credentialType)]],
           s.byIssuer[issuer := s.IssuedBy(issuer) + [id]],
           s.byHash[hash := id],
           SatAdd64(s.nextId, 1)),
         [CredentialIssued(id, hash, holder, issuer, credentialType)]))
  }

  /** Issuing when it is atomic: every check first, then every write. */
  function IssueStep(cfg: Config, block: nat, d: DidState, s: CredentialState, origin: Origin, holder: AccountId,
                     hash: Bytes32, credentialType: CredentialType, metadata: Bytes, expiresAt: Option<nat>)
    : Outcome<Effect<CredentialState>>
  {
    var issuer :- EnsureSigned(origin);
    :- CheckParties(d, issuer, holder);
    :- Ensure(hash !in s.byHash, CredentialFailed(CredentialAlreadyExists));
    CommitStep(cfg, block, s, issuer, holder, hash, credentialType, metadata, expiresAt)
  }

  /** What each call does, as a function of the storage it finds. */
  function CredentialStep(cfg: Config, block: nat, d: DidState, s: CredentialState, origin: Origin,
                          call: CredentialCall)
    : Outcome<Effect<CredentialState>>
  {
    match call
    case IssueCredential(holder, hash, credentialType, metadata, expiresAt) =>
      IssueStep(cfg, block, d, s, origin, holder, hash, credentialType, metadata, expiresAt)
    case RevokeCredential(id) =>
      var revoker :- EnsureSigned(origin);
      var c :- OkOr(Get(s.credentials, id), CredentialFailed(CredentialNotFound));
      :- Ensure(c.issuer == revoker, CredentialFailed(CredentialError.NotAuthorized));
      :- Ensure(c.status != Revoked, CredentialFailed(CredentialAlreadyRevoked));
      Ok(Effect(s.(credentials := s.credentials[id := c.(status := Revoked)]), [CredentialRevoked(id, revoker)]))
    case VerifyCredential(hash) =>
      var verifier :- EnsureSigned(origin);
      var id :- OkOr(Get(s.byHash, hash), CredentialFailed(CredentialNotFound));
      var c :- OkOr(Get(s.credentials, id), CredentialFailed(CredentialNotFound));
      :- Ensure(c.status == Active, CredentialFailed(CredentialNotActive));
      :- Ensure(!PastExpiry(c, block), CredentialFailed(CredentialExpired));
      Ok(Effect(s, [CredentialVerified(id, verifier)]))
    case UpdateCredentialMetadata(id, newMetadata) =>
      var updater :- EnsureSigned(origin);
      var c :- OkOr(Get(s.credentials, id), CredentialFailed(CredentialNotFound));
      :- Ensure(c.issuer == updater, CredentialFailed(CredentialError.NotAuthorized));
      :- Ensure(c.status == Active, CredentialFailed(CredentialNotActive));
      Ok(Effect(s.(credentials := s.credentials[id := c.(metadata := newMetadata)]), [CredentialMetadataUpdated(id)]))
  }

  /** The pallet's storage items, updated in place. `IssueCredential` has already written two
      of them when a full list can still make it fail; the caller rolls those writes back. */
  class CredentialPallet {
    const cfg: Config
    const system: System
    const did: DidPallet
    var credentials: map<Bytes32, Credential>
    var credentialsByHolder: map<AccountId, seq<CredentialReference>>
    var credentialsByIssuer: map<AccountId, seq<Bytes32>>
    var credentialByHash: map<Bytes32, Bytes32>
    var nextCredentialId: U64

    constructor (cfg: Config, system: System, did: DidPallet)
      ensures this.cfg == cfg && this.system == system && this.did == did
      ensures State() == CredentialState(map[], map[], map[], map[], 0)
    {
      this.cfg, this.system, this.did := cfg, system, did;
      credentials, credentialsByHolder, credentialsByIssuer := map[], map[], map[];
      credentialByHash, nextCredentialId := map[], 0;
    }

    function State(): CredentialState
      reads this
    {
      CredentialState(credentials, credentialsByHolder, credentialsByIssuer, credentialByHash, nextCredentialId)
    }

    /** Fill the buffer piece by piece and hash it. */
    method GenerateCredentialId(counter: U64, issuer: AccountId, holder: AccountId) returns (id: Bytes32)
      ensures id == cfg.blake2(Preimage(counter, issuer, holder))
      ensures exists b :: IsBuffer(b, counter, issuer, holder) && id == cfg.blake2(b)
    {
      var data: Bytes := [];
      data := data + ToLe(counter, 8);
      data := data + Encode32(issuer as int);
      data := data + Encode32(holder as int);
      assert data == Preimage(counter, issuer, holder);
      PreimageIsBuffer(counter, issuer, holder);
      id := cfg.blake2(data);
    }

    /** The identity checks of issuing. */
    method CheckIssue(issuer: AccountId, holder: AccountId) returns (r: Outcome<()>)
      ensures r == match CheckParties(did.State(), issuer, holder) case Pass => Ok(()) case Fail(e) => Err(e)
    {
      var institution :- OkOr(Get(did.institutions, issuer), CredentialFailed(IssuerNotVerified));
      :- Ensure(institution.verified, CredentialFailed(IssuerNotVerified));
      var issuerDid :- OkOr(Get(did.didDocuments, issuer), CredentialFailed(IssuerHasNoDid));
      :- Ensure(issuerDid.active, CredentialFailed(CredentialError.DidNotActive));
      var holderDid :- OkOr(Get(did.didDocuments, holder), CredentialFailed(HolderHasNoDid));
      :- Ensure(holderDid.active, CredentialFailed(CredentialError.DidNotActive));
      return Ok(());
    }

    method IssueCredential(origin: Origin, holder: AccountId, hash: Bytes32, credentialType: CredentialType,
                           metadata: Bytes, expiresAt: Option<nat>) returns (r: Outcome<()>)
      modifies this, system`log
      ensures Realizes(IssueStep(cfg, system.block, did.State(), old(State()), origin,
                                 holder, hash, credentialType, metadata, expiresAt),
                       r, State(), old(system.log), system.log)
      // A full list is noticed after the counter and the credential have been written;
      // every other failure comes before any write.
      ensures r == Err(CredentialFailed(TooManyCredentials)) ==>
                origin.Signed? && PartlyWritten(old(State()), State(), origin.who, holder)
      ensures r.Err? && r.error != CredentialFailed(TooManyCredentials) ==> State() == old(State())
      ensures r.Err? ==> system.log == old(system.log)
      ensures r.Ok? ==> origin.Signed?
      ensures r.Ok? ==>
                exists b ::
                  && IsBuffer(b, old(nextCredentialId), origin.who, holder)
                  && credentials == old(credentials)[cfg.blake2(b) :=
                       Credential(cfg.blake2(b), hash, holder, origin.who, credentialType, metadata, system.block,
                                  expiresAt, Active)]
    {
      var issuer :- EnsureSigned(origin);
      var _ :- CheckIssue(issuer, holder);
      :- Ensure(hash !in credentialByHash, CredentialFailed(CredentialAlreadyExists));
      r := WriteCredential(issuer, holder, hash, credentialType, metadata, expiresAt);
    }

    /** The counter has moved on and the new credential is stored, but its hash is not indexed. */
    ghost predicate PartlyWritten(before: CredentialState, after: CredentialState, issuer: AccountId,
                                  holder: AccountId) {
      && after.nextId == SatAdd64(before.nextId, 1)
      && after.credentials.Keys == before.credentials.Keys + {cfg.blake2(Preimage(before.nextId, issuer, holder))}
      && after.byHash == before.byHash
    }

    /** Extend the holder's list, or fail without writing. */
    method PushHolder(holder: AccountId, reference: CredentialReference) returns (r: Outcome<()>)
      modifies this`credentialsByHolder
      ensures r == if |old(State()).HeldBy(holder)| < cfg.maxCredentialsPerHolder then Ok(())
                   else Err(CredentialFailed(TooManyCredentials))
      ensures credentialsByHolder ==
                if r.Ok? then old(credentialsByHolder)[holder := old(State()).HeldBy(holder) + [reference]]
                else old(credentialsByHolder)
    {
      var held :- TryPush(State().HeldBy(holder), reference, cfg.maxCredentialsPerHolder,
                          CredentialFailed(TooManyCredentials));
      credentialsByHolder := credentialsByHolder[holder := held];
      return Ok(());
    }

    /** Extend the issuer's list, or fail without writing. */
    method PushIssuer(issuer: AccountId, id: Bytes32) returns (r: Outcome<()>)
      modifies this`credentialsByIssuer
      ensures r == if |old(State()).IssuedBy(issuer)| < cfg.maxCredentialsPerHolder then Ok(())
                   else Err(CredentialFailed(TooManyCredentials))
      ensures credentialsByIssuer ==
                if r.Ok? then old(credentialsByIssuer)[issuer := old(State()).IssuedBy(issuer) + [id]]
                else old(credentialsByIssuer)
    {
      var issued :- TryPush(State().IssuedBy(issuer), id, cfg.maxCredentialsPerHolder,
                            CredentialFailed(TooManyCredentials));
      credentialsByIssuer := credentialsByIssuer[issuer := issued];
      return Ok(());
    }

    /** The second half of issuing, from drawing the identifier to the event. */
    method WriteCredential(issuer: AccountId, holder: AccountId, hash: Bytes32, credentialType: CredentialType,
                           metadata: Bytes, expiresAt: Option<nat>) returns (r: Outcome<()>)
      modifies this, system`log
      ensures Realizes(CommitStep(cfg, system.block, old(State()), issuer, holder, hash, credentialType, metadata,
                                  expiresAt),
                       r, State(), old(system.log), system.log)
      ensures r.Err? ==> PartlyWritten(old(State()), State(), issuer, holder) && system.log == old(system.log)
      // Whether or not a list is full, the credential is stored under the hash of such a buffer.
      ensures exists b :: IsBuffer(b, old(nextCredentialId), issuer, holder)
                && credentials == old(credentials)[cfg.blake2(b) :=
                     Credential(cfg.blake2(b), hash, holder, issuer, credentialType, metadata, system.block,
                                expiresAt, Active)]
    {
      var counter := nextCredentialId;
      var id := GenerateCredentialId(counter, issuer, holder);
      nextCredentialId := SatAdd64(counter, 1);
      var c := Credential(id, hash, holder, issuer, credentialType, metadata, system.block, expiresAt, Active);
      credentials := credentials[id := c];
      r := IndexCredential(c);
    }

    /** The rest of issuing: both lists, the hash index and the event, up to the first full list. */
    method IndexCredential(c: Credential) returns (r: Outcome<()>)
      modifies this`credentialsByHolder, this`credentialsByIssuer, this`credentialByHash, system`log
      ensures var before, bound := old(State()), cfg.maxCredentialsPerHolder;
        if |before.HeldBy(c.holder)| < bound && |before.IssuedBy(c.issuer)| < bound then
          && r == Ok(())
          && credentialsByHolder == before.byHolder[c.holder :=
               before.HeldBy(c.holder) + [CredentialReference(c.credentialId, c.credentialType)]]
          && credentialsByIssuer == before.byIssuer[c.issuer := before.IssuedBy(c.issuer) + [c.credentialId]]
          && credentialByHash == before.byHash[c.credentialHash := c.credentialId]
          && system.log == old(system.log)
               + [CredentialIssued(c.credentialId, c.credentialHash, c.holder, c.issuer, c.credentialType)]
        else
          r == Err(CredentialFailed(TooManyCredentials))
          && credentialByHash == before.byHash && system.log == old(system.log)
    {
      var _ :- PushHolder(c.holder, CredentialReference(c.credentialId, c.credentialType));
      var _ :- PushIssuer(c.issuer, c.credentialId);
      credentialByHash := credentialByHash[c.credentialHash := c.credentialId];
      system.Deposit(CredentialIssued(c.credentialId, c.credentialHash, c.holder, c.issuer, c.credentialType));
      return Ok(());
    }

    method RevokeCredential(origin: Origin, id: Bytes32) returns (r: Outcome<()>)
      modifies this, system`log
      ensures Realizes(CredentialStep(cfg, system.block, did.State(), old(State()), origin,
                                      CredentialCall.RevokeCredential(id)),
                       r, State(), old(system.log), system.log)
      ensures r.Err? ==> State() == old(State()) && system.log == old(system.log)
    {
      var revoker :- EnsureSigned(origin);
      var credential :- OkOr(Get(credentials, id), CredentialFailed(CredentialNotFound));
      :- Ensure(credential.issuer == revoker, CredentialFailed(CredentialError.NotAuthorized));
      :- Ensure(credential.status != Revoked, CredentialFailed(CredentialAlreadyRevoked));
      credential := credential.(status := Revoked);
      credentials := credentials[id := credential];
      system.Deposit(CredentialRevoked(id, revoker));
      return Ok(());
    }

    method VerifyCredential(origin: Origin, hash: Bytes32) returns (r: Outcome<()>)
      modifies system`log
      ensures Realizes(CredentialStep(cfg, system.block, did.State(), old(State()), origin,
                                      CredentialCall.VerifyCredential(hash)),
                       r, State(), old(system.log), system.log)
      ensures r.Ok? || r == Err(CredentialFailed(CredentialExpired)) ==>
                hash in credentialByHash && credentialByHash[hash] in credentials
                && var c := credentials[credentialByHash[hash]];
                   c.status == Active && (r.Ok? <==> c.expiresAt.None? || system.block <= c.expiresAt.value)
      ensures r.Err? ==> system.log == old(system.log)
    {
      var verifier :- EnsureSigned(origin);
      var id :- OkOr(Get(credentialByHash, hash), CredentialFailed(CredentialNotFound));
      var credential :- OkOr(Get(credentials, id), CredentialFailed(CredentialNotFound));
      :- Ensure(credential.status == Active, CredentialFailed(CredentialNotActive));
      if credential.expiresAt.Some? {
        :- Ensure(system.block <= credential.expiresAt.value, CredentialFailed(CredentialExpired));
      }
      system.Deposit(CredentialVerified(id, verifier));
      return Ok(());
    }

    method UpdateCredentialMetadata(origin: Origin, id: Bytes32, newMetadata: Bytes) returns (r: Outcome<()>)
      modifies this, system`log
      ensures Realizes(CredentialStep(cfg, system.block, did.State(), old(State()), origin,
                                      CredentialCall.UpdateCredentialMetadata(id, newMetadata)),
                       r, State(), old(system.log), system.log)
      ensures r.Ok? ==> id in old(credentials)
                        && credentials == old(credentials)[id := old(credentials)[id].(metadata := newMetadata)]
      ensures r.Err? ==> State() == old(State()) && system.log == old(system.log)
    {
      var updater :- EnsureSigned(origin);
      var credential :- OkOr(Get(credentials, id), CredentialFailed(CredentialNotFound));
      :- Ensure(credential.issuer == updater, CredentialFailed(CredentialError.NotAuthorized));
      :- Ensure(credential.status == Active, CredentialFailed(CredentialNotActive));
      credential := credential.(metadata := newMetadata);
      credentials := credentials[id := credential];
      system.Deposit(CredentialMetadataUpdated(id));
      return Ok(());
    }

    method Dispatch(origin: Origin, call: CredentialCall) returns (r: Outcome<()>)
      modifies this, system`log
      ensures Realizes(CredentialStep(cfg, system.block, did.State(), old(State()), origin, call),
                       r, State(), old(system.log), system.log)
    {
      match call
      case IssueCredential(holder, hash, credentialType, metadata, expiresAt) =>
        r := IssueCredential(origin, holder, hash, credentialType, metadata, expiresAt);
      case RevokeCredential(id) => r := RevokeCredential(origin, id);
      case VerifyCredential(hash) => r := VerifyCredential(origin, hash);
      case UpdateCredentialMetadata(id, newMetadata) => r := UpdateCredentialMetadata(origin, id, newMetadata);
    }
  }
}
