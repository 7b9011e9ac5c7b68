/** The DID pallet: documents with bounded key lists, and the institution registry. */
module Did {
  import opened Prims
  import opened Frame
  import opened Seqs

  datatype PublicKeyEntry = PublicKeyEntry(keyId: Bytes32, keyType: KeyType, publicKey: Bytes32)

  datatype DidDocument = DidDocument(
    controller: AccountId,
    publicKeys: seq<PublicKeyEntry>,
    createdAt: nat,
    updatedAt: nat,
    active: bool)

  datatype Institution = Institution(name: Bytes, did: AccountId, verified: bool, registeredAt: nat)

  /** The pallet's storage as a value. */
  datatype DidState = DidState(docs: map<AccountId, DidDocument>, institutions: map<AccountId, Institution>)

  datatype DidCall =
    | CreateDid(publicKey: Bytes32, keyType: KeyType)
    | AddPublicKey(publicKey: Bytes32, keyType: KeyType)
    | RemovePublicKey(keyId: Bytes32)
    | DeactivateDid
    | ReactivateDid
    | RegisterInstitution(name: Bytes)
    | VerifyInstitution(institution: AccountId)
    | RevokeInstitution(institution: AccountId)

  function KeyIdOf(cfg: Config, publicKey: Bytes32): Bytes32 {
    cfg.blake2(Encode32(publicKey as int))
  }

  lemma KeySpelled(publicKey: Bytes32)
    ensures Spells(Encode32(publicKey as int), publicKey as int, 32)
  {
    LeBound();
    LeRoundTrip(publicKey as int, 32);
  }

  predicate HasKey(keys: seq<PublicKeyEntry>, id: Bytes32) {
    exists i :: 0 <= i < |keys| && keys[i].keyId == id
  }

  function KeyDiffers(id: Bytes32): PublicKeyEntry -> bool {
    (k: PublicKeyEntry) => k.keyId != id
  }

  /** The document of `who`, which `who` must control. */
  function Controlled(d: DidState, who: AccountId): Outcome<DidDocument> {
    var doc :- OkOr(Get(d.docs, who), DidFailed(DidNotFound));
    :- Ensure(doc.controller == who, DidFailed(DidError.NotAuthorized));
    Ok(doc)
  }

  predicate IsActive(d: DidState, a: AccountId) {
    a in d.docs && d.docs[a].active
  }

  predicate IsVerified(d: DidState, a: AccountId) {
    a in d.institutions && d.institutions[a].verified
  }

  /** What each call does, as a function of the storage it finds. */
  function DidStep(cfg: Config, block: nat, d: DidState, origin: Origin, call: DidCall): Outcome<Effect<DidState>> {
    match call
    case CreateDid(publicKey, keyType) =>
      var who :- EnsureSigned(origin);
      :- Ensure(who !in d.docs, DidFailed(DidAlreadyExists));
      :- Ensure(cfg.maxPublicKeys > 0, DidFailed(TooManyPublicKeys));
      var keys := [PublicKeyEntry(KeyIdOf(cfg, publicKey), keyType, publicKey)];
      Ok(Effect(d.(docs := d.docs[who := DidDocument(who, keys, block, block, true)]), [DidCreated(who)]))
    case AddPublicKey(publicKey, keyType) =>
      var who :- EnsureSigned(origin);
      var doc :- Controlled(d, who);
      :- Ensure(doc.active, DidFailed(DidInactive));
      var id := KeyIdOf(cfg, publicKey);
      :- Ensure(!HasKey(doc.publicKeys, id), DidFailed(PublicKeyAlreadyExists));
      :- Ensure(|doc.publicKeys| < cfg.maxPublicKeys, DidFailed(TooManyPublicKeys));
      var keys := doc.publicKeys + [PublicKeyEntry(id, keyType, publicKey)];
      Ok(Effect(d.(docs := d.docs[who := doc.(publicKeys := keys, updatedAt := block)]), [PublicKeyAdded(who, id)]))
    case RemovePublicKey(keyId) =>
      var who :- EnsureSigned(origin);
      var doc :- Controlled(d, who);
      var keys := Filter(doc.publicKeys, KeyDiffers(keyId));
      :- Ensure(|keys| < |doc.publicKeys|, DidFailed(PublicKeyNotFound));
      Ok(Effect(d.(docs := d.docs[who := doc.(publicKeys := keys, updatedAt := block)]),
                [PublicKeyRemoved(who, keyId)]))
    case DeactivateDid =>
      var who :- EnsureSigned(origin);
      var doc :- Controlled(d, who);
      Ok(Effect(d.(docs := d.docs[who := doc.(active := false, updatedAt := block)]), [DidDeactivated(who)]))
    case ReactivateDid =>
      var who :- EnsureSigned(origin);
      var doc :- Controlled(d, who);
      Ok(Effect(d.(docs := d.docs[who := doc.(active := true, updatedAt := block)]), [DidUpdated(who)]))
    case RegisterInstitution(name) =>
      var who :- EnsureSigned(origin);
      :- Ensure(who !in d.institutions, DidFailed(InstitutionAlreadyRegistered));
      :- Ensure(who in d.docs, DidFailed(DidNotFound));
      :- Ensure(name != [], DidFailed(InvalidInstitutionName));
      Ok(Effect(d.(institutions := d.institutions[who := Institution(name, who, false, block)]),
                [InstitutionRegistered(who, name)]))
    case VerifyInstitution(a) =>
      var _ :- EnsureRoot(origin);
      var institution :- OkOr(Get(d.institutions, a), DidFailed(InstitutionNotFound));
      Ok(Effect(d.(institutions := d.institutions[a := institution.(verified := true)]), [InstitutionVerified(a)]))
    case RevokeInstitution(a) =>
      var _ :- EnsureRoot(origin);
      var institution :- OkOr(Get(d.institutions, a), DidFailed(InstitutionNotFound));
      Ok(Effect(d.(institutions := d.institutions[a := institution.(verified := false)]), [InstitutionRevoked(a)]))
  }

  /** The pallet's storage items, updated in place by its calls. Every call writes inside
      one `try_mutate` or after its last check, so a failing call writes nothing. */
  class DidPallet {
    const cfg: Config
    const system: System
    var didDocuments: map<AccountId, DidDocument>
    var institutions: map<AccountId, Institution>

    constructor (cfg: Config, system: System)
      ensures this.cfg == cfg && this.system == system && State() == DidState(map[], map[])
    {
      this.cfg, this.system := cfg, system;
      didDocuments, institutions := map[], map[];
    }

    function State(): DidState
      reads this
    {
      DidState(didDocuments, institutions)
    }

    method CreateDid(origin: Origin, publicKey: Bytes32, keyType: KeyType) returns (r: Outcome<()>)
      modifies this, system`log
      ensures Realizes(DidStep(cfg, system.block, old(State()), origin, DidCall.CreateDid(publicKey, keyType)),
                       r, State(), old(system.log), system.log)
      ensures r.Ok? ==> origin.Signed?
      ensures r.Ok? ==>
                exists b ::
                  && Spells(b, publicKey as int, 32)
                  && didDocuments == old(didDocuments)[origin.who :=
                       DidDocument(origin.who, [PublicKeyEntry(cfg.blake2(b), keyType, publicKey)], system.block,
                                   system.block, true)]
      ensures r.Err? ==> State() == old(State()) && system.log == old(system.log)
    {
      var who :- EnsureSigned(origin);
      :- Ensure(who !in didDocuments, DidFailed(DidAlreadyExists));
      KeySpelled(publicKey);
      var entry := PublicKeyEntry(KeyIdOf(cfg, publicKey), keyType, publicKey);
      var keys :- TryPush([], entry, cfg.maxPublicKeys, DidFailed(TooManyPublicKeys));
      assert keys == [entry];
      var doc := DidDocument(who, keys, system.block, system.block, true);
      didDocuments := didDocuments[who := doc];
      system.Deposit(DidCreated(who));
      return Ok(());
    }

    method AddPublicKey(origin: Origin, publicKey: Bytes32, keyType: KeyType) returns (r: Outcome<()>)
      modifies this, system`log
      ensures Realizes(DidStep(cfg, system.block, old(State()), origin, DidCall.AddPublicKey(publicKey, keyType)),
                       r, State(), old(system.log), system.log)
      ensures r.Err? ==> State() == old(State()) && system.log == old(system.log)
    {
      var who :- EnsureSigned(origin);
      var doc :- OkOr(Get(didDocuments, who), DidFailed(DidNotFound));
      :- Ensure(doc.controller == who, DidFailed(DidError.NotAuthorized));
      :- Ensure(doc.active, DidFailed(DidInactive));
      var keyId := KeyIdOf(cfg, publicKey);
      :- Ensure(!HasKey(doc.publicKeys, keyId), DidFailed(PublicKeyAlreadyExists));
      var entry := PublicKeyEntry(keyId, keyType, publicKey);
      var keys :- TryPush(doc.publicKeys, entry, cfg.maxPublicKeys, DidFailed(TooManyPublicKeys));
      doc := doc.(publicKeys := keys);
      doc := doc.(updatedAt := system.block);
      system.Deposit(PublicKeyAdded(who, keyId));
      didDocuments := didDocuments[who := doc];
      return Ok(());
    }

    method RemovePublicKey(origin: Origin, keyId: Bytes32) returns (r: Outcome<()>)
      modifies this, system`log
      ensures Realizes(DidStep(cfg, system.block, old(State()), origin, DidCall.RemovePublicKey(keyId)),
                       r, State(), old(system.log), system.log)
      ensures r.Err? ==> State() == old(State()) && system.log == old(system.log)
    {
      var who :- EnsureSigned(origin);
      var doc :- OkOr(Get(didDocuments, who), DidFailed(DidNotFound));
      :- Ensure(doc.controller == who, DidFailed(DidError.NotAuthorized));
      var initialLen := |doc.publicKeys|;
      doc := doc.(publicKeys := Filter(doc.publicKeys, KeyDiffers(keyId)));
      :- Ensure(|doc.publicKeys| < initialLen, DidFailed(PublicKeyNotFound));
      doc := doc.(updatedAt := system.block);
      system.Deposit(PublicKeyRemoved(who, keyId));
      didDocuments := didDocuments[who := doc];
      return Ok(());
    }

    method DeactivateDid(origin: Origin) returns (r: Outcome<()>)
      modifies this, system`log
      ensures Realizes(DidStep(cfg, system.block, old(State()), origin, DidCall.DeactivateDid),
                       r, State(), old(system.log), system.log)
      ensures r.Err? ==> State() == old(State()) && system.log == old(system.log)
    {
      var who :- EnsureSigned(origin);
      var doc :- OkOr(Get(didDocuments, who), DidFailed(DidNotFound));
      :- Ensure(doc.controller == who, DidFailed(DidError.NotAuthorized));
      doc := doc.(active := false);
      doc := doc.(updatedAt := system.block);
      system.Deposit(DidDeactivated(who));
      didDocuments := didDocuments[who := doc];
      return Ok(());
    }

    method ReactivateDid(origin: Origin) returns (r: Outcome<()>)
      modifies this, system`log
      ensures Realizes(DidStep(cfg, system.block, old(State()), origin, DidCall.ReactivateDid),
                       r, State(), old(system.log), system.log)
      ensures r.Err? ==> State() == old(State()) && system.log == old(system.log)
    {
      var who :- EnsureSigned(origin);
      var doc :- OkOr(Get(didDocuments, who), DidFailed(DidNotFound));
      :- Ensure(doc.controller == who, DidFailed(DidError.NotAuthorized));
      doc := doc.(active := true);
      doc := doc.(updatedAt := system.block);
      system.Deposit(DidUpdated(who));
      didDocuments := didDocuments[who := doc];
      return Ok(());
    }

    method RegisterInstitution(origin: Origin, name: Bytes) returns (r: Outcome<()>)
      modifies this, system`log
      ensures Realizes(DidStep(cfg, system.block, old(State()), origin, DidCall.RegisterInstitution(name)),
                       r, State(), old(system.log), system.log)
      ensures r.Err? ==> State() == old(State()) && system.log == old(system.log)
    {
      var who :- EnsureSigned(origin);
      :- Ensure(who !in institutions, DidFailed(InstitutionAlreadyRegistered));
      :- Ensure(who in didDocuments, DidFailed(DidNotFound));
      :- Ensure(|name| != 0, DidFailed(InvalidInstitutionName));
      institutions := institutions[who := Institution(name, who, false, system.block)];
      system.Deposit(InstitutionRegistered(who, name));
      return Ok(());
    }

    method VerifyInstitution(origin: Origin, a: AccountId) returns (r: Outcome<()>)
      modifies this, system`log
      ensures Realizes(DidStep(cfg, system.block, old(State()), origin, DidCall.VerifyInstitution(a)),
                       r, State(), old(system.log), system.log)
      ensures r.Ok? ==> a in institutions && institutions[a].verified
                        && system.log == old(system.log) + [InstitutionVerified(a)]
      ensures r.Err? ==> State() == old(State()) && system.log == old(system.log)
    {
      var _ :- EnsureRoot(origin);
      var institution :- OkOr(Get(institutions, a), DidFailed(InstitutionNotFound));
      institution := institution.(verified := true);
      system.Deposit(InstitutionVerified(a));
      institutions := institutions[a := institution];
      return Ok(());
    }

    method RevokeInstitution(origin: Origin, a: AccountId) returns (r: Outcome<()>)
      modifies this, system`log
      ensures Realizes(DidStep(cfg, system.block, old(State()), origin, DidCall.RevokeInstitution(a)),
                       r, State(), old(system.log), system.log)
      ensures r.Ok? ==> a in institutions && !institutions[a].verified
                        && system.log == old(system.log) + [InstitutionRevoked(a)]
      ensures r.Err? ==> State() == old(State()) && system.log == old(system.log)
    {
      var _ :- EnsureRoot(origin);
      var institution :- OkOr(Get(institutions, a), DidFailed(InstitutionNotFound));
      institution := institution.(verified := false);
      system.Deposit(InstitutionRevoked(a));
      institutions := institutions[a := institution];
      return Ok(());
    }

    method Dispatch(origin: Origin, call: DidCall) returns (r: Outcome<()>)
      modifies this, system`log
      ensures Realizes(DidStep(cfg, system.block, old(State()), origin, call),
                       r, State(), old(system.log), system.log)
      ensures r.Err? ==> State() == old(State()) && system.log == old(system.log)
    {
      match call
      case CreateDid(publicKey, keyType) => r := CreateDid(origin, publicKey, keyType);
      case AddPublicKey(publicKey, keyType) => r := AddPublicKey(origin, publicKey, keyType);
      case RemovePublicKey(keyId) => r := RemovePublicKey(origin, keyId);
      case DeactivateDid => r := DeactivateDid(origin);
      case ReactivateDid => r := ReactivateDid(origin);
      case RegisterInstitution(name) => r := RegisterInstitution(origin, name);
      case VerifyInstitution(a) => r := VerifyInstitution(origin, a);
      case RevokeInstitution(a) => r := RevokeInstitution(origin, a);
    }
  }
}
