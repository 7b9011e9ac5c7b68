/** What the pallets take from FRAME: call origins, dispatch results that stop at the
    first error, the block number and event log of frame_system, and the runtime's
    constants. The hash function is a parameter. */
module Frame {
  import opened Prims

  /** Runtime constants, and blake2_256 as an unspecified function. */
  datatype Config = Config(
    maxPublicKeys: U32,
    maxCredentialsPerHolder: U32,
    maxEndorsements: U32,
    maxCommentSize: U32,
    blake2: Bytes -> Bytes32)

  datatype Origin = Root | Signed(who: AccountId) | Unsigned

  datatype DidError =
    | DidAlreadyExists | DidNotFound | NotAuthorized | TooManyPublicKeys | PublicKeyAlreadyExists
    | PublicKeyNotFound | InstitutionAlreadyRegistered | InstitutionNotFound | DidInactive
    | InvalidInstitutionName

  datatype CredentialError =
    | CredentialNotFound | CredentialAlreadyExists | NotAuthorized | IssuerNotVerified | IssuerHasNoDid
    | HolderHasNoDid | CredentialAlreadyRevoked | CredentialExpired | TooManyCredentials
    | CredentialNotActive | DidNotActive

  datatype ReputationError =
    | NoDid | DidNotActive | AlreadyEndorsed | CannotEndorseSelf | TooManyEndorsements
    | EndorsementNotFound | InvalidWeight | CommentTooLarge

  datatype DispatchError =
    | BadOrigin
    | DidFailed(did: DidError)
    | CredentialFailed(credential: CredentialError)
    | ReputationFailed(reputation: ReputationError)

  datatype Outcome<+T> = Ok(value: T) | Err(error: DispatchError) {
    predicate IsFailure() {
      Err?
    }

    function PropagateFailure<U>(): Outcome<U>
      requires Err?
    {
      Err(error)
    }

    function Extract(): T
      requires Ok?
    {
      value
    }
  }

  /** The result of an `ensure!`: nothing, or the error to stop with. */
  datatype Guard = Pass | Fail(error: DispatchError) {
    predicate IsFailure() {
      Fail?
    }

    function PropagateFailure<U>(): Outcome<U>
      requires Fail?
    {
      Err(error)
    }
  }

  function Ensure(condition: bool, error: DispatchError): Guard {
    if condition then Pass else Fail(error)
  }

  function OkOr<T>(o: Option<T>, error: DispatchError): Outcome<T> {
    match o
    case Some(v) => Ok(v)
    case None => Err(error)
  }

  function EnsureSigned(origin: Origin): Outcome<AccountId> {
    if origin.Signed? then Ok(origin.who) else Err(BadOrigin)
  }

  function EnsureRoot(origin: Origin): Outcome<()> {
    if origin.Root? then Ok(()) else Err(BadOrigin)
  }

  /** Append to a bounded vector, or give the error. */
  function TryPush<T>(s: seq<T>, x: T, bound: U32, error: DispatchError): Outcome<seq<T>> {
    if |s| < bound then Ok(s + [x]) else Err(error)
  }

  datatype KeyType = Ed25519 | Sr25519 | Ecdsa

  datatype CredentialType =
    | Degree | MastersDegree | Doctorate | Certificate | Transcript | ProfessionalCertification | Other

  datatype EndorsementType = Professional | Academic | Research | Teaching | Innovation

  datatype Event =
    | DidCreated(owner: AccountId)
    | DidUpdated(owner: AccountId)
    | DidDeactivated(owner: AccountId)
    | PublicKeyAdded(owner: AccountId, keyId: Bytes32)
    | PublicKeyRemoved(owner: AccountId, keyId: Bytes32)
    | InstitutionRegistered(did: AccountId, name: Bytes)
    | InstitutionVerified(did: AccountId)
    | InstitutionRevoked(did: AccountId)
    | CredentialIssued(credentialId: Bytes32, credentialHash: Bytes32, holder: AccountId,
                       issuer: AccountId, credentialType: CredentialType)
    | CredentialRevoked(credentialId: Bytes32, revokedBy: AccountId)
    | CredentialVerified(credentialId: Bytes32, verifiedBy: AccountId)
    | CredentialMetadataUpdated(credentialId: Bytes32)
    | EndorsementCreated(endorser: AccountId, endorsee: AccountId, endorsementType: EndorsementType, weight: U8)
    | EndorsementRemoved(endorser: AccountId, endorsee: AccountId)
    | ReputationUpdated(account: AccountId, newScore: U32)
    | CredentialIssuanceRecorded(account: AccountId)
    | CredentialVerificationRecorded(account: AccountId)

  /** What a successful call leaves: the pallet's new state and the events it deposits. */
  datatype Effect<+S> = Effect(state: S, events: seq<Event>)

  /** A method that returned `r` did what `spec` says, as far as success is concerned. */
  predicate Realizes<S(==)>(spec: Outcome<Effect<S>>, r: Outcome<()>, after: S, logBefore: seq<Event>,
                       logAfter: seq<Event>) {
    match spec
    case Ok(e) => r == Ok(()) && after == e.state && logAfter == logBefore + e.events
    case Err(error) => r == Err(error)
  }

  /** frame_system: the block number and the deposited events. */
  class System {
    var block: nat
    var log: seq<Event>

    /** Blocks start at 1: FRAME drops events deposited at block 0. */
    constructor ()
      ensures block == 1 && log == []
    {
      block, log := 1, [];
    }

    method Deposit(e: Event)
      modifies this`log
      ensures log == old(log) + [e]
    {
      log := log + [e];
    }

    method NextBlock()
      modifies this`block
      ensures block == old(block) + 1
    {
      block := block + 1;
    }
  }
}
