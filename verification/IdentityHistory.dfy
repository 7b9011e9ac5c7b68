/** The DID pallet as a reading of the accepted calls: which documents and institutions exist and
    every field of them, which calls are refused and why, and what is announced. */
module IdentityHistory {
  import opened Prims
  import opened Frame
  import opened Seqs
  import opened Did
  import opened Runtime
  import opened History
  import Identity

  // ---------- which entries concern an account ----------

  predicate ByOwner(e: Entry, x: AccountId) {
    e.origin == Signed(x) && e.call.ToDid?
  }

  function Creates(x: AccountId): Entry -> bool {
    (e: Entry) => ByOwner(e, x) && e.call.did.CreateDid?
  }

  function WritesDocument(x: AccountId): Entry -> bool {
    (e: Entry) =>
      ByOwner(e, x)
      && (e.call.did.CreateDid? || e.call.did.AddPublicKey? || e.call.did.RemovePublicKey?
          || e.call.did.DeactivateDid? || e.call.did.ReactivateDid?)
  }

  function SetsFlag(x: AccountId): Entry -> bool {
    (e: Entry) =>
      ByOwner(e, x) && (e.call.did.CreateDid? || e.call.did.DeactivateDid? || e.call.did.ReactivateDid?)
  }

  function Registers(x: AccountId): Entry -> bool {
    (e: Entry) => ByOwner(e, x) && e.call.did.RegisterInstitution?
  }

  function Judges(x: AccountId): Entry -> bool {
    (e: Entry) => e.call == ToDid(VerifyInstitution(x)) || e.call == ToDid(RevokeInstitution(x))
  }

  predicate Enrolled(h: seq<Entry>, x: AccountId) {
    Last(h, Creates(x)).Some?
  }

  /** The last call that set the flag was not a deactivation. */
  predicate ActiveIn(h: seq<Entry>, x: AccountId) {
    var e := Last(h, SetsFlag(x));
    e.Some? && e.value.call != ToDid(DeactivateDid)
  }

  predicate RegisteredIn(h: seq<Entry>, x: AccountId) {
    Last(h, Registers(x)).Some?
  }

  /** The last judgement of x verified it. */
  predicate VerifiedIn(h: seq<Entry>, x: AccountId) {
    var e := Last(h, Judges(x));
    e.Some? && e.value.call == ToDid(VerifyInstitution(x))
  }

  // ---------- keys ----------

  /** The hash of the 32 bytes of a key. */
  ghost function KeyName(cfg: Config, key: Bytes32): Bytes32 {
    cfg.blake2(Spelled(key as int, 32))
  }

  lemma KeyNameIs(cfg: Config, key: Bytes32)
    ensures Spells(Spelled(key as int, 32), key as int, 32)
    ensures KeyName(cfg, key) == KeyIdOf(cfg, key)
  {
    LeBound();
    SpelledIs(key as int, 32);
  }

  function OtherName(id: Bytes32): PublicKeyEntry -> bool {
    (k: PublicKeyEntry) => !(k.keyId == id)
  }

  ghost function EntryFor(cfg: Config, key: Bytes32, keyType: KeyType): PublicKeyEntry {
    PublicKeyEntry(KeyName(cfg, key), keyType, key)
  }

  /** The keys of x: those of its creation and additions in order, less those it removed by name. */
  ghost function KeysIn(cfg: Config, h: seq<Entry>, x: AccountId): seq<PublicKeyEntry> {
    if h == [] then []
    else
      var keys, e := KeysIn(cfg, h[..|h| - 1], x), h[|h| - 1];
      if !ByOwner(e, x) then keys
      else
        match e.call.did
        case CreateDid(key, keyType) => keys + [EntryFor(cfg, key, keyType)]
        case AddPublicKey(key, keyType) => keys + [EntryFor(cfg, key, keyType)]
        case RemovePublicKey(id) => Filter(keys, OtherName(id))
        case _ => keys
  }

  /** The entry adds exactly this key to x's document. */
  ghost predicate AddsKey(cfg: Config, e: Entry, x: AccountId, k: PublicKeyEntry) {
    && ByOwner(e, x) && k.keyId == KeyName(cfg, k.publicKey)
    && (e.call.did == CreateDid(k.publicKey, k.keyType) || e.call.did == AddPublicKey(k.publicKey, k.keyType))
  }

  predicate RemovesKey(e: Entry, x: AccountId, id: Bytes32) {
    e.origin == Signed(x) && e.call == ToDid(RemovePublicKey(id))
  }

  ghost predicate AddedAndKept(cfg: Config, h: seq<Entry>, x: AccountId, k: PublicKeyEntry) {
    exists i :: 0 <= i < |h| && AddsKey(cfg, h[i], x, k) && forall j :: i < j < |h| ==> !RemovesKey(h[j], x, k.keyId)
  }

  /** The fold in plain words: a key is among x's keys exactly when an accepted call of x added it,
      under the hash of its bytes, and no later accepted call of x removed that name. */
  lemma {:induction false} KeysAreAddedAndKept(cfg: Config, h: seq<Entry>, x: AccountId, k: PublicKeyEntry)
    ensures k in KeysIn(cfg, h, x) <==> AddedAndKept(cfg, h, x, k)
  {
    if h != [] {
      var init, e := h[..|h| - 1], h[|h| - 1];
      KeysAreAddedAndKept(cfg, init, x, k);
      AddedSnoc(cfg, init, e, x, k);
      assert init + [e] == h;
      if ByOwner(e, x) && e.call.did.RemovePublicKey? {
        FilterIn(KeysIn(cfg, init, x), OtherName(e.call.did.keyId), k);
      }
    }
  }

  lemma AddedSnoc(cfg: Config, h: seq<Entry>, e: Entry, x: AccountId, k: PublicKeyEntry)
    ensures AddedAndKept(cfg, h + [e], x, k) <==>
            AddsKey(cfg, e, x, k) || (AddedAndKept(cfg, h, x, k) && !RemovesKey(e, x, k.keyId))
  {
    var m := h + [e];
    assert forall i :: 0 <= i < |h| ==> m[i] == h[i];
    if AddsKey(cfg, e, x, k) {
      assert AddsKey(cfg, m[|h|], x, k);
    }
    if AddedAndKept(cfg, m, x, k) && !AddsKey(cfg, e, x, k) {
      var i :| 0 <= i < |m| && AddsKey(cfg, m[i], x, k) && forall j :: i < j < |m| ==> !RemovesKey(m[j], x, k.keyId);
      assert AddsKey(cfg, h[i], x, k);
      assert !RemovesKey(m[|h|], x, k.keyId);
    }
    if AddedAndKept(cfg, h, x, k) && !RemovesKey(e, x, k.keyId) {
      var i :| 0 <= i < |h| && AddsKey(cfg, h[i], x, k) && forall j :: i < j < |h| ==> !RemovesKey(h[j], x, k.keyId);
      assert AddsKey(cfg, m[i], x, k);
    }
  }

  // ---------- the storage that the history leaves ----------

  ghost predicate DocFollows(cfg: Config, h: seq<Entry>, x: AccountId, doc: Option<DidDocument>) {
    if Enrolled(h, x) then
      doc == Some(DidDocument(x, KeysIn(cfg, h, x), LastBlock(h, Creates(x)), LastBlock(h, WritesDocument(x)),
                              ActiveIn(h, x)))
    else doc == None && KeysIn(cfg, h, x) == [] && !ActiveIn(h, x)
  }

  ghost predicate InstitutionFollows(h: seq<Entry>, x: AccountId, i: Option<Institution>) {
    if RegisteredIn(h, x) then
      && i.Some? && i.value.did == x && i.value.verified == VerifiedIn(h, x)
      && Last(h, Registers(x)) == Some(Entry(i.value.registeredAt, Signed(x), ToDid(RegisterInstitution(i.value.name))))
    else i == None && Last(h, Judges(x)) == None
  }

  ghost predicate DidFollows(cfg: Config, h: seq<Entry>, d: DidState) {
    && (forall x :: DocFollows(cfg, h, x, Get(d.docs, x)))
    && (forall x :: InstitutionFollows(h, x, Get(d.institutions, x)))
  }

  // ---------- refusals and announcements ----------

  /** Why the call is refused after history h, if it is; the first failing test decides. */
  ghost function DidRefusal(cfg: Config, h: seq<Entry>, origin: Origin, call: DidCall): Option<DispatchError> {
    if call.VerifyInstitution? || call.RevokeInstitution? then
      if origin != Root then Some(BadOrigin)
      else if !RegisteredIn(h, call.institution) then Some(DidFailed(InstitutionNotFound))
      else None
    else if !origin.Signed? then Some(BadOrigin)
    else
      var x := origin.who;
      match call
      case CreateDid(_, _) =>
        if Enrolled(h, x) then Some(DidFailed(DidAlreadyExists))
        else if cfg.maxPublicKeys == 0 then Some(DidFailed(TooManyPublicKeys))
        else None
      case RegisterInstitution(name) =>
        if RegisteredIn(h, x) then Some(DidFailed(InstitutionAlreadyRegistered))
        else if !Enrolled(h, x) then Some(DidFailed(DidNotFound))
        else if |name| == 0 then Some(DidFailed(InvalidInstitutionName))
        else None
      case AddPublicKey(key, _) =>
        if !Enrolled(h, x) then Some(DidFailed(DidNotFound))
        else if !ActiveIn(h, x) then Some(DidFailed(DidInactive))
        else if exists k :: k in KeysIn(cfg, h, x) && k.keyId == KeyName(cfg, key)
          then Some(DidFailed(PublicKeyAlreadyExists))
        else if |KeysIn(cfg, h, x)| >= cfg.maxPublicKeys then Some(DidFailed(TooManyPublicKeys))
        else None
      case RemovePublicKey(id) =>
        if !Enrolled(h, x) then Some(DidFailed(DidNotFound))
        else if !exists k :: k in KeysIn(cfg, h, x) && k.keyId == id then Some(DidFailed(PublicKeyNotFound))
        else None
      case _ =>
        if !Enrolled(h, x) then Some(DidFailed(DidNotFound)) else None
  }

  /** What an accepted call announces. */
  ghost function DidAnnounces(cfg: Config, origin: Origin, call: DidCall): seq<Event> {
    match (origin, call)
    case (Signed(x), CreateDid(_, _)) => [DidCreated(x)]
    case (Signed(x), AddPublicKey(key, _)) => [PublicKeyAdded(x, KeyName(cfg, key))]
    case (Signed(x), RemovePublicKey(id)) => [PublicKeyRemoved(x, id)]
    case (Signed(x), DeactivateDid) => [DidDeactivated(x)]
    case (Signed(x), ReactivateDid) => [DidUpdated(x)]
    case (Signed(x), RegisterInstitution(name)) => [InstitutionRegistered(x, name)]
    case (Root, VerifyInstitution(x)) => [InstitutionVerified(x)]
    case (Root, RevokeInstitution(x)) => [InstitutionRevoked(x)]
    case _ => []
  }

  // ---------- one call ----------

  /** The call ends as the history says: refused for its reason, or accepted with its announcement. */
  ghost predicate DidCallFollows(cfg: Config, h: seq<Entry>, block: nat, d: DidState, origin: Origin, call: DidCall) {
    match DidStep(cfg, block, d, origin, call)
    case Err(error) => DidRefusal(cfg, h, origin, call) == Some(error)
    case Ok(r) =>
      && DidRefusal(cfg, h, origin, call) == None && r.events == DidAnnounces(cfg, origin, call)
      && DidFollows(cfg, h + [Entry(block, origin, ToDid(call))], r.state)
  }

  lemma HasKeyIn(keys: seq<PublicKeyEntry>, id: Bytes32)
    ensures HasKey(keys, id) <==> exists k :: k in keys && k.keyId == id
  {
    if k :| k in keys && k.keyId == id {
      var i :| 0 <= i < |keys| && keys[i] == k;
    }
  }

  lemma RemovalShortens(keys: seq<PublicKeyEntry>, id: Bytes32)
    ensures Filter(keys, KeyDiffers(id)) == Filter(keys, OtherName(id))
    ensures |Filter(keys, KeyDiffers(id))| < |keys| <==> exists k :: k in keys && k.keyId == id
  {
    FilterCongruent(keys, KeyDiffers(id), OtherName(id));
    HasKeyIn(keys, id);
    if !HasKey(keys, id) {
      Identity.AbsentKept(keys, id);
    } else if |Filter(keys, KeyDiffers(id))| == |keys| {
      FilterFull(keys, KeyDiffers(id));
    }
  }

  /** An entry that does not write x's document leaves it. */
  lemma DocUntouched(cfg: Config, h: seq<Entry>, e: Entry, x: AccountId, doc: Option<DidDocument>)
    requires DocFollows(cfg, h, x, doc)
    requires !WritesDocument(x)(e)
    ensures DocFollows(cfg, h + [e], x, doc)
  {
    assert (h + [e])[..|h|] == h;
  }

  lemma InstitutionUntouched(h: seq<Entry>, e: Entry, x: AccountId, i: Option<Institution>)
    requires InstitutionFollows(h, x, i) && !Registers(x)(e) && !Judges(x)(e)
    ensures InstitutionFollows(h + [e], x, i)
  {
    LastSnoc(h, e, Registers(x));
    LastSnoc(h, e, Judges(x));
  }

  /** A call on a document leaves what the history with it says. */
  lemma DocumentWritten(cfg: Config, h: seq<Entry>, block: nat, d: DidState, x: AccountId, call: DidCall)
    requires DidFollows(cfg, h, d) && DidStep(cfg, block, d, Signed(x), call).Ok?
    requires WritesDocument(x)(Entry(block, Signed(x), ToDid(call)))
    ensures DocFollows(cfg, h + [Entry(block, Signed(x), ToDid(call))], x,
                       Get(DidStep(cfg, block, d, Signed(x), call).value.state.docs, x))
  {
    var e := Entry(block, Signed(x), ToDid(call));
    assert (h + [e])[..|h|] == h;
    assert DocFollows(cfg, h, x, Get(d.docs, x));
    match call
    case CreateDid(key, keyType) =>
      KeyNameIs(cfg, key);
      assert [] + [EntryFor(cfg, key, keyType)] == [EntryFor(cfg, key, keyType)];
    case AddPublicKey(key, _) => KeyNameIs(cfg, key);
    case RemovePublicKey(id) => RemovalShortens(KeysIn(cfg, h, x), id);
    case DeactivateDid =>
    case ReactivateDid =>
  }

  lemma InstitutionWritten(cfg: Config, h: seq<Entry>, block: nat, d: DidState, origin: Origin, call: DidCall,
                           x: AccountId)
    requires DidFollows(cfg, h, d) && DidStep(cfg, block, d, origin, call).Ok?
    ensures InstitutionFollows(h + [Entry(block, origin, ToDid(call))], x,
                               Get(DidStep(cfg, block, d, origin, call).value.state.institutions, x))
  {
    var e := Entry(block, origin, ToDid(call));
    assert InstitutionFollows(h, x, Get(d.institutions, x));
    LastSnoc(h, e, Registers(x));
    LastSnoc(h, e, Judges(x));
  }

  lemma DidRefused(cfg: Config, h: seq<Entry>, block: nat, d: DidState, origin: Origin, call: DidCall)
    requires DidFollows(cfg, h, d)
    ensures var r := DidStep(cfg, block, d, origin, call);
      DidRefusal(cfg, h, origin, call) == if r.Ok? then None else Some(r.error)
  {
    if origin.Signed? {
      var x := origin.who;
      assert DocFollows(cfg, h, x, Get(d.docs, x)) && InstitutionFollows(h, x, Get(d.institutions, x));
      match call
      case AddPublicKey(key, _) =>
        KeyNameIs(cfg, key);
        HasKeyIn(KeysIn(cfg, h, x), KeyIdOf(cfg, key));
      case RemovePublicKey(id) => RemovalShortens(KeysIn(cfg, h, x), id);
      case _ =>
    }
    if call.VerifyInstitution? || call.RevokeInstitution? {
      assert InstitutionFollows(h, call.institution, Get(d.institutions, call.institution));
    }
  }

  /** One DID call on storage that follows the history. */
  lemma DidCallStepFollows(cfg: Config, h: seq<Entry>, block: nat, d: DidState, origin: Origin, call: DidCall)
    requires DidFollows(cfg, h, d)
    ensures DidCallFollows(cfg, h, block, d, origin, call)
  {
    DidRefused(cfg, h, block, d, origin, call);
    var r := DidStep(cfg, block, d, origin, call);
    if r.Ok? {
      var e := Entry(block, origin, ToDid(call));
      forall x ensures DocFollows(cfg, h + [e], x, Get(r.value.state.docs, x)) {
        assert DocFollows(cfg, h, x, Get(d.docs, x));
        if WritesDocument(x)(e) {
          DocumentWritten(cfg, h, block, d, x, call);
        } else {
          DocUntouched(cfg, h, e, x, Get(d.docs, x));
        }
      }
      forall x ensures InstitutionFollows(h + [e], x, Get(r.value.state.institutions, x)) {
        InstitutionWritten(cfg, h, block, d, origin, call, x);
      }
      DidAnnounced(cfg, block, d, origin, call);
    }
  }

  lemma DidAnnounced(cfg: Config, block: nat, d: DidState, origin: Origin, call: DidCall)
    requires DidStep(cfg, block, d, origin, call).Ok?
    ensures DidStep(cfg, block, d, origin, call).value.events == DidAnnounces(cfg, origin, call)
  {
    if call.AddPublicKey? {
      KeyNameIs(cfg, call.publicKey);
    }
  }

  /** Calls of the other pallets leave the identities of the history. */
  lemma IdentitiesUntouched(cfg: Config, h: seq<Entry>, e: Entry, d: DidState)
    requires DidFollows(cfg, h, d) && !e.call.ToDid?
    ensures DidFollows(cfg, h + [e], d)
  {
    forall x ensures DocFollows(cfg, h + [e], x, Get(d.docs, x)) {
      DocUntouched(cfg, h, e, x, Get(d.docs, x));
    }
    forall x ensures InstitutionFollows(h + [e], x, Get(d.institutions, x)) {
      InstitutionUntouched(h, e, x, Get(d.institutions, x));
    }
  }
}
