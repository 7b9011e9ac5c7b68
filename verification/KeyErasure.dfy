/** Adding a key and removing it later leaves nothing of it behind, whatever succeeded in between. */
module KeyErasure {
  import opened Prims
  import opened Frame
  import opened Seqs
  import opened Did
  import opened Credential
  import opened Reputation
  import opened Runtime
  import opened Identity

  function AddAction(who: AccountId, publicKey: Bytes32, keyType: KeyType): Action {
    Action.Call(Signed(who), ToDid(AddPublicKey(publicKey, keyType)))
  }

  function RemoveAction(who: AccountId, id: Bytes32): Action {
    Action.Call(Signed(who), ToDid(RemovePublicKey(id)))
  }

  // ---------- key lists ----------

  lemma {:induction false} PresentShortens(keys: seq<PublicKeyEntry>, id: Bytes32)
    requires HasKey(keys, id)
    ensures |Filter(keys, KeyDiffers(id))| < |keys|
  {
    var init, k := keys[..|keys| - 1], keys[|keys| - 1];
    if k.keyId != id {
      var i :| 0 <= i < |keys| && keys[i].keyId == id;
      assert init[i].keyId == id;
      PresentShortens(init, id);
    }
  }

  lemma HasKeyIsMember(keys: seq<PublicKeyEntry>, id: Bytes32)
    ensures HasKey(keys, id) <==> exists k :: k in keys && k.keyId == id
  {
    if k :| k in keys && k.keyId == id {
      var i :| 0 <= i < |keys| && keys[i] == k;
    }
  }

  lemma HasKeyAfterDrop(keys: seq<PublicKeyEntry>, dropped: Bytes32, id: Bytes32)
    ensures HasKey(Filter(keys, KeyDiffers(dropped)), id) <==> HasKey(keys, id) && id != dropped
  {
    HasKeyIsMember(keys, id);
    HasKeyIsMember(Filter(keys, KeyDiffers(dropped)), id);
    forall k: PublicKeyEntry
      ensures k in Filter(keys, KeyDiffers(dropped)) <==> k in keys && k.keyId != dropped
    {
      FilterIn(keys, KeyDiffers(dropped), k);
    }
  }

  // ---------- the same run with and without the key ----------

  /** The document with the key, and the one without; they may differ in their last update too. */
  ghost predicate TwinDocs(with: DidDocument, without: DidDocument, id: Bytes32) {
    && HasKey(with.publicKeys, id) && without.publicKeys == Filter(with.publicKeys, KeyDiffers(id))
    && without == with.(publicKeys := without.publicKeys, updatedAt := without.updatedAt)
  }

  ghost predicate TwinDids(d: DidState, e: DidState, who: AccountId, id: Bytes32) {
    && who in d.docs && who in e.docs && TwinDocs(d.docs[who], e.docs[who], id)
    && e == DidState(d.docs[who := e.docs[who]], d.institutions)
  }

  ghost predicate Twins(s: Storage, t: Storage, who: AccountId, id: Bytes32) {
    TwinDids(s.did, t.did, who, id) && t == s.(did := t.did, log := t.log)
  }

  /** The outcome of a call on the twins, when its outcome on the first is a success. */
  ghost predicate TwinOutcome(cfg: Config, block: nat, d: DidState, e: DidState, origin: Origin, call: DidCall,
                              who: AccountId, id: Bytes32) {
    var r, q := DidStep(cfg, block, d, origin, call), DidStep(cfg, block, e, origin, call);
    r.Ok? ==> q.Ok? && TwinDids(r.value.state, q.value.state, who, id)
  }

  lemma AddOnTwins(cfg: Config, block: nat, d: DidState, e: DidState, call: DidCall, who: AccountId, id: Bytes32)
    requires TwinDids(d, e, who, id) && call.AddPublicKey?
    ensures TwinOutcome(cfg, block, d, e, Signed(who), call, who, id)
  {
    var r := DidStep(cfg, block, d, Signed(who), call);
    if r.Ok? {
      var keys := d.docs[who].publicKeys;
      var entry := PublicKeyEntry(KeyIdOf(cfg, call.publicKey), call.keyType, call.publicKey);
      HasKeyAfterDrop(keys, id, entry.keyId);
      FilterSnoc(keys, entry, KeyDiffers(id));
      DocCallShape(cfg, block, d, who, call);
      HasKeyGrows(keys, entry, id);
      assert DidStep(cfg, block, e, Signed(who), call).Ok?;
      DocCallShape(cfg, block, e, who, call);
    }
  }

  lemma HasKeyGrows(keys: seq<PublicKeyEntry>, entry: PublicKeyEntry, id: Bytes32)
    requires HasKey(keys, id)
    ensures HasKey(keys + [entry], id)
  {
    var i :| 0 <= i < |keys| && keys[i].keyId == id;
    assert (keys + [entry])[i].keyId == id;
  }

  lemma RemoveOnTwins(cfg: Config, block: nat, d: DidState, e: DidState, call: DidCall, who: AccountId, id: Bytes32)
    requires TwinDids(d, e, who, id) && call.RemovePublicKey? && call.keyId != id
    ensures TwinOutcome(cfg, block, d, e, Signed(who), call, who, id)
  {
    var r := DidStep(cfg, block, d, Signed(who), call);
    if r.Ok? {
      var keys := d.docs[who].publicKeys;
      if !HasKey(keys, call.keyId) {
        AbsentKept(keys, call.keyId);
      }
      HasKeyAfterDrop(keys, id, call.keyId);
      HasKeyAfterDrop(keys, call.keyId, id);
      PresentShortens(e.docs[who].publicKeys, call.keyId);
      FilterSwap(keys, KeyDiffers(id), KeyDiffers(call.keyId), KeyDiffers(call.keyId));
      DocCallShape(cfg, block, d, who, call);
      DocCallShape(cfg, block, e, who, call);
    }
  }

  lemma FlagOnTwins(cfg: Config, block: nat, d: DidState, e: DidState, call: DidCall, who: AccountId, id: Bytes32)
    requires TwinDids(d, e, who, id) && (call.DeactivateDid? || call.ReactivateDid?)
    ensures TwinOutcome(cfg, block, d, e, Signed(who), call, who, id)
  {
  }

  lemma RegistryOnTwins(cfg: Config, block: nat, d: DidState, e: DidState, origin: Origin, call: DidCall,
                        who: AccountId, id: Bytes32)
    requires TwinDids(d, e, who, id)
    requires call.RegisterInstitution? || call.VerifyInstitution? || call.RevokeInstitution?
    ensures TwinOutcome(cfg, block, d, e, origin, call, who, id)
  {
  }

  lemma OthersOnTwins(cfg: Config, block: nat, d: DidState, e: DidState, origin: Origin, call: DidCall,
                      who: AccountId, id: Bytes32)
    requires TwinDids(d, e, who, id) && origin != Signed(who)
    requires !call.RegisterInstitution? && !call.VerifyInstitution? && !call.RevokeInstitution?
    ensures TwinOutcome(cfg, block, d, e, origin, call, who, id)
  {
    var r, q := DidStep(cfg, block, d, origin, call), DidStep(cfg, block, e, origin, call);
    if r.Ok? {
      var x := origin.who;
      assert x in d.docs ==> d.docs[x] == e.docs[x];
      assert q.Ok? && q.value.state.docs[x] == r.value.state.docs[x];
      assert r.value.state.docs == d.docs[x := r.value.state.docs[x]];
      assert q.value.state.docs == e.docs[x := r.value.state.docs[x]];
    }
  }

  lemma DidOnTwins(cfg: Config, block: nat, d: DidState, e: DidState, origin: Origin, call: DidCall,
                   who: AccountId, id: Bytes32)
    requires TwinDids(d, e, who, id) && !(origin == Signed(who) && call == RemovePublicKey(id))
    ensures TwinOutcome(cfg, block, d, e, origin, call, who, id)
  {
    if call.RegisterInstitution? || call.VerifyInstitution? || call.RevokeInstitution? {
      RegistryOnTwins(cfg, block, d, e, origin, call, who, id);
    } else if origin != Signed(who) {
      OthersOnTwins(cfg, block, d, e, origin, call, who, id);
    } else {
      match call
      case CreateDid(_, _) =>
      case AddPublicKey(_, _) => AddOnTwins(cfg, block, d, e, call, who, id);
      case RemovePublicKey(_) => RemoveOnTwins(cfg, block, d, e, call, who, id);
      case _ => FlagOnTwins(cfg, block, d, e, call, who, id);
    }
  }

  /** The other pallets see of an identity only whether it exists and is active or verified. */
  lemma CredentialIgnoresKeys(cfg: Config, block: nat, d: DidState, e: DidState, s: CredentialState, origin: Origin,
                              call: CredentialCall, who: AccountId, id: Bytes32)
    requires TwinDids(d, e, who, id)
    ensures CredentialStep(cfg, block, d, s, origin, call) == CredentialStep(cfg, block, e, s, origin, call)
  {
    if call.IssueCredential? && origin.Signed? {
      assert CheckParties(d, origin.who, call.holder) == CheckParties(e, origin.who, call.holder);
    }
  }

  lemma ReputationIgnoresKeys(cfg: Config, block: nat, d: DidState, e: DidState, s: ReputationState, origin: Origin,
                              call: ReputationCall, who: AccountId, id: Bytes32)
    requires TwinDids(d, e, who, id)
    ensures ReputationStep(cfg, block, d, s, origin, call) == ReputationStep(cfg, block, e, s, origin, call)
  {
    if call.Endorse? && origin.Signed? {
      assert CheckEndorsement(cfg, d, origin.who, call.endorsee, call.comment, call.weight)
          == CheckEndorsement(cfg, e, origin.who, call.endorsee, call.comment, call.weight);
    }
  }

  lemma TwinsStep(cfg: Config, s: Storage, t: Storage, who: AccountId, id: Bytes32, a: Action)
    requires Twins(s, t, who, id) && Succeeds(cfg, s, a) && a != RemoveAction(who, id)
    ensures Succeeds(cfg, t, a) && Twins(Next(cfg, s, a), Next(cfg, t, a), who, id)
  {
    NextByPallet(cfg, s, a);
    NextByPallet(cfg, t, a);
    if a.Call? {
      match a.call
      case ToDid(c) => DidOnTwins(cfg, s.block, s.did, t.did, a.origin, c, who, id);
      case ToCredential(c) => CredentialIgnoresKeys(cfg, s.block, s.did, t.did, s.credential, a.origin, c, who, id);
      case ToReputation(c) => ReputationIgnoresKeys(cfg, s.block, s.did, t.did, s.reputation, a.origin, c, who, id);
    }
  }

  lemma {:induction false} TwinsRun(cfg: Config, s: Storage, t: Storage, who: AccountId, id: Bytes32,
                                    actions: seq<Action>)
    requires Twins(s, t, who, id) && AllSucceed(cfg, s, actions) && RemoveAction(who, id) !in actions
    ensures AllSucceed(cfg, t, actions) && Twins(Run(cfg, s, actions), Run(cfg, t, actions), who, id)
  {
    if actions != [] {
      var init, a := actions[..|actions| - 1], actions[|actions| - 1];
      assert a in actions;
      TwinsRun(cfg, s, t, who, id, init);
      TwinsStep(cfg, Run(cfg, s, init), Run(cfg, t, init), who, id, a);
    }
  }

  // ---------- adding first, removing last ----------

  lemma AddMakesTwins(cfg: Config, s: Storage, who: AccountId, publicKey: Bytes32, keyType: KeyType)
    requires Succeeds(cfg, s, AddAction(who, publicKey, keyType))
    ensures Twins(Next(cfg, s, AddAction(who, publicKey, keyType)), s, who, KeyIdOf(cfg, publicKey))
  {
    var call, id := AddPublicKey(publicKey, keyType), KeyIdOf(cfg, publicKey);
    NextByPallet(cfg, s, AddAction(who, publicKey, keyType));
    DocCallShape(cfg, s.block, s.did, who, call);
    var keys, entry := s.did.docs[who].publicKeys, PublicKeyEntry(id, keyType, publicKey);
    AbsentKept(keys, id);
    FilterSnoc(keys, entry, KeyDiffers(id));
    assert (keys + [entry])[|keys|].keyId == id;
    var d := Next(cfg, s, AddAction(who, publicKey, keyType)).did;
    assert s.did.docs == d.docs[who := s.did.docs[who]];
  }

  lemma RemoveEndsTwins(cfg: Config, s: Storage, t: Storage, who: AccountId, id: Bytes32)
    requires Twins(s, t, who, id) && s.did.docs[who].controller == who
    ensures Succeeds(cfg, s, RemoveAction(who, id))
    ensures EqualButStamp(Next(cfg, s, RemoveAction(who, id)), t, who)
  {
    PresentShortens(s.did.docs[who].publicKeys, id);
    NextByPallet(cfg, s, RemoveAction(who, id));
    DocCallShape(cfg, s.block, s.did, who, RemovePublicKey(id));
    var d := Next(cfg, s, RemoveAction(who, id)).did;
    assert d.docs == t.did.docs[who := d.docs[who]];
  }

  /** s is t with who's document stamped by the current block, the log aside. */
  ghost predicate EqualButStamp(s: Storage, t: Storage, who: AccountId) {
    && who in t.did.docs
    && s == t.(log := s.log, did := t.did.(docs := t.did.docs[who := t.did.docs[who].(updatedAt := s.block)]))
  }

  /** Key erasure, from any storage: add a key, make any successful calls to all pallets but that
      key's removal, then remove it. The calls succeed without the key too, the removal succeeds, and
      all storage ends as after the calls alone, except that the document is stamped by the removal. */
  lemma KeyErasure(cfg: Config, s: Storage, who: AccountId, publicKey: Bytes32, keyType: KeyType, between: seq<Action>)
    requires Succeeds(cfg, s, AddAction(who, publicKey, keyType))
    requires AllSucceed(cfg, Next(cfg, s, AddAction(who, publicKey, keyType)), between)
    requires RemoveAction(who, KeyIdOf(cfg, publicKey)) !in between
    ensures AllSucceed(cfg, s, between)
    ensures var with := Run(cfg, Next(cfg, s, AddAction(who, publicKey, keyType)), between);
      && Succeeds(cfg, with, RemoveAction(who, KeyIdOf(cfg, publicKey)))
      && EqualButStamp(Next(cfg, with, RemoveAction(who, KeyIdOf(cfg, publicKey))), Run(cfg, s, between), who)
  {
    var s1, id := Next(cfg, s, AddAction(who, publicKey, keyType)), KeyIdOf(cfg, publicKey);
    AddMakesTwins(cfg, s, who, publicKey, keyType);
    TwinsRun(cfg, s1, s, who, id, between);
    IdentityIsPermanent(cfg, s1, between);
    AddedIsControlled(cfg, s, who, publicKey, keyType);
    RemoveEndsTwins(cfg, Run(cfg, s1, between), Run(cfg, s, between), who, id);
  }

  lemma AddedIsControlled(cfg: Config, s: Storage, who: AccountId, publicKey: Bytes32, keyType: KeyType)
    requires Succeeds(cfg, s, AddAction(who, publicKey, keyType))
    ensures who in Next(cfg, s, AddAction(who, publicKey, keyType)).did.docs
    ensures Next(cfg, s, AddAction(who, publicKey, keyType)).did.docs[who].controller == who
  {
  }
}
