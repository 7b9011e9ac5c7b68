/** The DID pallet over runs: what every document and institution satisfies, key removal,
    permanence, and the errors no reachable state can produce. */
module Identity {
  import opened Prims
  import opened Frame
  import opened Seqs
  import opened Did
  import opened Credential
  import opened Reputation
  import opened Runtime

  ghost predicate DistinctKeys(keys: seq<PublicKeyEntry>) {
    forall i, j :: 0 <= i < j < |keys| ==> keys[i].keyId != keys[j].keyId
  }

  ghost predicate KeysOk(cfg: Config, keys: seq<PublicKeyEntry>) {
    && |keys| <= cfg.maxPublicKeys
    && DistinctKeys(keys)
    && (forall i :: 0 <= i < |keys| ==> keys[i].keyId == KeyIdOf(cfg, keys[i].publicKey))
  }

  ghost predicate DocOk(cfg: Config, block: nat, a: AccountId, doc: DidDocument) {
    doc.controller == a && KeysOk(cfg, doc.publicKeys) && doc.createdAt <= doc.updatedAt <= block
  }

  ghost predicate InstitutionOk(block: nat, docs: map<AccountId, DidDocument>, a: AccountId, i: Institution) {
    i.did == a && i.name != [] && a in docs && docs[a].createdAt <= i.registeredAt <= block
  }

  ghost predicate IdentityOk(cfg: Config, block: nat, d: DidState) {
    && (forall a :: a in d.docs ==> DocOk(cfg, block, a, d.docs[a]))
    && (forall a :: a in d.institutions ==> InstitutionOk(block, d.docs, a, d.institutions[a]))
  }

  // ---------- keys ----------

  lemma AbsentKept(keys: seq<PublicKeyEntry>, id: Bytes32)
    requires !HasKey(keys, id)
    ensures Filter(keys, KeyDiffers(id)) == keys
  {
    forall k | k in keys ensures KeyDiffers(id)(k) {
      var i :| 0 <= i < |keys| && keys[i] == k;
    }
    FilterAll(keys, KeyDiffers(id));
  }

  /** Removing a present key id drops exactly one entry and keeps the order of the others;
      removing an absent one drops nothing. */
  lemma RemoveKey(keys: seq<PublicKeyEntry>, id: Bytes32)
    requires DistinctKeys(keys)
    ensures HasKey(keys, id) ==>
      exists i :: 0 <= i < |keys| && keys[i].keyId == id && Filter(keys, KeyDiffers(id)) == keys[..i] + keys[i + 1..]
    ensures !HasKey(keys, id) ==> Filter(keys, KeyDiffers(id)) == keys
  {
    if HasKey(keys, id) {
      var i :| 0 <= i < |keys| && keys[i].keyId == id;
      FilterRemovesAt(keys, i, KeyDiffers(id));
    } else {
      AbsentKept(keys, id);
    }
  }

  lemma RemoveKeepsKeysOk(cfg: Config, keys: seq<PublicKeyEntry>, id: Bytes32)
    requires KeysOk(cfg, keys)
    ensures KeysOk(cfg, Filter(keys, KeyDiffers(id)))
  {
    RemoveKey(keys, id);
    if HasKey(keys, id) {
      var i :| 0 <= i < |keys| && keys[i].keyId == id && Filter(keys, KeyDiffers(id)) == keys[..i] + keys[i + 1..];
      WithoutOne(cfg, keys, i);
    }
  }

  lemma WithoutOne(cfg: Config, keys: seq<PublicKeyEntry>, i: nat)
    requires KeysOk(cfg, keys) && i < |keys|
    ensures KeysOk(cfg, keys[..i] + keys[i + 1..])
  {
    var rest := keys[..i] + keys[i + 1..];
    assert forall j :: 0 <= j < |rest| ==> rest[j] == keys[if j < i then j else j + 1];
  }

  /** The list without position i, which held the given key id. */
  ghost predicate RemovedOne(before: seq<PublicKeyEntry>, after: seq<PublicKeyEntry>, id: Bytes32) {
    exists i :: 0 <= i < |before| && before[i].keyId == id && after == before[..i] + before[i + 1..]
  }

  /** Which removals succeed in a reachable state, and the key list they leave. */
  lemma RemovePublicKeyExactly(cfg: Config, actions: seq<Action>, who: AccountId, id: Bytes32)
    ensures var s := After(cfg, actions).did;
      var r := DidStep(cfg, After(cfg, actions).block, s, Signed(who), RemovePublicKey(id));
      && (r.Ok? <==> who in s.docs && HasKey(s.docs[who].publicKeys, id))
      && (r.Ok? ==> who in r.value.state.docs
                    && RemovedOne(s.docs[who].publicKeys, r.value.state.docs[who].publicKeys, id))
  {
    IdentityInvariant(cfg, actions);
    var s := After(cfg, actions).did;
    if who in s.docs {
      assert DocOk(cfg, After(cfg, actions).block, who, s.docs[who]);
      RemoveKey(s.docs[who].publicKeys, id);
    }
  }

  // ---------- the invariant ----------

  lemma PutDoc(cfg: Config, block: nat, d: DidState, a: AccountId, doc: DidDocument)
    requires IdentityOk(cfg, block, d) && DocOk(cfg, block, a, doc)
    requires a in d.docs ==> doc.createdAt == d.docs[a].createdAt
    ensures IdentityOk(cfg, block, d.(docs := d.docs[a := doc]))
  {
    var docs := d.docs[a := doc];
    forall i | i in d.institutions ensures InstitutionOk(block, docs, i, d.institutions[i]) {
      assert InstitutionOk(block, d.docs, i, d.institutions[i]);
    }
  }

  /** The four calls on a document write that document only, stamp it, and change its keys or its flag. */
  lemma DocCallShape(cfg: Config, block: nat, d: DidState, who: AccountId, call: DidCall)
    requires who in d.docs && DidStep(cfg, block, d, Signed(who), call).Ok?
    requires call.AddPublicKey? || call.RemovePublicKey? || call.DeactivateDid? || call.ReactivateDid?
    ensures var doc, t := d.docs[who], DidStep(cfg, block, d, Signed(who), call).value.state;
      && who in t.docs && t == d.(docs := d.docs[who := t.docs[who]])
      && t.docs[who] == doc.(publicKeys := t.docs[who].publicKeys, active := t.docs[who].active, updatedAt := block)
      && match call
      case AddPublicKey(publicKey, keyType) =>
        var id := KeyIdOf(cfg, publicKey);
        && !HasKey(doc.publicKeys, id) && |doc.publicKeys| < cfg.maxPublicKeys
        && t.docs[who].publicKeys == doc.publicKeys + [PublicKeyEntry(id, keyType, publicKey)]
      case RemovePublicKey(id) => t.docs[who].publicKeys == Filter(doc.publicKeys, KeyDiffers(id))
      case _ => t.docs[who].publicKeys == doc.publicKeys
  {
  }

  lemma DocCallKeepsIdentity(cfg: Config, block: nat, d: DidState, who: AccountId, call: DidCall)
    requires IdentityOk(cfg, block, d) && who in d.docs && DidStep(cfg, block, d, Signed(who), call).Ok?
    requires call.AddPublicKey? || call.RemovePublicKey? || call.DeactivateDid? || call.ReactivateDid?
    ensures IdentityOk(cfg, block, DidStep(cfg, block, d, Signed(who), call).value.state)
  {
    var doc := d.docs[who];
    assert DocOk(cfg, block, who, doc);
    DocCallShape(cfg, block, d, who, call);
    if call.RemovePublicKey? {
      RemoveKeepsKeysOk(cfg, doc.publicKeys, call.keyId);
    }
    PutDoc(cfg, block, d, who, DidStep(cfg, block, d, Signed(who), call).value.state.docs[who]);
  }

  lemma InstitutionCallKeepsIdentity(cfg: Config, block: nat, d: DidState, origin: Origin, call: DidCall)
    requires IdentityOk(cfg, block, d) && DidStep(cfg, block, d, origin, call).Ok?
    requires call.RegisterInstitution? || call.VerifyInstitution? || call.RevokeInstitution?
    ensures IdentityOk(cfg, block, DidStep(cfg, block, d, origin, call).value.state)
  {
    var t := DidStep(cfg, block, d, origin, call).value.state;
    assert t.docs == d.docs;
    forall a | a in t.institutions ensures InstitutionOk(block, t.docs, a, t.institutions[a]) {
      if a in d.institutions {
        assert InstitutionOk(block, d.docs, a, d.institutions[a]);
      } else {
        assert DocOk(cfg, block, a, d.docs[a]);
      }
    }
  }

  lemma StepKeepsIdentity(cfg: Config, block: nat, d: DidState, origin: Origin, call: DidCall)
    requires IdentityOk(cfg, block, d) && DidStep(cfg, block, d, origin, call).Ok?
    ensures IdentityOk(cfg, block, DidStep(cfg, block, d, origin, call).value.state)
  {
    match call
    case CreateDid(publicKey, keyType) =>
      PutDoc(cfg, block, d, origin.who,
             DidDocument(origin.who, [PublicKeyEntry(KeyIdOf(cfg, publicKey), keyType, publicKey)], block, block, true));
    case AddPublicKey(_, _) => DocCallKeepsIdentity(cfg, block, d, origin.who, call);
    case RemovePublicKey(_) => DocCallKeepsIdentity(cfg, block, d, origin.who, call);
    case DeactivateDid => DocCallKeepsIdentity(cfg, block, d, origin.who, call);
    case ReactivateDid => DocCallKeepsIdentity(cfg, block, d, origin.who, call);
    case _ => InstitutionCallKeepsIdentity(cfg, block, d, origin, call);
  }

  lemma LaterBlockKeepsIdentity(cfg: Config, block: nat, later: nat, d: DidState)
    requires IdentityOk(cfg, block, d) && block <= later
    ensures IdentityOk(cfg, later, d)
  {
    forall a | a in d.docs ensures DocOk(cfg, later, a, d.docs[a]) {
      assert DocOk(cfg, block, a, d.docs[a]);
    }
    forall a | a in d.institutions ensures InstitutionOk(later, d.docs, a, d.institutions[a]) {
      assert InstitutionOk(block, d.docs, a, d.institutions[a]);
    }
  }

  /** In every reachable state each document is controlled by its own account, its keys are
      distinct, within bound and named by their hash, and its times are in order; each
      institution has a name and a document at least as old. */
  lemma {:induction false} IdentityInvariant(cfg: Config, actions: seq<Action>)
    ensures IdentityOk(cfg, After(cfg, actions).block, After(cfg, actions).did)
  {
    if actions != [] {
      var init, a := actions[..|actions| - 1], actions[|actions| - 1];
      IdentityInvariant(cfg, init);
      var s := After(cfg, init);
      if a.NextBlock? {
        LaterBlockKeepsIdentity(cfg, s.block, s.block + 1, s.did);
      } else if a.call.ToDid? && Succeeds(cfg, s, a) {
        StepKeepsIdentity(cfg, s.block, s.did, a.origin, a.call.did);
      }
    }
  }

  // ---------- across pallets ----------

  lemma NoUnauthorizedDidCall(cfg: Config, block: nat, d: DidState, origin: Origin, call: DidCall)
    requires IdentityOk(cfg, block, d)
    ensures DidStep(cfg, block, d, origin, call) != Err(DidFailed(DidError.NotAuthorized))
  {
    if origin.Signed? && origin.who in d.docs {
      assert DocOk(cfg, block, origin.who, d.docs[origin.who]);
    }
  }

  lemma NoIssuerWithoutDid(cfg: Config, block: nat, d: DidState, s: CredentialState, origin: Origin,
                           call: CredentialCall)
    requires IdentityOk(cfg, block, d)
    ensures CredentialStep(cfg, block, d, s, origin, call) != Err(CredentialFailed(IssuerHasNoDid))
  {
    if origin.Signed? && origin.who in d.institutions {
      assert InstitutionOk(block, d.docs, origin.who, d.institutions[origin.who]);
    }
  }

  lemma OwnErrorsOnly(cfg: Config, block: nat, d: DidState, s: ReputationState, origin: Origin, call: ReputationCall)
    ensures var r := ReputationStep(cfg, block, d, s, origin, call);
      r.Err? ==> r.error.BadOrigin? || r.error.ReputationFailed?
  {
  }

  /** From genesis, no call of any pallet ends in these two errors. */
  lemma UnreachableErrors(cfg: Config, actions: seq<Action>, origin: Origin, call: RuntimeCall)
    ensures Step(cfg, After(cfg, actions), origin, call) != Err(CredentialFailed(IssuerHasNoDid))
    ensures Step(cfg, After(cfg, actions), origin, call) != Err(DidFailed(DidError.NotAuthorized))
  {
    IdentityInvariant(cfg, actions);
    var s := After(cfg, actions);
    match call
    case ToDid(c) => NoUnauthorizedDidCall(cfg, s.block, s.did, origin, c);
    case ToCredential(c) => NoIssuerWithoutDid(cfg, s.block, s.did, s.credential, origin, c);
    case ToReputation(c) => OwnErrorsOnly(cfg, s.block, s.did, s.reputation, origin, c);
  }

  /** Later in a run the same accounts are there, with what was fixed at creation. */
  ghost predicate Preserved(d: DidState, e: DidState) {
    && (forall a :: a in d.docs ==>
          a in e.docs && e.docs[a].controller == d.docs[a].controller && e.docs[a].createdAt == d.docs[a].createdAt)
    && (forall a :: a in d.institutions ==>
          a in e.institutions && e.institutions[a].(verified := d.institutions[a].verified) == d.institutions[a])
  }

  lemma StepPreserves(cfg: Config, block: nat, d: DidState, origin: Origin, call: DidCall)
    requires DidStep(cfg, block, d, origin, call).Ok?
    ensures Preserved(d, DidStep(cfg, block, d, origin, call).value.state)
  {
  }

  lemma PreservedTransitive(d: DidState, e: DidState, f: DidState)
    requires Preserved(d, e) && Preserved(e, f)
    ensures Preserved(d, f)
  {
  }

  /** Documents and institutions are never deleted, whatever is called. */
  lemma {:induction false} IdentityIsPermanent(cfg: Config, s: Storage, actions: seq<Action>)
    ensures Preserved(s.did, Run(cfg, s, actions).did)
  {
    if actions != [] {
      var init, a := actions[..|actions| - 1], actions[|actions| - 1];
      IdentityIsPermanent(cfg, s, init);
      var m := Run(cfg, s, init);
      if a.Call? && a.call.ToDid? && Succeeds(cfg, m, a) {
        StepPreserves(cfg, m.block, m.did, a.origin, a.call.did);
        PreservedTransitive(s.did, m.did, Run(cfg, s, actions).did);
      }
    }
  }
}
