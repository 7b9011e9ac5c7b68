/** What the ledger says about whole runs of the credential pallet: the life of a
    credential, verification, and conservation. */
module CredentialRuns {
  import opened Prims
  import opened Frame
  import opened Seqs
  import opened Did
  import opened Credential
  import opened Runtime
  import opened CredentialLedger

  // ---------- what is stored, and where the hash index leads ----------

  /** Every entry is stored under its own id with the fields of its issue, and indexed by its hash. */
  ghost predicate EntriesStored(s: CredentialState, l: Ledger) {
    forall k :: 0 <= k < |l| ==>
      && l[k].credentialId in s.credentials && SameIssue(s.credentials[l[k].credentialId], l[k])
      && l[k].credentialHash in s.byHash && s.byHash[l[k].credentialHash] == l[k].credentialId
  }

  /** The hash leads to the credential with that hash. */
  predicate LeadsHome(s: CredentialState, hash: Bytes32) {
    hash in s.byHash && s.byHash[hash] in s.credentials && s.credentials[s.byHash[hash]].credentialHash == hash
  }

  ghost predicate IndexSound(s: CredentialState) {
    forall h :: h in s.byHash ==> LeadsHome(s, h)
  }

  /** Every stored credential is found through its hash. */
  ghost predicate IndexComplete(s: CredentialState) {
    forall id :: id in s.credentials ==>
      s.credentials[id].credentialHash in s.byHash && s.byHash[s.credentials[id].credentialHash] == id
  }

  /** A stored credential is the last one issued under its id. */
  lemma StoredIsLast(cfg: Config, s: CredentialState, l: Ledger, id: Bytes32) returns (k: nat)
    requires Refines(cfg, s, l) && id in s.credentials
    ensures k < |l| && l[k].credentialId == id && SameIssue(s.credentials[id], l[k])
    ensures forall j :: k < j < |l| ==> l[j].credentialId != id
  {
    k := LatestIsLast(l, id);
  }

  lemma IndexedIsIssued(cfg: Config, s: CredentialState, l: Ledger, hash: Bytes32) returns (k: nat)
    requires Refines(cfg, s, l) && hash in s.byHash
    ensures k < |l| && l[k].credentialHash == hash && s.byHash[hash] == l[k].credentialId
    ensures s.byHash[hash] in s.credentials
  {
    HashIndexKeys(l, hash);
    k :| 0 <= k < |l| && l[k].credentialHash == hash;
    HashIndexAt(l, k);
    LatestKeys(l, l[k].credentialId);
  }

  lemma HashOccursOnce(l: Ledger, j: nat, k: nat)
    requires DistinctHashes(l) && j < |l| && k < |l| && l[j].credentialHash == l[k].credentialHash
    ensures j == k
  {
    if j < k {
    } else if k < j {
    }
  }

  /** An indexed hash leads home exactly when its entry's id was not drawn again later. */
  lemma LeadsHomeExactly(cfg: Config, s: CredentialState, l: Ledger, hash: Bytes32)
    requires Refines(cfg, s, l) && hash in s.byHash
    ensures LeadsHome(s, hash) <==> Undisturbed(l, hash)
  {
    var k := IndexedIsIssued(cfg, s, l, hash);
    var id := l[k].credentialId;
    var j := StoredIsLast(cfg, s, l, id);
    if LeadsHome(s, hash) {
      HashOccursOnce(l, j, k);
      forall i | 0 <= i < |l| && l[i].credentialHash == hash ensures NotRedrawn(l[..i + 1], l, l[i].credentialId) {
        HashOccursOnce(l, i, k);
      }
    }
    if Undisturbed(l, hash) {
      assert NotRedrawn(l[..k + 1], l, id);
      assert j == k;
    }
  }

  lemma StoredIsIndexed(cfg: Config, s: CredentialState, l: Ledger)
    requires Refines(cfg, s, l)
    ensures IndexComplete(s)
  {
    forall id | id in s.credentials
      ensures s.credentials[id].credentialHash in s.byHash && s.byHash[s.credentials[id].credentialHash] == id
    {
      var k := StoredIsLast(cfg, s, l, id);
      HashIndexAt(l, k);
    }
  }

  lemma EntriesAreStored(cfg: Config, s: CredentialState, l: Ledger)
    requires Refines(cfg, s, l) && DistinctIds(l)
    ensures EntriesStored(s, l)
  {
    forall k | 0 <= k < |l|
      ensures l[k].credentialId in s.credentials && SameIssue(s.credentials[l[k].credentialId], l[k])
      ensures l[k].credentialHash in s.byHash && s.byHash[l[k].credentialHash] == l[k].credentialId
    {
      HashIndexAt(l, k);
      var i := IndexedIsIssued(cfg, s, l, l[k].credentialHash);
      var j := StoredIsLast(cfg, s, l, l[k].credentialId);
      assert j == k;
    }
  }

  lemma SoundIndexNeedsDistinctIds(cfg: Config, s: CredentialState, l: Ledger)
    requires Refines(cfg, s, l) && IndexSound(s)
    ensures DistinctIds(l)
  {
    forall i, j | 0 <= i < j < |l| ensures l[i].credentialId != l[j].credentialId {
      HashIndexAt(l, i);
      HashIndexAt(l, j);
      assert LeadsHome(s, l[i].credentialHash) && LeadsHome(s, l[j].credentialHash);
    }
  }

  lemma StoreCounts(cfg: Config, s: CredentialState, l: Ledger)
    requires Refines(cfg, s, l)
    ensures |s.byHash| == |l| && |s.credentials| <= |l| && (|s.credentials| == |l| <==> DistinctIds(l))
  {
    HashIndexCounts(l);
    LatestCounts(l);
    assert |s.credentials| == |s.credentials.Keys| == |Latest(l).Keys|;
  }

  /** Nothing is stored that the index does not find. The storage is the whole ledger - each entry
      under its id, as many credentials as issues - exactly when ids are distinct. */
  lemma StoreIsLedger(cfg: Config, actions: seq<Action>)
    ensures IndexComplete(After(cfg, actions).credential)
    ensures EntriesStored(After(cfg, actions).credential, Issued(cfg, actions)) <==> DistinctIds(Issued(cfg, actions))
    ensures |After(cfg, actions).credential.credentials| == |Issued(cfg, actions)| <==> DistinctIds(Issued(cfg, actions))
  {
    CredentialsRefineLedger(cfg, actions);
    var s, l := After(cfg, actions).credential, Issued(cfg, actions);
    StoredIsIndexed(cfg, s, l);
    StoreCounts(cfg, s, l);
    if DistinctIds(l) {
      EntriesAreStored(cfg, s, l);
    }
    if EntriesStored(s, l) {
      forall i, j | 0 <= i < j < |l| ensures l[i].credentialId != l[j].credentialId {
        assert SameIssue(s.credentials[l[i].credentialId], l[i]) && SameIssue(s.credentials[l[j].credentialId], l[j]);
      }
    }
  }

  /** The hash index never dangles. One hash leads home exactly when its id was not drawn again; all
      do exactly when no two buffers collide and no pair recurs after the counter has saturated. */
  lemma IndexIsSoundExactly(cfg: Config, actions: seq<Action>)
    ensures forall h :: h in After(cfg, actions).credential.byHash ==>
      After(cfg, actions).credential.byHash[h] in After(cfg, actions).credential.credentials
    ensures forall h :: h in After(cfg, actions).credential.byHash ==>
      (LeadsHome(After(cfg, actions).credential, h) <==> Undisturbed(Issued(cfg, actions), h))
    ensures IndexSound(After(cfg, actions).credential) <==> DistinctIds(Issued(cfg, actions))
    ensures IndexSound(After(cfg, actions).credential) <==>
            CollisionFree(cfg, Issued(cfg, actions)) && NoRepeatAtMaximum(Issued(cfg, actions))
  {
    CredentialsRefineLedger(cfg, actions);
    var s, l := After(cfg, actions).credential, Issued(cfg, actions);
    forall h | h in s.byHash ensures s.byHash[h] in s.credentials && (LeadsHome(s, h) <==> Undisturbed(l, h)) {
      var k := IndexedIsIssued(cfg, s, l, h);
      LeadsHomeExactly(cfg, s, l, h);
    }
    if DistinctIds(l) {
      forall h | h in s.byHash ensures Undisturbed(l, h) {
      }
    }
    if IndexSound(s) {
      SoundIndexNeedsDistinctIds(cfg, s, l);
    }
    DistinctIdsExactly(cfg, actions);
  }

  // ---------- issuing ----------

  /** In a reachable state issuing succeeds exactly when the issuer is verified, both parties are
      active, the hash is new to the whole history and both parties' histories have room. */
  lemma IssueSucceedsExactly(cfg: Config, actions: seq<Action>, origin: Origin, call: CredentialCall)
    requires call.IssueCredential?
    ensures Succeeds(cfg, After(cfg, actions), Action.Call(origin, ToCredential(call))) <==>
      && origin.Signed?
      && IsVerified(After(cfg, actions).did, origin.who) && IsActive(After(cfg, actions).did, origin.who)
      && IsActive(After(cfg, actions).did, call.holder)
      && !HashIssued(Issued(cfg, actions), call.credentialHash)
      && |HolderRefs(Issued(cfg, actions), call.holder)| < cfg.maxCredentialsPerHolder
      && |IssuerIds(Issued(cfg, actions), origin.who)| < cfg.maxCredentialsPerHolder
  {
    CredentialsRefineLedger(cfg, actions);
    var s := After(cfg, actions);
    IssueOutcome(cfg, s, Issued(cfg, actions), origin, call);
  }

  // ---------- verification ----------

  predicate Live(c: Credential, block: nat) {
    c.status == Active && (c.expiresAt.None? || block <= c.expiresAt.value)
  }

  /** A scan of everything stored finds a live credential with this hash. */
  ghost predicate ScanFinds(s: CredentialState, block: nat, hash: Bytes32) {
    exists id :: id in s.credentials && s.credentials[id].credentialHash == hash && Live(s.credentials[id], block)
  }

  function VerifyOutcome(cfg: Config, s: Storage, who: AccountId, hash: Bytes32): Outcome<()> {
    var r := CredentialStep(cfg, s.block, s.did, s.credential, Signed(who), VerifyCredential(hash));
    if r.Ok? then Ok(()) else Err(r.error)
  }

  lemma VerifyFollowsIndex(cfg: Config, s: Storage, who: AccountId, hash: Bytes32)
    ensures VerifyOutcome(cfg, s, who, hash).Ok? <==>
            hash in s.credential.byHash && s.credential.byHash[hash] in s.credential.credentials
            && Live(s.credential.credentials[s.credential.byHash[hash]], s.block)
    ensures VerifyOutcome(cfg, s, who, hash) == Err(CredentialFailed(CredentialNotFound)) <==>
            !(hash in s.credential.byHash && s.credential.byHash[hash] in s.credential.credentials)
  {
  }

  /** What verification makes of the credential that the hash leads to. */
  lemma VerifyReads(cfg: Config, s: Storage, who: AccountId, hash: Bytes32)
    requires hash in s.credential.byHash && s.credential.byHash[hash] in s.credential.credentials
    ensures var c := s.credential.credentials[s.credential.byHash[hash]];
      VerifyOutcome(cfg, s, who, hash) ==
      if c.status != Active then Err(CredentialFailed(CredentialNotActive))
      else if c.expiresAt.None? || s.block <= c.expiresAt.value then Ok(())
      else Err(CredentialFailed(CredentialExpired))
  {
  }

  lemma LookupIsScan(s: CredentialState, block: nat, hash: Bytes32)
    requires IndexComplete(s)
    ensures ScanFinds(s, block, hash) <==> LeadsHome(s, hash) && Live(s.credentials[s.byHash[hash]], block)
  {
  }

  /** In every reachable state verification says "not found" exactly for hashes never issued, and a
      full scan finds a live credential exactly when verification succeeds and the id behind the
      hash was not drawn again. */
  lemma VerifyIsScan(cfg: Config, actions: seq<Action>, who: AccountId, hash: Bytes32)
    ensures VerifyOutcome(cfg, After(cfg, actions), who, hash) == Err(CredentialFailed(CredentialNotFound)) <==>
            !HashIssued(Issued(cfg, actions), hash)
    ensures ScanFinds(After(cfg, actions).credential, After(cfg, actions).block, hash) <==>
            VerifyOutcome(cfg, After(cfg, actions), who, hash).Ok? && Undisturbed(Issued(cfg, actions), hash)
  {
    var s := After(cfg, actions);
    CredentialsRefineLedger(cfg, actions);
    StoreIsLedger(cfg, actions);
    IndexIsSoundExactly(cfg, actions);
    HashIndexKeys(Issued(cfg, actions), hash);
    VerifyFollowsIndex(cfg, s, who, hash);
    LookupIsScan(s.credential, s.block, hash);
  }

  /** Entry k is stored as issued and has not been revoked. */
  ghost predicate InForce(cfg: Config, actions: seq<Action>, k: nat) {
    var s, l := After(cfg, actions).credential, Issued(cfg, actions);
    && k < |l| && Undisturbed(l, l[k].credentialHash)
    && l[k].credentialId in s.credentials && s.credentials[l[k].credentialId].status == Active
  }

  /** A credential in force verifies up to and including its last block, and is expired after it. */
  lemma ExpiryDecides(cfg: Config, actions: seq<Action>, k: nat, who: AccountId)
    requires InForce(cfg, actions, k)
    ensures var c := Issued(cfg, actions)[k];
      VerifyOutcome(cfg, After(cfg, actions), who, c.credentialHash) ==
      if c.expiresAt.None? || After(cfg, actions).block <= c.expiresAt.value then Ok(())
      else Err(CredentialFailed(CredentialExpired))
  {
    var s, l := After(cfg, actions), Issued(cfg, actions);
    CredentialsRefineLedger(cfg, actions);
    HashIndexAt(l, k);
    LeadsHomeExactly(cfg, s.credential, l, l[k].credentialHash);
    var j := StoredIsLast(cfg, s.credential, l, l[k].credentialId);
    HashOccursOnce(l, j, k);
    VerifyReads(cfg, s, who, l[k].credentialHash);
  }

  /** The boundary: in its last block a credential verifies, and one block later it is expired. */
  lemma ExpiryBoundary(cfg: Config, actions: seq<Action>, k: nat, who: AccountId)
    requires InForce(cfg, actions, k) && Issued(cfg, actions)[k].expiresAt == Some(After(cfg, actions).block)
    ensures var hash := Issued(cfg, actions)[k].credentialHash;
      && VerifyOutcome(cfg, After(cfg, actions), who, hash) == Ok(())
      && VerifyOutcome(cfg, After(cfg, actions + [NextBlock]), who, hash) == Err(CredentialFailed(CredentialExpired))
  {
    IssuedSnoc(cfg, actions, NextBlock);
    ExpiryDecides(cfg, actions, k, who);
    ExpiryDecides(cfg, actions + [NextBlock], k, who);
  }

  predicate IdentityOrReputation(a: Action) {
    a.Call? && !a.call.ToCredential?
  }

  /** No DID or reputation call, and no number of them, changes what verification says. */
  lemma {:induction false} VerifyIgnoresIdentity(cfg: Config, s: Storage, actions: seq<Action>, who: AccountId,
                                                 hash: Bytes32)
    requires forall a :: a in actions ==> IdentityOrReputation(a)
    ensures VerifyOutcome(cfg, Run(cfg, s, actions), who, hash) == VerifyOutcome(cfg, s, who, hash)
  {
    if actions != [] {
      var init, a := actions[..|actions| - 1], actions[|actions| - 1];
      assert IdentityOrReputation(a);
      VerifyIgnoresIdentity(cfg, s, init, who, hash);
    }
  }

  // ---------- the life of a credential ----------

  /** What a credential may become: nothing set at issue changes, revocation is final and
      freezes the metadata, and no credential is ever marked expired. */
  predicate MayBecome(c: Credential, d: Credential) {
    SameIssue(c, d) && d.status != Expired && (c.status == Revoked ==> d == c)
  }

  lemma StepKeepsCredential(cfg: Config, s: Storage, l: Ledger, a: Action, id: Bytes32)
    requires Refines(cfg, s.credential, l) && id in s.credential.credentials
    requires NotRedrawn(l, NextLedger(cfg, s, l, a), id)
    ensures id in Next(cfg, s, a).credential.credentials
    ensures MayBecome(s.credential.credentials[id], Next(cfg, s, a).credential.credentials[id])
  {
    if a.Call? && a.call.ToCredential? && Succeeds(cfg, s, a) {
      if a.call.credential.IssueCredential? {
        IssueKeepsOthers(cfg, s, l, a.origin, a.call.credential, id);
        assert s.credential.credentials[id].status != Expired;
      } else {
        OthersKeepCredential(cfg, s, l, a.origin, a.call.credential, id);
      }
    } else {
      NextByPallet(cfg, s, a);
      assert s.credential.credentials[id].status != Expired;
    }
  }

  lemma IssueKeepsOthers(cfg: Config, s: Storage, l: Ledger, origin: Origin, call: CredentialCall, id: Bytes32)
    requires Refines(cfg, s.credential, l) && call.IssueCredential? && id in s.credential.credentials
    requires Succeeds(cfg, s, Action.Call(origin, ToCredential(call)))
    requires NotRedrawn(l, NextLedger(cfg, s, l, Action.Call(origin, ToCredential(call))), id)
    ensures id in Next(cfg, s, Action.Call(origin, ToCredential(call))).credential.credentials
    ensures Next(cfg, s, Action.Call(origin, ToCredential(call))).credential.credentials[id]
            == s.credential.credentials[id]
  {
    var c := IssueAppends(cfg, s, l, origin, call);
    assert (l + [c])[|l|].credentialId != id;
    IssueWritesOneId(cfg, s, origin, call, c.credentialId);
  }

  lemma IssueWritesOneId(cfg: Config, s: Storage, origin: Origin, call: CredentialCall, newId: Bytes32)
    requires call.IssueCredential? && origin.Signed? && Succeeds(cfg, s, Action.Call(origin, ToCredential(call)))
    requires newId == cfg.blake2(Preimage(s.credential.nextId, origin.who, call.holder))
    ensures var t := Next(cfg, s, Action.Call(origin, ToCredential(call))).credential.credentials;
      t.Keys == s.credential.credentials.Keys + {newId}
      && forall id :: id in s.credential.credentials && id != newId ==> t[id] == s.credential.credentials[id]
  {
  }

  lemma OthersKeepCredential(cfg: Config, s: Storage, l: Ledger, origin: Origin, call: CredentialCall, id: Bytes32)
    requires Refines(cfg, s.credential, l) && !call.IssueCredential? && id in s.credential.credentials
    requires Succeeds(cfg, s, Action.Call(origin, ToCredential(call)))
    ensures id in Next(cfg, s, Action.Call(origin, ToCredential(call))).credential.credentials
    ensures MayBecome(s.credential.credentials[id],
                      Next(cfg, s, Action.Call(origin, ToCredential(call))).credential.credentials[id])
  {
    NextByPallet(cfg, s, Action.Call(origin, ToCredential(call)));
    OthersReplaceOne(cfg, s.block, s.did, s.credential, origin, call);
    assert s.credential.credentials[id].status != Expired;
  }

  lemma MayBecomeTransitive(c: Credential, d: Credential, e: Credential)
    requires MayBecome(c, d) && MayBecome(d, e)
    ensures MayBecome(c, e)
  {
  }

  lemma StaysStored(cfg: Config, first: seq<Action>, second: seq<Action>, id: Bytes32)
    requires id in After(cfg, first).credential.credentials
    ensures id in After(cfg, first + second).credential.credentials
  {
    CredentialsRefineLedger(cfg, first);
    CredentialsRefineLedger(cfg, first + second);
    IssuedGrows(cfg, first, second);
    LatestKeys(Issued(cfg, first), id);
    LatestKeys(Issued(cfg, first + second), id);
    var k :| 0 <= k < |Issued(cfg, first)| && Issued(cfg, first)[k].credentialId == id;
    assert Issued(cfg, first + second)[k].credentialId == id;
  }

  lemma {:induction false} KeptUntilRedrawn(cfg: Config, first: seq<Action>, second: seq<Action>, id: Bytes32)
    requires id in After(cfg, first).credential.credentials
    requires NotRedrawn(Issued(cfg, first), Issued(cfg, first + second), id)
    ensures id in After(cfg, first + second).credential.credentials
    ensures MayBecome(After(cfg, first).credential.credentials[id],
                      After(cfg, first + second).credential.credentials[id])
  {
    CredentialsRefineLedger(cfg, first);
    if second == [] {
      assert first + second == first;
      assert After(cfg, first).credential.credentials[id].status != Expired;
    } else {
      var init, a := second[..|second| - 1], second[|second| - 1];
      assert first + second == first + init + [a];
      IssuedSnoc(cfg, first + init, a);
      var s, l := After(cfg, first + init), Issued(cfg, first + init);
      IssuedGrows(cfg, first, init);
      NotRedrawnParts(Issued(cfg, first), l, NextLedger(cfg, s, l, a), id);
      KeptUntilRedrawn(cfg, first, init, id);
      CredentialsRefineLedger(cfg, first + init);
      StepKeepsCredential(cfg, s, l, a, id);
      MayBecomeTransitive(After(cfg, first).credential.credentials[id], s.credential.credentials[id],
                          Next(cfg, s, a).credential.credentials[id]);
    }
  }

  lemma NotRedrawnParts(l: Ledger, m: Ledger, n: Ledger, id: Bytes32)
    requires l <= m <= n && NotRedrawn(l, n, id)
    ensures NotRedrawn(l, m, id) && NotRedrawn(m, n, id)
  {
    assert forall k :: 0 <= k < |m| ==> m[k] == n[k];
  }

  /** A credential drawn under the same id is another issue: its hash is new. */
  lemma RedrawReplaces(cfg: Config, first: seq<Action>, second: seq<Action>, id: Bytes32)
    requires id in After(cfg, first).credential.credentials && id in After(cfg, first + second).credential.credentials
    requires !NotRedrawn(Issued(cfg, first), Issued(cfg, first + second), id)
    ensures After(cfg, first).credential.credentials[id].credentialHash
            != After(cfg, first + second).credential.credentials[id].credentialHash
  {
    CredentialsRefineLedger(cfg, first);
    CredentialsRefineLedger(cfg, first + second);
    IssuedGrows(cfg, first, second);
    var l, m := Issued(cfg, first), Issued(cfg, first + second);
    var i := StoredIsLast(cfg, After(cfg, first).credential, l, id);
    var j := StoredIsLast(cfg, After(cfg, first + second).credential, m, id);
    assert m[i] == l[i];
    assert j >= |l|;
  }

  /** Lifecycle, from any point of a run to any later one: a stored credential stays stored, and keeps
      its issue, its revocation and its frozen metadata exactly when its id is not drawn again. */
  lemma Lifecycle(cfg: Config, first: seq<Action>, second: seq<Action>, id: Bytes32)
    requires id in After(cfg, first).credential.credentials
    ensures id in After(cfg, first + second).credential.credentials
    ensures MayBecome(After(cfg, first).credential.credentials[id],
                      After(cfg, first + second).credential.credentials[id])
            <==> NotRedrawn(Issued(cfg, first), Issued(cfg, first + second), id)
  {
    StaysStored(cfg, first, second, id);
    if NotRedrawn(Issued(cfg, first), Issued(cfg, first + second), id) {
      KeptUntilRedrawn(cfg, first, second, id);
    } else {
      RedrawReplaces(cfg, first, second, id);
    }
  }

  lemma {:induction false} BlocksAdvance(cfg: Config, s: Storage, actions: seq<Action>)
    ensures s.block <= Run(cfg, s, actions).block
  {
    if actions != [] {
      BlocksAdvance(cfg, s, actions[..|actions| - 1]);
    }
  }

  /** While the id behind the hash is not drawn again, failing stays failing. */
  lemma FailsUntilRedrawn(cfg: Config, first: seq<Action>, second: seq<Action>, who: AccountId, later: AccountId,
                          hash: Bytes32)
    requires HashIssued(Issued(cfg, first), hash) && VerifyOutcome(cfg, After(cfg, first), who, hash).Err?
    ensures hash in After(cfg, first).credential.byHash
    ensures var id, t := After(cfg, first).credential.byHash[hash], After(cfg, first + second);
      && hash in t.credential.byHash && t.credential.byHash[hash] == id && id in t.credential.credentials
      && (NotRedrawn(Issued(cfg, first), Issued(cfg, first + second), id) ==> VerifyOutcome(cfg, t, later, hash).Err?)
  {
    var s, t := After(cfg, first), After(cfg, first + second);
    CredentialsRefineLedger(cfg, first);
    HashIndexKeys(Issued(cfg, first), hash);
    var k := IndexedIsIssued(cfg, s.credential, Issued(cfg, first), hash);
    var id := s.credential.byHash[hash];
    IndexEntryStays(cfg, first, second, k);
    Lifecycle(cfg, first, second, id);
    RunAppend(cfg, GENESIS, first, second);
    BlocksAdvance(cfg, s, second);
    VerifyFollowsIndex(cfg, s, who, hash);
    VerifyFollowsIndex(cfg, t, later, hash);
    if NotRedrawn(Issued(cfg, first), Issued(cfg, first + second), id) {
      assert s.credential.credentials[id].status != Expired;
      StaysDead(s.credential.credentials[id], t.credential.credentials[id], s.block, t.block);
    }
  }

  /** Entry k of the ledger has been issued by the last action of this prefix, and is live if it was
      not past its expiry from the start. */
  ghost predicate JustIssued(cfg: Config, actions: seq<Action>, k: nat, c: Credential) {
    && |Issued(cfg, actions)| == k + 1 && Issued(cfg, actions)[k] == c
    && After(cfg, actions).block == c.issuedAt
    && c.credentialId in After(cfg, actions).credential.credentials
    && After(cfg, actions).credential.credentials[c.credentialId] == c && c.status == Active
  }

  lemma IssueStores(cfg: Config, s: Storage, l: Ledger, origin: Origin, call: CredentialCall)
    requires Refines(cfg, s.credential, l) && call.IssueCredential?
    requires LedgerIssue(cfg, s.block, s.did, l, origin, call).Ok?
    ensures var c := LedgerIssue(cfg, s.block, s.did, l, origin, call).value;
      var t := Next(cfg, s, Action.Call(origin, ToCredential(call)));
      && t.block == s.block == c.issuedAt && c.status == Active
      && c.credentialId in t.credential.credentials && t.credential.credentials[c.credentialId] == c
  {
    IssueOutcome(cfg, s, l, origin, call);
    NextByPallet(cfg, s, Action.Call(origin, ToCredential(call)));
  }

  /** The prefix of `second` that issues entry k. */
  lemma {:induction false} IssuedByPrefix(cfg: Config, first: seq<Action>, second: seq<Action>, k: nat)
    returns (p: seq<Action>)
    requires |Issued(cfg, first)| <= k < |Issued(cfg, first + second)|
    ensures p <= second && JustIssued(cfg, first + p, k, Issued(cfg, first + second)[k])
  {
    assert second == [] ==> first + second == first;
    var init, a := second[..|second| - 1], second[|second| - 1];
    assert first + second == first + init + [a];
    IssuedSnoc(cfg, first + init, a);
    var s, l := After(cfg, first + init), Issued(cfg, first + init);
    if k < |l| {
      p := IssuedByPrefix(cfg, first, init, k);
    } else {
      p := second;
      CredentialsRefineLedger(cfg, first + init);
      IssueStores(cfg, s, l, a.origin, a.call.credential);
    }
  }

  lemma JustAfter(cfg: Config, actions: seq<Action>, a: Action)
    requires |Issued(cfg, actions + [a])| == |Issued(cfg, actions)| + 1
    ensures JustIssued(cfg, actions + [a], |Issued(cfg, actions)|, Issued(cfg, actions + [a])[|Issued(cfg, actions)|])
  {
    var p := IssuedByPrefix(cfg, actions, [a], |Issued(cfg, actions)|);
    assert actions + [] == actions;
    assert p == [] || p == [a];
  }

  lemma {:induction false} NoIssueFromTheFuture(cfg: Config, actions: seq<Action>)
    ensures forall k :: 0 <= k < |Issued(cfg, actions)| ==> Issued(cfg, actions)[k].issuedAt <= After(cfg, actions).block
  {
    if actions != [] {
      var init, a := actions[..|actions| - 1], actions[|actions| - 1];
      NoIssueFromTheFuture(cfg, init);
      NextByPallet(cfg, After(cfg, init), a);
    }
  }

  /** Some entry that m adds to l draws this id with an expiry not yet past at its own issue. */
  ghost predicate RedrawnAlive(l: Ledger, m: Ledger, id: Bytes32) {
    exists k :: |l| <= k < |m| && m[k].credentialId == id
                && (m[k].expiresAt.None? || m[k].issuedAt <= m[k].expiresAt.value)
  }

  lemma RedrawnVerifies(cfg: Config, first: seq<Action>, second: seq<Action>, later: AccountId, hash: Bytes32)
    returns (p: seq<Action>)
    requires hash in After(cfg, first).credential.byHash
    requires RedrawnAlive(Issued(cfg, first), Issued(cfg, first + second), After(cfg, first).credential.byHash[hash])
    ensures p <= second && VerifyOutcome(cfg, After(cfg, first + p), later, hash).Ok?
  {
    var l, m, id := Issued(cfg, first), Issued(cfg, first + second), After(cfg, first).credential.byHash[hash];
    var k :| |l| <= k < |m| && m[k].credentialId == id
             && (m[k].expiresAt.None? || m[k].issuedAt <= m[k].expiresAt.value);
    p := IssuedByPrefix(cfg, first, second, k);
    CredentialsRefineLedger(cfg, first);
    var i := IndexedIsIssued(cfg, After(cfg, first).credential, l, hash);
    IndexEntryStays(cfg, first, p, i);
    VerifyFollowsIndex(cfg, After(cfg, first + p), later, hash);
  }

  lemma VerifiesRedrawn(cfg: Config, first: seq<Action>, p: seq<Action>, who: AccountId, later: AccountId,
                        hash: Bytes32)
    requires HashIssued(Issued(cfg, first), hash) && VerifyOutcome(cfg, After(cfg, first), who, hash).Err?
    requires VerifyOutcome(cfg, After(cfg, first + p), later, hash).Ok?
    ensures hash in After(cfg, first).credential.byHash
    ensures RedrawnAlive(Issued(cfg, first), Issued(cfg, first + p), After(cfg, first).credential.byHash[hash])
  {
    FailsUntilRedrawn(cfg, first, p, who, later, hash);
    var t, l, n := After(cfg, first + p), Issued(cfg, first), Issued(cfg, first + p);
    var id := After(cfg, first).credential.byHash[hash];
    VerifyFollowsIndex(cfg, t, later, hash);
    CredentialsRefineLedger(cfg, first + p);
    var j := StoredIsLast(cfg, t.credential, n, id);
    NoIssueFromTheFuture(cfg, first + p);
    assert j >= |l|;
  }

  /** What was drawn within a prefix was drawn within the whole. */
  lemma RedrawnLater(cfg: Config, first: seq<Action>, second: seq<Action>, p: seq<Action>, l: Ledger, id: Bytes32)
    requires p <= second && RedrawnAlive(l, Issued(cfg, first + p), id)
    ensures RedrawnAlive(l, Issued(cfg, first + second), id)
  {
    assert first + second == first + p + second[|p|..];
    IssuedGrows(cfg, first + p, second[|p|..]);
    var n, m := Issued(cfg, first + p), Issued(cfg, first + second);
    var k :| |l| <= k < |n| && n[k].credentialId == id
             && (n[k].expiresAt.None? || n[k].issuedAt <= n[k].expiresAt.value);
    assert m[k] == n[k];
  }

  /** Once verifying an issued hash fails it fails at every later point of the run, except exactly if
      the id behind the hash is drawn again for a credential that has not expired when it is issued. */
  lemma FailedVerificationIsFinal(cfg: Config, first: seq<Action>, second: seq<Action>, who: AccountId,
                                  later: AccountId, hash: Bytes32)
    requires HashIssued(Issued(cfg, first), hash) && VerifyOutcome(cfg, After(cfg, first), who, hash).Err?
    ensures hash in After(cfg, first).credential.byHash && hash in After(cfg, first + second).credential.byHash
    ensures After(cfg, first + second).credential.byHash[hash] == After(cfg, first).credential.byHash[hash]
    ensures (forall p :: p <= second ==> VerifyOutcome(cfg, After(cfg, first + p), later, hash).Err?) <==>
            !RedrawnAlive(Issued(cfg, first), Issued(cfg, first + second), After(cfg, first).credential.byHash[hash])
  {
    FailsUntilRedrawn(cfg, first, second, who, later, hash);
    var l, id := Issued(cfg, first), After(cfg, first).credential.byHash[hash];
    if RedrawnAlive(l, Issued(cfg, first + second), id) {
      var p := RedrawnVerifies(cfg, first, second, later, hash);
    }
    forall p | p <= second && VerifyOutcome(cfg, After(cfg, first + p), later, hash).Ok?
      ensures RedrawnAlive(l, Issued(cfg, first + second), id)
    {
      VerifiesRedrawn(cfg, first, p, who, later, hash);
      RedrawnLater(cfg, first, second, p, l, id);
    }
  }

  lemma StaysDead(c: Credential, d: Credential, now: nat, later: nat)
    requires MayBecome(c, d) && c.status != Expired && now <= later && !Live(c, now)
    ensures !Live(d, later)
  {
  }

  lemma IndexEntryStays(cfg: Config, first: seq<Action>, second: seq<Action>, k: nat)
    requires k < |Issued(cfg, first)|
    ensures var c := Issued(cfg, first)[k];
      c.credentialHash in After(cfg, first + second).credential.byHash
      && After(cfg, first + second).credential.byHash[c.credentialHash] == c.credentialId
  {
    CredentialsRefineLedger(cfg, first + second);
    IssuedGrows(cfg, first, second);
    HashIndexAt(Issued(cfg, first + second), k);
  }

  // ---------- conservation ----------

  function HeldCount(s: CredentialState): AccountId -> nat {
    (a: AccountId) => |s.HeldBy(a)|
  }

  function IssuedCount(s: CredentialState): AccountId -> nat {
    (a: AccountId) => |s.IssuedBy(a)|
  }

  function HolderShare(l: Ledger): AccountId -> nat {
    (a: AccountId) => |HolderRefs(l, a)|
  }

  function IssuerShare(l: Ledger): AccountId -> nat {
    (a: AccountId) => |IssuerIds(l, a)|
  }

  lemma {:induction false} SharesSum(accounts: set<AccountId>, l: Ledger)
    requires forall c :: c in l ==> c.holder in accounts && c.issuer in accounts
    ensures Sum(accounts, HolderShare(l)) == |l| == Sum(accounts, IssuerShare(l))
    decreases |l|
  {
    if l == [] {
      SumZero(accounts, HolderShare(l));
      SumZero(accounts, IssuerShare(l));
    } else {
      var c, init := l[|l| - 1], l[..|l| - 1];
      assert c in l && l == init + [c];
      SharesSum(accounts, init);
      AppendProjects(init, c);
      SumBump(accounts, HolderShare(init), HolderShare(l), c.holder);
      SumBump(accounts, IssuerShare(init), IssuerShare(l), c.issuer);
    }
  }

  lemma {:induction false} OwnersHaveLists(l: Ledger, c: Credential)
    requires c in l
    ensures HolderRefs(l, c.holder) != [] && IssuerIds(l, c.issuer) != []
  {
    if c != l[|l| - 1] {
      assert l == l[..|l| - 1] + [l[|l| - 1]];
      OwnersHaveLists(l[..|l| - 1], c);
    }
  }

  /** Conservation: hashes, both list maps and the counter count the same issues in every
      reachable state; so do the stored credentials, exactly when ids are distinct. */
  lemma Conservation(cfg: Config, actions: seq<Action>, accounts: set<AccountId>)
    requires forall a :: After(cfg, actions).credential.HeldBy(a) != [] ==> a in accounts
    requires forall a :: After(cfg, actions).credential.IssuedBy(a) != [] ==> a in accounts
    ensures var s, n := After(cfg, actions).credential, |Issued(cfg, actions)|;
      && |s.byHash| == n && s.nextId == Cap64(n)
      && Sum(accounts, HeldCount(s)) == n && Sum(accounts, IssuedCount(s)) == n
      && |s.credentials| <= n
      && (|s.credentials| == n <==> DistinctIds(Issued(cfg, actions)))
  {
    CredentialsRefineLedger(cfg, actions);
    var s, l := After(cfg, actions).credential, Issued(cfg, actions);
    StoreCounts(cfg, s, l);
    forall c | c in l ensures c.holder in accounts && c.issuer in accounts {
      OwnersHaveLists(l, c);
      assert s.HeldBy(c.holder) != [] && s.IssuedBy(c.issuer) != [];
    }
    SharesSum(accounts, l);
    SumCongruent(accounts, HolderShare(l), HeldCount(s));
    SumCongruent(accounts, IssuerShare(l), IssuedCount(s));
  }

  // ---------- lists without repeats ----------

  ghost predicate NoRepeats(ids: seq<Bytes32>) {
    forall i, j :: 0 <= i < j < |ids| ==> ids[i] != ids[j]
  }

  /** The ids on a holder's list. */
  function IdsOf(refs: seq<CredentialReference>): (ids: seq<Bytes32>)
    ensures |ids| == |refs| && forall i :: 0 <= i < |refs| ==> ids[i] == refs[i].credentialId
  {
    if refs == [] then [] else IdsOf(refs[..|refs| - 1]) + [refs[|refs| - 1].credentialId]
  }

  lemma {:induction false} HeldAreAmong(l: Ledger, a: AccountId)
    ensures IdsOf(HolderRefs(l, a)) == IdsAmong(l, HolderIs(a))
  {
    if l != [] {
      var init, c := l[..|l| - 1], l[|l| - 1];
      HeldAreAmong(init, a);
      assert (HolderRefs(init, a) + [RefTo(c)])[..|HolderRefs(init, a)|] == HolderRefs(init, a);
    }
  }

  lemma {:induction false} AmongNames(l: Ledger, mine: Credential -> bool, id: Bytes32)
    ensures id in IdsAmong(l, mine) <==> exists c :: c in l && mine(c) && c.credentialId == id
  {
    if l != [] {
      var init, c := l[..|l| - 1], l[|l| - 1];
      AmongNames(init, mine, id);
      assert l == init + [c];
      assert forall d :: d in l <==> d in init || d == c;
    }
  }

  lemma RepeatsSnoc(ids: seq<Bytes32>, id: Bytes32)
    ensures NoRepeats(ids + [id]) <==> NoRepeats(ids) && id !in ids
  {
    var more := ids + [id];
    if NoRepeats(more) {
      forall i, j | 0 <= i < j < |ids| ensures ids[i] != ids[j] {
        assert more[i] != more[j];
      }
      forall i | 0 <= i < |ids| ensures ids[i] != id {
        assert more[i] != more[|ids|];
      }
    }
  }

  lemma DistinctAmongSnoc(l: Ledger, c: Credential, mine: Credential -> bool)
    ensures DistinctAmong(l + [c], mine) <==>
            DistinctAmong(l, mine) && (mine(c) ==> forall d :: d in l && mine(d) ==> d.credentialId != c.credentialId)
  {
    var m := l + [c];
    assert forall k :: 0 <= k < |l| ==> m[k] == l[k];
    if DistinctAmong(m, mine) {
      forall i, j | 0 <= i < j < |l| && mine(l[i]) && mine(l[j]) ensures l[i].credentialId != l[j].credentialId {
        assert m[i].credentialId != m[j].credentialId;
      }
      forall d | d in l && mine(d) && mine(c) ensures d.credentialId != c.credentialId {
        var k :| 0 <= k < |l| && l[k] == d;
        assert m[k].credentialId != m[|l|].credentialId;
      }
    }
  }

  lemma {:induction false} RepeatsAmong(l: Ledger, mine: Credential -> bool)
    ensures NoRepeats(IdsAmong(l, mine)) <==> DistinctAmong(l, mine)
  {
    if l != [] {
      var init, c := l[..|l| - 1], l[|l| - 1];
      RepeatsAmong(init, mine);
      AmongNames(init, mine, c.credentialId);
      RepeatsSnoc(IdsAmong(init, mine), c.credentialId);
      DistinctAmongSnoc(init, c, mine);
      assert l == init + [c];
    }
  }

  /** In every reachable state an account's stored lists name no credential twice exactly when, among
      the credentials issued to it, or by it, no two buffers collide and no pair recurs after the
      counter has saturated. */
  lemma ListsNameOnce(cfg: Config, actions: seq<Action>, a: AccountId)
    ensures NoRepeats(IdsOf(After(cfg, actions).credential.HeldBy(a))) <==>
      CollisionFreeAmong(cfg, Issued(cfg, actions), HolderIs(a)) && NoRepeatAmong(Issued(cfg, actions), HolderIs(a))
    ensures NoRepeats(After(cfg, actions).credential.IssuedBy(a)) <==>
      CollisionFreeAmong(cfg, Issued(cfg, actions), IssuerIs(a)) && NoRepeatAmong(Issued(cfg, actions), IssuerIs(a))
  {
    CredentialsRefineLedger(cfg, actions);
    var s, l := After(cfg, actions).credential, Issued(cfg, actions);
    assert s.HeldBy(a) == HolderRefs(l, a) && s.IssuedBy(a) == IssuerIds(l, a);
    HeldAreAmong(l, a);
    RepeatsAmong(l, HolderIs(a));
    RepeatsAmong(l, IssuerIs(a));
    DistinctAmongExactly(cfg, l, HolderIs(a));
    DistinctAmongExactly(cfg, l, IssuerIs(a));
  }
}
