/** The credential pallet as one append-only ledger of issued credentials, the proof that
    all five storage items follow it, and exactly when identifiers are unique. */
module CredentialLedger {
  import opened Prims
  import opened Frame
  import opened Did
  import opened Credential
  import opened Runtime

  /** Credentials as they were issued, in issue order. */
  type Ledger = seq<Credential>

  /** The id that the entry at position n gets: the counter stops at its maximum. */
  function IdAt(cfg: Config, n: nat, issuer: AccountId, holder: AccountId): Bytes32 {
    cfg.blake2(Preimage(Cap64(n), issuer, holder))
  }

  predicate HashIssued(l: Ledger, hash: Bytes32) {
    exists k :: 0 <= k < |l| && l[k].credentialHash == hash
  }

  function RefTo(c: Credential): CredentialReference {
    CredentialReference(c.credentialId, c.credentialType)
  }

  /** The references of h's credentials, in issue order. */
  function HolderRefs(l: Ledger, h: AccountId): seq<CredentialReference> {
    if l == [] then []
    else
      var c := l[|l| - 1];
      var rest := HolderRefs(l[..|l| - 1], h);
      if c.holder == h then rest + [RefTo(c)] else rest
  }

  function HolderIs(a: AccountId): Credential -> bool {
    (c: Credential) => c.holder == a
  }

  function IssuerIs(a: AccountId): Credential -> bool {
    (c: Credential) => c.issuer == a
  }

  /** The ids of the entries that are `mine`, in issue order. */
  function IdsAmong(l: Ledger, mine: Credential -> bool): seq<Bytes32> {
    if l == [] then []
    else
      var c := l[|l| - 1];
      var rest := IdsAmong(l[..|l| - 1], mine);
      if mine(c) then rest + [c.credentialId] else rest
  }

  /** The ids of the credentials i issued, in issue order. */
  function IssuerIds(l: Ledger, i: AccountId): seq<Bytes32> {
    IdsAmong(l, IssuerIs(i))
  }

  function HashIndex(l: Ledger): map<Bytes32, Bytes32> {
    if l == [] then map[] else HashIndex(l[..|l| - 1])[l[|l| - 1].credentialHash := l[|l| - 1].credentialId]
  }

  /** For each id ever issued, the latest credential issued under it. */
  function Latest(l: Ledger): map<Bytes32, Credential> {
    if l == [] then map[] else Latest(l[..|l| - 1])[l[|l| - 1].credentialId := l[|l| - 1]]
  }

  /** Issuing on the ledger: scan for the hash, count both lists, append. */
  function LedgerIssue(cfg: Config, block: nat, d: DidState, l: Ledger, origin: Origin,
                       call: CredentialCall): Outcome<Credential>
    requires call.IssueCredential?
  {
    var issuer :- EnsureSigned(origin);
    :- CheckParties(d, issuer, call.holder);
    :- Ensure(!HashIssued(l, call.credentialHash), CredentialFailed(CredentialAlreadyExists));
    :- Ensure(|HolderRefs(l, call.holder)| < cfg.maxCredentialsPerHolder
              && |IssuerIds(l, issuer)| < cfg.maxCredentialsPerHolder,
              CredentialFailed(TooManyCredentials));
    Ok(Credential(IdAt(cfg, |l|, issuer, call.holder), call.credentialHash, call.holder, issuer, call.credentialType,
                  call.metadata, block, call.expiresAt, Active))
  }

  // ---------- the relation between storage and ledger ----------

  /** The same credential, apart from what may change after issue. */
  predicate SameIssue(c: Credential, d: Credential) {
    c.(metadata := d.metadata, status := d.status) == d
  }

  ghost predicate Numbered(cfg: Config, l: Ledger) {
    forall k :: 0 <= k < |l| ==> l[k].credentialId == IdAt(cfg, k, l[k].issuer, l[k].holder)
  }

  ghost predicate DistinctHashes(l: Ledger) {
    forall i, j :: 0 <= i < j < |l| ==> l[i].credentialHash != l[j].credentialHash
  }

  ghost predicate Bounded(cfg: Config, l: Ledger) {
    && (forall h :: |HolderRefs(l, h)| <= cfg.maxCredentialsPerHolder)
    && (forall i :: |IssuerIds(l, i)| <= cfg.maxCredentialsPerHolder)
  }

  ghost predicate WellFormed(cfg: Config, l: Ledger) {
    Numbered(cfg, l) && DistinctHashes(l) && Bounded(cfg, l)
  }

  ghost predicate ListsAgree(s: CredentialState, l: Ledger) {
    && (forall h :: s.HeldBy(h) == HolderRefs(l, h))
    && (forall i :: s.IssuedBy(i) == IssuerIds(l, i))
    && s.byHash == HashIndex(l)
    && s.nextId == Cap64(|l|)
  }

  ghost predicate CredentialsAgree(credentials: map<Bytes32, Credential>, latest: map<Bytes32, Credential>) {
    && credentials.Keys == latest.Keys
    && (forall id :: id in credentials ==> SameIssue(credentials[id], latest[id]) && credentials[id].status != Expired)
  }

  ghost predicate Refines(cfg: Config, s: CredentialState, l: Ledger) {
    && WellFormed(cfg, l)
    && ListsAgree(s, l)
    && CredentialsAgree(s.credentials, Latest(l))
  }

  // ---------- appending ----------

  lemma AppendProjects(l: Ledger, c: Credential)
    ensures forall h :: HolderRefs(l + [c], h) ==
                        (if c.holder == h then HolderRefs(l, h) + [RefTo(c)] else HolderRefs(l, h))
    ensures forall i :: IssuerIds(l + [c], i) ==
                        (if c.issuer == i then IssuerIds(l, i) + [c.credentialId] else IssuerIds(l, i))
    ensures HashIndex(l + [c]) == HashIndex(l)[c.credentialHash := c.credentialId]
    ensures Latest(l + [c]) == Latest(l)[c.credentialId := c]
  {
    assert (l + [c])[..|l|] == l;
  }

  lemma {:induction false} HashIndexKeys(l: Ledger, hash: Bytes32)
    ensures hash in HashIndex(l) <==> HashIssued(l, hash)
  {
    if l != [] {
      var init := l[..|l| - 1];
      HashIndexKeys(init, hash);
      if HashIssued(init, hash) {
        var k :| 0 <= k < |init| && init[k].credentialHash == hash;
        assert l[k].credentialHash == hash;
      }
      if k :| 0 <= k < |l| - 1 && l[k].credentialHash == hash {
        assert init[k].credentialHash == hash;
      }
      assert l[|l| - 1].credentialHash == hash ==> HashIssued(l, hash);
    }
  }

  lemma {:induction false} HashIndexAt(l: Ledger, k: nat)
    requires k < |l| && DistinctHashes(l)
    ensures l[k].credentialHash in HashIndex(l) && HashIndex(l)[l[k].credentialHash] == l[k].credentialId
  {
    if k < |l| - 1 {
      HashIndexAt(l[..|l| - 1], k);
    }
  }

  lemma {:induction false} HashIndexCounts(l: Ledger)
    requires DistinctHashes(l)
    ensures |HashIndex(l)| == |l|
  {
    if l != [] {
      var init := l[..|l| - 1];
      HashIndexCounts(init);
      HashIndexKeys(init, l[|l| - 1].credentialHash);
    }
  }

  lemma {:induction false} LatestKeys(l: Ledger, id: Bytes32)
    ensures id in Latest(l) <==> exists k :: 0 <= k < |l| && l[k].credentialId == id
  {
    if l != [] {
      var init := l[..|l| - 1];
      LatestKeys(init, id);
      if k :| 0 <= k < |init| && init[k].credentialId == id {
        assert l[k].credentialId == id;
      }
      if k :| 0 <= k < |l| - 1 && l[k].credentialId == id {
        assert init[k].credentialId == id;
      }
      assert l[|l| - 1].credentialId == id ==> exists k :: 0 <= k < |l| && l[k].credentialId == id;
    }
  }

  ghost predicate DistinctIds(l: Ledger) {
    forall i, j :: 0 <= i < j < |l| ==> l[i].credentialId != l[j].credentialId
  }

  /** What is stored under an id is the last entry with that id. */
  lemma {:induction false} LatestIsLast(l: Ledger, id: Bytes32) returns (k: nat)
    requires id in Latest(l)
    ensures k < |l| && l[k].credentialId == id && Latest(l)[id] == l[k]
    ensures forall j :: k < j < |l| ==> l[j].credentialId != id
  {
    if l[|l| - 1].credentialId == id {
      k := |l| - 1;
    } else {
      var init := l[..|l| - 1];
      k := LatestIsLast(init, id);
      assert forall j :: 0 <= j < |init| ==> l[j] == init[j];
    }
  }

  /** No entry that m adds to l has this id. */
  ghost predicate NotRedrawn(l: Ledger, m: Ledger, id: Bytes32) {
    forall k :: |l| <= k < |m| ==> m[k].credentialId != id
  }

  /** The id of the entry with this hash was not drawn again after it. */
  ghost predicate Undisturbed(l: Ledger, hash: Bytes32) {
    forall k :: 0 <= k < |l| && l[k].credentialHash == hash ==> NotRedrawn(l[..k + 1], l, l[k].credentialId)
  }

  lemma DistinctPrefix(l: Ledger, m: Ledger)
    requires l <= m && DistinctIds(m)
    ensures DistinctIds(l)
  {
    forall i, j | 0 <= i < j < |l| ensures l[i].credentialId != l[j].credentialId {
      assert l[i] == m[i] && l[j] == m[j];
    }
  }

  lemma DistinctAppend(l: Ledger, c: Credential)
    requires DistinctIds(l)
    ensures DistinctIds(l + [c]) <==> !exists k :: 0 <= k < |l| && l[k].credentialId == c.credentialId
  {
    var m := l + [c];
    if k :| 0 <= k < |l| && l[k].credentialId == c.credentialId {
      assert m[k].credentialId == m[|l|].credentialId;
    }
  }

  /** One slot per issued credential, exactly when no id came up twice. */
  lemma {:induction false} LatestCounts(l: Ledger)
    ensures |Latest(l)| <= |l|
    ensures |Latest(l)| == |l| <==> DistinctIds(l)
  {
    if l != [] {
      var init, c := l[..|l| - 1], l[|l| - 1];
      assert l == init + [c];
      LatestCounts(init);
      LatestKeys(init, c.credentialId);
      assert Latest(l).Keys == Latest(init).Keys + {c.credentialId};
      assert |Latest(l)| == |Latest(l).Keys| && |Latest(init)| == |Latest(init).Keys|;
      if DistinctIds(init) {
        DistinctAppend(init, c);
      } else if DistinctIds(l) {
        DistinctPrefix(init, l);
      }
    }
  }

  // ---------- every call preserves the relation ----------

  lemma AppendKeepsWellFormed(cfg: Config, l: Ledger, c: Credential)
    requires WellFormed(cfg, l) && !HashIssued(l, c.credentialHash)
    requires c.credentialId == IdAt(cfg, |l|, c.issuer, c.holder)
    requires |HolderRefs(l, c.holder)| < cfg.maxCredentialsPerHolder
    requires |IssuerIds(l, c.issuer)| < cfg.maxCredentialsPerHolder
    ensures WellFormed(cfg, l + [c])
  {
    AppendKeepsNumbered(cfg, l, c);
    AppendKeepsBounded(cfg, l, c);
    forall i | 0 <= i < |l| ensures l[i].credentialHash != c.credentialHash {
      assert !HashIssued(l, c.credentialHash);
    }
  }

  lemma AppendKeepsNumbered(cfg: Config, l: Ledger, c: Credential)
    requires Numbered(cfg, l) && c.credentialId == IdAt(cfg, |l|, c.issuer, c.holder)
    ensures Numbered(cfg, l + [c])
  {
  }

  lemma AppendKeepsBounded(cfg: Config, l: Ledger, c: Credential)
    requires Bounded(cfg, l)
    requires |HolderRefs(l, c.holder)| < cfg.maxCredentialsPerHolder
    requires |IssuerIds(l, c.issuer)| < cfg.maxCredentialsPerHolder
    ensures Bounded(cfg, l + [c])
  {
    AppendProjects(l, c);
  }

  /** The writes that issue c. */
  function CommitOf(cfg: Config, s: CredentialState, c: Credential): Outcome<Effect<CredentialState>> {
    CommitStep(cfg, c.issuedAt, s, c.issuer, c.holder, c.credentialHash, c.credentialType, c.metadata, c.expiresAt)
  }

  lemma CommitRefines(cfg: Config, s: CredentialState, l: Ledger, c: Credential)
    requires Refines(cfg, s, l) && !HashIssued(l, c.credentialHash) && c.status == Active
    requires c.credentialId == IdAt(cfg, |l|, c.issuer, c.holder)
    requires CommitOf(cfg, s, c).Ok?
    ensures Refines(cfg, CommitOf(cfg, s, c).value.state, l + [c])
  {
    var t := CommitOf(cfg, s, c).value.state;
    assert s.HeldBy(c.holder) == HolderRefs(l, c.holder) && s.IssuedBy(c.issuer) == IssuerIds(l, c.issuer);
    AppendKeepsWellFormed(cfg, l, c);
    assert t.credentials == s.credentials[c.credentialId := c];
    StoreAgrees(s.credentials, l, c);
    CommitLists(s, t, l, c);
  }

  lemma StoreAgrees(credentials: map<Bytes32, Credential>, l: Ledger, c: Credential)
    requires CredentialsAgree(credentials, Latest(l)) && c.status != Expired
    ensures CredentialsAgree(credentials[c.credentialId := c], Latest(l + [c]))
  {
    AppendProjects(l, c);
  }

  lemma CommitLists(s: CredentialState, t: CredentialState, l: Ledger, c: Credential)
    requires ListsAgree(s, l)
    requires t.byHolder == s.byHolder[c.holder := s.HeldBy(c.holder) + [RefTo(c)]]
    requires t.byIssuer == s.byIssuer[c.issuer := s.IssuedBy(c.issuer) + [c.credentialId]]
    requires t.byHash == s.byHash[c.credentialHash := c.credentialId] && t.nextId == SatAdd64(s.nextId, 1)
    ensures ListsAgree(t, l + [c])
  {
    AppendProjects(l, c);
    forall h ensures t.HeldBy(h) == HolderRefs(l + [c], h) {
      assert s.HeldBy(h) == HolderRefs(l, h);
    }
    forall i ensures t.IssuedBy(i) == IssuerIds(l + [c], i) {
      assert s.IssuedBy(i) == IssuerIds(l, i);
    }
  }

  /** Issuing has the same outcome on storage and on the ledger, and ends in related states. */
  ghost predicate IssueAgrees(cfg: Config, block: nat, d: DidState, s: CredentialState, l: Ledger, origin: Origin,
                              call: CredentialCall)
    requires call.IssueCredential?
  {
    match (CredentialStep(cfg, block, d, s, origin, call), LedgerIssue(cfg, block, d, l, origin, call))
    case (Ok(e), Ok(c)) => Refines(cfg, e.state, l + [c])
    case (Err(x), Err(y)) => x == y
    case _ => false
  }

  lemma IssueRefines(cfg: Config, block: nat, d: DidState, s: CredentialState, l: Ledger, origin: Origin,
                     call: CredentialCall)
    requires Refines(cfg, s, l) && call.IssueCredential?
    ensures IssueAgrees(cfg, block, d, s, l, origin, call)
  {
    if origin.Signed? {
      HashIndexKeys(l, call.credentialHash);
      assert s.HeldBy(call.holder) == HolderRefs(l, call.holder) && s.IssuedBy(origin.who) == IssuerIds(l, origin.who);
      var r := LedgerIssue(cfg, block, d, l, origin, call);
      if r.Ok? {
        CommitRefines(cfg, s, l, r.value);
      }
    }
  }

  /** Revoking and updating touch one stored credential, in its changeable fields only. */
  lemma OthersRefine(cfg: Config, block: nat, d: DidState, s: CredentialState, l: Ledger, origin: Origin,
                     call: CredentialCall)
    requires Refines(cfg, s, l) && !call.IssueCredential? && CredentialStep(cfg, block, d, s, origin, call).Ok?
    ensures Refines(cfg, CredentialStep(cfg, block, d, s, origin, call).value.state, l)
  {
    OthersReplaceOne(cfg, block, d, s, origin, call);
    var t := CredentialStep(cfg, block, d, s, origin, call).value.state;
    if t != s {
      var id := call.credentialId;
      assert s.credentials[id].status != Expired;
      ReplaceRefines(cfg, s, l, id, t.credentials[id]);
    }
  }

  lemma OthersReplaceOne(cfg: Config, block: nat, d: DidState, s: CredentialState, origin: Origin, call: CredentialCall)
    requires !call.IssueCredential? && CredentialStep(cfg, block, d, s, origin, call).Ok?
    ensures var t := CredentialStep(cfg, block, d, s, origin, call).value.state;
      if call.VerifyCredential? then t == s
      else
        var id := call.credentialId;
        && id in s.credentials && id in t.credentials && t == s.(credentials := s.credentials[id := t.credentials[id]])
        && SameIssue(t.credentials[id], s.credentials[id])
        && s.credentials[id].status != Revoked
        && (t.credentials[id].status == s.credentials[id].status || t.credentials[id].status == Revoked)
  {
  }

  lemma ReplaceRefines(cfg: Config, s: CredentialState, l: Ledger, id: Bytes32, c: Credential)
    requires Refines(cfg, s, l) && id in s.credentials && SameIssue(c, s.credentials[id]) && c.status != Expired
    ensures Refines(cfg, s.(credentials := s.credentials[id := c]), l)
  {
    var t := s.(credentials := s.credentials[id := c]);
    forall h ensures t.HeldBy(h) == HolderRefs(l, h) && t.IssuedBy(h) == IssuerIds(l, h) {
      assert t.HeldBy(h) == s.HeldBy(h) && t.IssuedBy(h) == s.IssuedBy(h);
    }
    assert SameIssue(s.credentials[id], Latest(l)[id]);
    assert CredentialsAgree(t.credentials, Latest(l));
  }

  // ---------- over runs ----------

  function NextLedger(cfg: Config, s: Storage, l: Ledger, a: Action): Ledger {
    if a.Call? && a.call.ToCredential? && a.call.credential.IssueCredential? then
      var r := LedgerIssue(cfg, s.block, s.did, l, a.origin, a.call.credential);
      if r.Ok? then l + [r.value] else l
    else l
  }

  /** The credentials issued during a run, in order. */
  function Issued(cfg: Config, actions: seq<Action>): Ledger {
    if actions == [] then []
    else
      var init := actions[..|actions| - 1];
      NextLedger(cfg, After(cfg, init), Issued(cfg, init), actions[|actions| - 1])
  }

  lemma NextRefines(cfg: Config, s: Storage, l: Ledger, a: Action)
    requires Refines(cfg, s.credential, l)
    ensures Refines(cfg, Next(cfg, s, a).credential, NextLedger(cfg, s, l, a))
  {
    NextByPallet(cfg, s, a);
    if a.Call? && a.call.ToCredential? {
      if a.call.credential.IssueCredential? {
        IssueRefines(cfg, s.block, s.did, s.credential, l, a.origin, a.call.credential);
      } else if Succeeds(cfg, s, a) {
        OthersRefine(cfg, s.block, s.did, s.credential, l, a.origin, a.call.credential);
      }
    }
  }

  /** Main result, with no assumption on the hash: lists, hash index and counter are those of
      the ledger, and each stored credential is the latest one issued under its id. */
  lemma {:induction false} CredentialsRefineLedger(cfg: Config, actions: seq<Action>)
    ensures Refines(cfg, After(cfg, actions).credential, Issued(cfg, actions))
  {
    if actions != [] {
      var init := actions[..|actions| - 1];
      CredentialsRefineLedger(cfg, init);
      NextRefines(cfg, After(cfg, init), Issued(cfg, init), actions[|actions| - 1]);
    }
  }

  lemma IssuedSnoc(cfg: Config, actions: seq<Action>, a: Action)
    ensures Issued(cfg, actions + [a]) == NextLedger(cfg, After(cfg, actions), Issued(cfg, actions), a)
    ensures After(cfg, actions + [a]) == Next(cfg, After(cfg, actions), a)
  {
    assert (actions + [a])[..|actions|] == actions;
  }

  lemma {:induction false} IssuedGrows(cfg: Config, first: seq<Action>, second: seq<Action>)
    ensures Issued(cfg, first) <= Issued(cfg, first + second)
  {
    if second == [] {
      assert first + second == first;
    } else {
      var init, a := second[..|second| - 1], second[|second| - 1];
      IssuedGrows(cfg, first, init);
      assert (first + second)[..|first + second| - 1] == first + init;
    }
  }

  // ---------- identifiers ----------

  /** The preimage fixes counter, issuer and holder. */
  lemma PreimageInjective(m: U64, i: AccountId, h: AccountId, n: U64, j: AccountId, k: AccountId)
    requires Preimage(m, i, h) == Preimage(n, j, k)
    ensures m == n && i == j && h == k
  {
    var p, q := Preimage(m, i, h), Preimage(n, j, k);
    assert p[..8] == ToLe(m, 8) && q[..8] == ToLe(n, 8);
    assert p[8..40] == Encode32(i as int) && q[8..40] == Encode32(j as int);
    assert p[40..] == Encode32(h as int) && q[40..] == Encode32(k as int);
    LeBound();
    LeRoundTrip(m, 8);
    LeRoundTrip(n, 8);
    Encode32Injective(i, j);
    Encode32Injective(h, k);
  }

  /** Which bytes are hashed for the id of entry k, by what they decode to: the number of issues before
      it, capped, then its issuer, then its holder. */
  lemma IdBytes(cfg: Config, actions: seq<Action>, k: nat)
    requires k < |Issued(cfg, actions)|
    ensures var c := Issued(cfg, actions)[k];
      exists b: Bytes :: |b| == 72 && FromLe(b[..8]) == Min(k, U64_MAX) && FromLe(b[8..40]) == c.issuer as int
                         && FromLe(b[40..]) == c.holder as int && c.credentialId == cfg.blake2(b)
  {
    CredentialsRefineLedger(cfg, actions);
    var c := Issued(cfg, actions)[k];
    PreimageIsBuffer(Cap64(k), c.issuer, c.holder);
    assert c.credentialId == cfg.blake2(Preimage(Cap64(k), c.issuer, c.holder));
  }

  function PreimageAt(l: Ledger, k: nat): Bytes
    requires k < |l|
  {
    Preimage(Cap64(k), l[k].issuer, l[k].holder)
  }

  /** The hash does not collide on the buffers hashed for the entries that are `mine`. */
  ghost predicate CollisionFreeAmong(cfg: Config, l: Ledger, mine: Credential -> bool) {
    forall i, j :: 0 <= i < j < |l| && mine(l[i]) && mine(l[j])
                   && cfg.blake2(PreimageAt(l, i)) == cfg.blake2(PreimageAt(l, j)) ==>
      PreimageAt(l, i) == PreimageAt(l, j)
  }

  /** Once the counter is stuck, no issuer and holder meet again among the entries that are `mine`. */
  ghost predicate NoRepeatAmong(l: Ledger, mine: Credential -> bool) {
    forall i, j :: U64_MAX <= i < j < |l| && mine(l[i]) && mine(l[j]) ==>
      !(l[i].issuer == l[j].issuer && l[i].holder == l[j].holder)
  }

  ghost predicate DistinctAmong(l: Ledger, mine: Credential -> bool) {
    forall i, j :: 0 <= i < j < |l| && mine(l[i]) && mine(l[j]) ==> l[i].credentialId != l[j].credentialId
  }

  /** Ids are distinct exactly when no buffers collide and no pair recurs at the maximum. */
  lemma DistinctAmongExactly(cfg: Config, l: Ledger, mine: Credential -> bool)
    requires Numbered(cfg, l)
    ensures DistinctAmong(l, mine) <==> CollisionFreeAmong(cfg, l, mine) && NoRepeatAmong(l, mine)
  {
    if DistinctAmong(l, mine) {
      forall i, j | 0 <= i < j < |l| && mine(l[i]) && mine(l[j])
        ensures cfg.blake2(PreimageAt(l, i)) != cfg.blake2(PreimageAt(l, j))
      {
        assert l[i].credentialId != l[j].credentialId;
      }
      forall i, j | U64_MAX <= i < j < |l| && mine(l[i]) && mine(l[j])
        ensures !(l[i].issuer == l[j].issuer && l[i].holder == l[j].holder)
      {
        assert cfg.blake2(PreimageAt(l, i)) != cfg.blake2(PreimageAt(l, j));
      }
    }
    if CollisionFreeAmong(cfg, l, mine) && NoRepeatAmong(l, mine) {
      forall i, j | 0 <= i < j < |l| && mine(l[i]) && mine(l[j]) ensures l[i].credentialId != l[j].credentialId {
        if l[i].credentialId == l[j].credentialId {
          assert PreimageAt(l, i) == PreimageAt(l, j);
          PreimageInjective(Cap64(i), l[i].issuer, l[i].holder, Cap64(j), l[j].issuer, l[j].holder);
        }
      }
    }
  }

  function Everyone(): Credential -> bool {
    (c: Credential) => true
  }

  ghost predicate CollisionFree(cfg: Config, l: Ledger) {
    CollisionFreeAmong(cfg, l, Everyone())
  }

  ghost predicate NoRepeatAtMaximum(l: Ledger) {
    NoRepeatAmong(l, Everyone())
  }

  /** The ids of a run are pairwise distinct exactly when the hash does not collide on what was
      hashed and no issuer-holder pair recurs after the counter has saturated. */
  lemma DistinctIdsExactly(cfg: Config, actions: seq<Action>)
    ensures DistinctIds(Issued(cfg, actions)) <==>
            CollisionFree(cfg, Issued(cfg, actions)) && NoRepeatAtMaximum(Issued(cfg, actions))
  {
    CredentialsRefineLedger(cfg, actions);
    DistinctAmongExactly(cfg, Issued(cfg, actions), Everyone());
  }

  /** Below saturation freedom from collisions alone gives distinct ids. */
  lemma DistinctBelowMaximum(cfg: Config, actions: seq<Action>)
    requires |Issued(cfg, actions)| <= U64_MAX + 1
    ensures DistinctIds(Issued(cfg, actions)) <==> CollisionFree(cfg, Issued(cfg, actions))
  {
    DistinctIdsExactly(cfg, actions);
  }

  /** The hash does not collide on p and a buffer hashed before. */
  ghost predicate NoCollisionWith(cfg: Config, l: Ledger, p: Bytes) {
    forall k :: 0 <= k < |l| && cfg.blake2(PreimageAt(l, k)) == cfg.blake2(p) ==> PreimageAt(l, k) == p
  }

  /** The pair has not issued since the counter saturated. */
  ghost predicate NewAtMaximum(l: Ledger, issuer: AccountId, holder: AccountId) {
    forall k :: U64_MAX <= k < |l| ==> !(l[k].issuer == issuer && l[k].holder == holder)
  }

  ghost predicate Unused(l: Ledger, id: Bytes32) {
    forall k :: 0 <= k < |l| ==> l[k].credentialId != id
  }

  lemma UnusedExactly(cfg: Config, l: Ledger, issuer: AccountId, holder: AccountId)
    requires Numbered(cfg, l)
    ensures Unused(l, IdAt(cfg, |l|, issuer, holder)) <==>
            NoCollisionWith(cfg, l, Preimage(Cap64(|l|), issuer, holder)) && NewAtMaximum(l, issuer, holder)
  {
    var p := Preimage(Cap64(|l|), issuer, holder);
    if Unused(l, cfg.blake2(p)) {
      forall k | 0 <= k < |l| ensures cfg.blake2(PreimageAt(l, k)) != cfg.blake2(p) {
        assert l[k].credentialId != cfg.blake2(p);
      }
      forall k | U64_MAX <= k < |l| ensures !(l[k].issuer == issuer && l[k].holder == holder) {
        assert cfg.blake2(PreimageAt(l, k)) != cfg.blake2(p);
      }
    }
    if NoCollisionWith(cfg, l, p) && NewAtMaximum(l, issuer, holder) {
      forall k | 0 <= k < |l| ensures l[k].credentialId != cfg.blake2(p) {
        if l[k].credentialId == cfg.blake2(p) {
          assert PreimageAt(l, k) == p;
          PreimageInjective(Cap64(k), l[k].issuer, l[k].holder, Cap64(|l|), issuer, holder);
        }
      }
    }
  }

  /** The key a successful issue writes is unused exactly when its buffer collides with none hashed
      before and its pair is new since saturation; and then alone the ids stay distinct. */
  lemma IssueIsFresh(cfg: Config, actions: seq<Action>, origin: Origin, call: CredentialCall)
    requires call.IssueCredential? && origin.Signed?
    requires Succeeds(cfg, After(cfg, actions), Action.Call(origin, ToCredential(call)))
    ensures var s, l := After(cfg, actions).credential, Issued(cfg, actions);
      var p := Preimage(s.nextId, origin.who, call.holder);
      && (cfg.blake2(p) !in s.credentials <==>
          NoCollisionWith(cfg, l, p) && NewAtMaximum(l, origin.who, call.holder))
      && (DistinctIds(Issued(cfg, actions + [Action.Call(origin, ToCredential(call))])) <==>
          DistinctIds(l) && cfg.blake2(p) !in s.credentials)
  {
    var s, l, a := After(cfg, actions), Issued(cfg, actions), Action.Call(origin, ToCredential(call));
    IssuedSnoc(cfg, actions, a);
    CredentialsRefineLedger(cfg, actions);
    var c := IssueAppends(cfg, s, l, origin, call);
    LatestKeys(l, c.credentialId);
    UnusedExactly(cfg, l, origin.who, call.holder);
    if DistinctIds(l + [c]) {
      DistinctPrefix(l, l + [c]);
    }
    if DistinctIds(l) {
      DistinctAppend(l, c);
    }
  }

  /** Below the maximum the counter is the number of issues, and the key is unused exactly when
      the new buffer collides with none before it. */
  lemma FreshBelowMaximum(cfg: Config, actions: seq<Action>, origin: Origin, call: CredentialCall)
    requires call.IssueCredential? && origin.Signed?
    requires Succeeds(cfg, After(cfg, actions), Action.Call(origin, ToCredential(call)))
    requires |Issued(cfg, actions)| <= U64_MAX
    ensures var s, l := After(cfg, actions).credential, Issued(cfg, actions);
      var p := Preimage(|l|, origin.who, call.holder);
      && s.nextId == |l|
      && (cfg.blake2(p) !in s.credentials <==> NoCollisionWith(cfg, l, p))
  {
    CredentialsRefineLedger(cfg, actions);
    IssueIsFresh(cfg, actions, origin, call);
  }

  lemma IssueAppends(cfg: Config, s: Storage, l: Ledger, origin: Origin, call: CredentialCall) returns (c: Credential)
    requires Refines(cfg, s.credential, l) && call.IssueCredential?
    requires Succeeds(cfg, s, Action.Call(origin, ToCredential(call)))
    ensures NextLedger(cfg, s, l, Action.Call(origin, ToCredential(call))) == l + [c]
    ensures origin.Signed? && c.credentialId == cfg.blake2(Preimage(s.credential.nextId, origin.who, call.holder))
  {
    IssueOutcome(cfg, s, l, origin, call);
    LedgerIssueId(cfg, s.block, s.did, l, origin, call);
    c := LedgerIssue(cfg, s.block, s.did, l, origin, call).value;
  }

  lemma IssueOutcome(cfg: Config, s: Storage, l: Ledger, origin: Origin, call: CredentialCall)
    requires Refines(cfg, s.credential, l) && call.IssueCredential?
    ensures Succeeds(cfg, s, Action.Call(origin, ToCredential(call))) <==>
            LedgerIssue(cfg, s.block, s.did, l, origin, call).Ok?
  {
    IssueRefines(cfg, s.block, s.did, s.credential, l, origin, call);
  }

  lemma LedgerIssueId(cfg: Config, block: nat, d: DidState, l: Ledger, origin: Origin, call: CredentialCall)
    requires call.IssueCredential? && LedgerIssue(cfg, block, d, l, origin, call).Ok?
    ensures origin.Signed?
    ensures LedgerIssue(cfg, block, d, l, origin, call).value.credentialId == IdAt(cfg, |l|, origin.who, call.holder)
  {
  }
}
