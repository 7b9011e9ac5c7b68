/** Runs from genesis with two chosen issues at two chosen positions of the ledger, all other
    positions filled by accounts that issue once, to themselves. */
module Staging {
  import opened Prims
  import opened Frame
  import opened Did
  import opened Credential
  import opened Runtime
  import opened CredentialLedger
  import opened CredentialRuns

  function DidAction(origin: Origin, call: DidCall): Action {
    Action.Call(origin, ToDid(call))
  }

  /** The n-th credential: its hash is its position. */
  function PlainIssue(holder: AccountId, n: nat): CredentialCall
    requires n <= U64_MAX + 1
  {
    IssueCredential(holder, n as Bytes32, Degree, [], None)
  }

  function IssueAction(issuer: AccountId, holder: AccountId, n: nat): Action
    requires n <= U64_MAX + 1
  {
    Action.Call(Signed(issuer), ToCredential(PlainIssue(holder, n)))
  }

  /** Creating, registering and verifying x. */
  function Enlist(x: AccountId): seq<Action> {
    [DidAction(Signed(x), CreateDid(0, Ed25519))]
    + [DidAction(Signed(x), RegisterInstitution([0]))]
    + [DidAction(Root, VerifyInstitution(x))]
  }

  // ---------- one account more ----------

  /** DID calls issue nothing. */
  lemma DidCallStep(cfg: Config, run: seq<Action>, origin: Origin, call: DidCall)
    requires DidStep(cfg, After(cfg, run).block, After(cfg, run).did, origin, call).Ok?
    ensures Issued(cfg, run + [DidAction(origin, call)]) == Issued(cfg, run)
    ensures After(cfg, run + [DidAction(origin, call)]).did
            == DidStep(cfg, After(cfg, run).block, After(cfg, run).did, origin, call).value.state
  {
    IssuedSnoc(cfg, run, DidAction(origin, call));
    NextByPallet(cfg, After(cfg, run), DidAction(origin, call));
  }

  lemma CreateWorks(cfg: Config, block: nat, d: DidState, x: AccountId)
    requires cfg.maxPublicKeys > 0 && x !in d.docs
    ensures var r := DidStep(cfg, block, d, Signed(x), CreateDid(0, Ed25519));
      r.Ok? && IsActive(r.value.state, x)
      && r.value.state.docs.Keys == d.docs.Keys + {x} && r.value.state.institutions == d.institutions
      && forall y :: y in d.docs ==> r.value.state.docs[y] == d.docs[y]
  {
  }

  lemma RegisterWorks(cfg: Config, block: nat, d: DidState, x: AccountId)
    requires x in d.docs && x !in d.institutions
    ensures var r := DidStep(cfg, block, d, Signed(x), RegisterInstitution([0]));
      r.Ok? && r.value.state.docs == d.docs && r.value.state.institutions.Keys == d.institutions.Keys + {x}
      && forall y :: y in d.institutions ==> r.value.state.institutions[y] == d.institutions[y]
  {
  }

  lemma VerifyWorks(cfg: Config, block: nat, d: DidState, x: AccountId)
    requires x in d.institutions
    ensures var r := DidStep(cfg, block, d, Root, VerifyInstitution(x));
      r.Ok? && IsVerified(r.value.state, x)
      && r.value.state.docs == d.docs && r.value.state.institutions.Keys == d.institutions.Keys
      && forall y :: y != x && y in d.institutions ==> r.value.state.institutions[y] == d.institutions[y]
  {
  }

  /** Whoever has a document is a verified, active institution. */
  ghost predicate AllReady(d: DidState) {
    d.docs.Keys == d.institutions.Keys && forall x :: x in d.docs ==> IsActive(d, x) && IsVerified(d, x)
  }

  lemma EnlistWorks(cfg: Config, run: seq<Action>, x: AccountId)
    requires cfg.maxPublicKeys > 0 && AllReady(After(cfg, run).did) && x !in After(cfg, run).did.docs
    ensures AllReady(After(cfg, run + Enlist(x)).did)
    ensures After(cfg, run + Enlist(x)).did.docs.Keys == After(cfg, run).did.docs.Keys + {x}
    ensures Issued(cfg, run + Enlist(x)) == Issued(cfg, run)
  {
    var create, register, verify := CreateDid(0, Ed25519), RegisterInstitution([0]), VerifyInstitution(x);
    var one := run + [DidAction(Signed(x), create)];
    var two := one + [DidAction(Signed(x), register)];
    var d := After(cfg, run).did;
    CreateWorks(cfg, After(cfg, run).block, d, x);
    DidCallStep(cfg, run, Signed(x), create);
    RegisterWorks(cfg, After(cfg, one).block, After(cfg, one).did, x);
    DidCallStep(cfg, one, Signed(x), register);
    VerifyWorks(cfg, After(cfg, two).block, After(cfg, two).did, x);
    DidCallStep(cfg, two, Root, verify);
    assert run + Enlist(x) == two + [DidAction(Root, verify)];
    OneMoreReady(d, After(cfg, run + Enlist(x)).did, x);
  }

  lemma OneMoreReady(d: DidState, e: DidState, x: AccountId)
    requires AllReady(d) && e.docs.Keys == d.docs.Keys + {x} && e.institutions.Keys == d.institutions.Keys + {x}
    requires IsActive(e, x) && IsVerified(e, x)
    requires forall y :: y != x && y in d.docs ==> e.docs[y] == d.docs[y] && e.institutions[y] == d.institutions[y]
    ensures AllReady(e)
  {
    forall y | y in e.docs ensures IsActive(e, y) && IsVerified(e, y) {
      assert y != x ==> IsActive(d, y) && IsVerified(d, y);
    }
  }

  lemma EnsureEnlisted(cfg: Config, run: seq<Action>, x: AccountId) returns (more: seq<Action>)
    requires cfg.maxPublicKeys > 0 && AllReady(After(cfg, run).did)
    ensures AllReady(After(cfg, more).did) && After(cfg, more).did.docs.Keys == After(cfg, run).did.docs.Keys + {x}
    ensures Issued(cfg, more) == Issued(cfg, run)
  {
    if x in After(cfg, run).did.docs {
      more := run;
    } else {
      EnlistWorks(cfg, run, x);
      more := run + Enlist(x);
    }
  }

  // ---------- one issue more ----------

  lemma IssueWorks(cfg: Config, run: seq<Action>, issuer: AccountId, holder: AccountId, n: nat) returns (c: Credential)
    requires AllReady(After(cfg, run).did) && n <= U64_MAX + 1
    requires issuer in After(cfg, run).did.docs && holder in After(cfg, run).did.docs
    requires !HashIssued(Issued(cfg, run), n as Bytes32)
    requires |HolderRefs(Issued(cfg, run), holder)| < cfg.maxCredentialsPerHolder
    requires |IssuerIds(Issued(cfg, run), issuer)| < cfg.maxCredentialsPerHolder
    ensures Succeeds(cfg, After(cfg, run), IssueAction(issuer, holder, n))
    ensures Issued(cfg, run + [IssueAction(issuer, holder, n)]) == Issued(cfg, run) + [c]
    ensures c.credentialHash == n as Bytes32 && c.holder == holder && c.issuer == issuer
    ensures c.status == Active && c.expiresAt == None
    ensures After(cfg, run + [IssueAction(issuer, holder, n)])
            == Next(cfg, After(cfg, run), IssueAction(issuer, holder, n))
    ensures After(cfg, run + [IssueAction(issuer, holder, n)]).did == After(cfg, run).did
  {
    assert IsActive(After(cfg, run).did, issuer) && IsVerified(After(cfg, run).did, issuer);
    assert IsActive(After(cfg, run).did, holder);
    IssueSucceedsExactly(cfg, run, Signed(issuer), PlainIssue(holder, n));
    IssuedSnoc(cfg, run, IssueAction(issuer, holder, n));
    NextByPallet(cfg, After(cfg, run), IssueAction(issuer, holder, n));
    CredentialsRefineLedger(cfg, run);
    IssueOutcome(cfg, After(cfg, run), Issued(cfg, run), Signed(issuer), PlainIssue(holder, n));
    var s := After(cfg, run);
    c := LedgerIssue(cfg, s.block, s.did, Issued(cfg, run), Signed(issuer), PlainIssue(holder, n)).value;
  }

  /** At most one entry, at position i if anywhere, is held by x. */
  lemma {:induction false} HeldOnce(l: Ledger, x: AccountId, i: nat)
    requires forall k :: 0 <= k < |l| && k != i ==> l[k].holder != x
    ensures |HolderRefs(l, x)| <= if i < |l| && l[i].holder == x then 1 else 0
  {
    if l != [] {
      HeldOnce(l[..|l| - 1], x, i);
    }
  }

  lemma {:induction false} IssuedOnce(l: Ledger, x: AccountId, i: nat)
    requires forall k :: 0 <= k < |l| && k != i ==> l[k].issuer != x
    ensures |IssuerIds(l, x)| <= if i < |l| && l[i].issuer == x then 1 else 0
  {
    if l != [] {
      IssuedOnce(l[..|l| - 1], x, i);
    }
  }

  // ---------- the plan ----------

  /** Entry i is issued by a to b, and the later entry j by c to d. */
  datatype Plan = Plan(i: nat, a: AccountId, b: AccountId, j: nat, c: AccountId, d: AccountId)

  predicate InReach(p: Plan) {
    p.i < p.j <= U64_MAX + 1
  }

  /** What the bounds have to allow. */
  predicate RoomFor(cfg: Config, p: Plan) {
    && cfg.maxPublicKeys > 0
    && cfg.maxCredentialsPerHolder >= if p.a == p.c || p.b == p.d then 2 else 1
  }

  predicate Apart(p: Plan, x: int) {
    x != p.a as int && x != p.b as int && x != p.c as int && x != p.d as int
  }

  /** The account that fills position k: one of five, of which the plan names at most four. */
  function Filler(p: Plan, k: nat): (x: AccountId)
    requires k <= U64_MAX + 1
    ensures 5 * k <= x as int < 5 * k + 5 && Apart(p, x as int)
  {
    if Apart(p, 5 * k) then (5 * k) as AccountId
    else if Apart(p, 5 * k + 1) then (5 * k + 1) as AccountId
    else if Apart(p, 5 * k + 2) then (5 * k + 2) as AccountId
    else if Apart(p, 5 * k + 3) then (5 * k + 3) as AccountId
    else (5 * k + 4) as AccountId
  }

  function IssuerAt(p: Plan, k: nat): AccountId
    requires k <= U64_MAX + 1
  {
    if k == p.i then p.a else if k == p.j then p.c else Filler(p, k)
  }

  function HolderAt(p: Plan, k: nat): AccountId
    requires k <= U64_MAX + 1
  {
    if k == p.i then p.b else if k == p.j then p.d else Filler(p, k)
  }

  ghost predicate FollowsPlan(l: Ledger, p: Plan, n: nat) {
    && n <= U64_MAX + 2 && |l| == n
    && forall k :: 0 <= k < n ==>
         l[k].issuer == IssuerAt(p, k) && l[k].holder == HolderAt(p, k) && l[k].credentialHash as int == k
  }

  /** The first n entries are issued; the accounts of the plan are ready, later fillers still absent. */
  ghost predicate Staged(cfg: Config, run: seq<Action>, p: Plan, n: nat) {
    && AllReady(After(cfg, run).did) && {p.a, p.b, p.c, p.d} <= After(cfg, run).did.docs.Keys
    && (forall k :: n <= k <= U64_MAX + 1 ==> Filler(p, k) !in After(cfg, run).did.docs)
    && FollowsPlan(Issued(cfg, run), p, n)
  }

  lemma StageNothing(cfg: Config, p: Plan) returns (run: seq<Action>)
    requires cfg.maxPublicKeys > 0
    ensures Staged(cfg, run, p, 0)
  {
    var one := EnsureEnlisted(cfg, [], p.a);
    var two := EnsureEnlisted(cfg, one, p.b);
    var three := EnsureEnlisted(cfg, two, p.c);
    run := EnsureEnlisted(cfg, three, p.d);
    KeysOfFour(After(cfg, one).did, After(cfg, two).did, After(cfg, three).did, After(cfg, run).did, p);
    assert Issued(cfg, []) == [];
  }

  lemma KeysOfFour(d: DidState, e: DidState, f: DidState, g: DidState, p: Plan)
    requires d.docs.Keys == {p.a} && e.docs.Keys == d.docs.Keys + {p.b}
    requires f.docs.Keys == e.docs.Keys + {p.c} && g.docs.Keys == f.docs.Keys + {p.d}
    ensures {p.a, p.b, p.c, p.d} <= g.docs.Keys
    ensures forall k :: 0 <= k <= U64_MAX + 1 ==> Filler(p, k) !in g.docs
  {
    forall k | 0 <= k <= U64_MAX + 1 ensures Filler(p, k) !in g.docs.Keys {
      assert Apart(p, Filler(p, k) as int);
    }
  }

  /** Position n has room on both lists, and its hash is new. */
  lemma PlanHasRoom(cfg: Config, l: Ledger, p: Plan, n: nat)
    requires InReach(p) && RoomFor(cfg, p) && FollowsPlan(l, p, n) && n <= p.j
    ensures !HashIssued(l, n as Bytes32)
    ensures |HolderRefs(l, HolderAt(p, n))| < cfg.maxCredentialsPerHolder
    ensures |IssuerIds(l, IssuerAt(p, n))| < cfg.maxCredentialsPerHolder
  {
    HeldOnce(l, HolderAt(p, n), p.i);
    IssuedOnce(l, IssuerAt(p, n), p.i);
  }

  /** The planned issue at position n works once its parties are ready. */
  lemma IssuePlanned(cfg: Config, run: seq<Action>, p: Plan, n: nat) returns (more: seq<Action>)
    requires InReach(p) && RoomFor(cfg, p) && n <= p.j
    requires AllReady(After(cfg, run).did) && {p.a, p.b, p.c, p.d} <= After(cfg, run).did.docs.Keys
    requires (forall k :: n < k <= U64_MAX + 1 ==> Filler(p, k) !in After(cfg, run).did.docs)
    requires FollowsPlan(Issued(cfg, run), p, n)
    requires IssuerAt(p, n) in After(cfg, run).did.docs && HolderAt(p, n) in After(cfg, run).did.docs
    ensures more == run + [IssueAction(IssuerAt(p, n), HolderAt(p, n), n)]
    ensures Succeeds(cfg, After(cfg, run), IssueAction(IssuerAt(p, n), HolderAt(p, n), n))
    ensures Staged(cfg, more, p, n + 1)
    ensures Issued(cfg, more) == Issued(cfg, run) + [Issued(cfg, more)[n]]
    ensures Issued(cfg, more)[n].status == Active && Issued(cfg, more)[n].expiresAt == None
  {
    PlanHasRoom(cfg, Issued(cfg, run), p, n);
    var c := IssueWorks(cfg, run, IssuerAt(p, n), HolderAt(p, n), n);
    more := run + [IssueAction(IssuerAt(p, n), HolderAt(p, n), n)];
    assert Issued(cfg, more)[n] == c;
  }

  lemma StageOneMore(cfg: Config, run: seq<Action>, p: Plan, n: nat) returns (more: seq<Action>)
    requires InReach(p) && RoomFor(cfg, p) && n <= p.j && Staged(cfg, run, p, n)
    ensures Staged(cfg, more, p, n + 1)
  {
    if n == p.i || n == p.j {
      more := IssuePlanned(cfg, run, p, n);
    } else {
      EnlistWorks(cfg, run, Filler(p, n));
      more := IssuePlanned(cfg, run + Enlist(Filler(p, n)), p, n);
    }
  }

  lemma {:induction false} Stage(cfg: Config, p: Plan, n: nat) returns (run: seq<Action>)
    requires InReach(p) && RoomFor(cfg, p) && n <= p.j + 1
    ensures Staged(cfg, run, p, n)
  {
    if n == 0 {
      run := StageNothing(cfg, p);
    } else {
      run := Stage(cfg, p, n - 1);
      run := StageOneMore(cfg, run, p, n - 1);
    }
  }

  // ---------- what two entries with one id do to the storage ----------

  lemma RepeatedId(cfg: Config, t: CredentialState, l: Ledger, i: nat, j: nat)
    requires Refines(cfg, t, l) && i < j < |l| && l[i].credentialId == l[j].credentialId
    ensures l[i].credentialHash in t.byHash && l[j].credentialHash in t.byHash
    ensures t.byHash[l[i].credentialHash] == t.byHash[l[j].credentialHash]
    ensures !LeadsHome(t, l[i].credentialHash) && (j == |l| - 1 ==> LeadsHome(t, l[j].credentialHash))
    ensures |t.credentials| < |t.byHash| && !IndexSound(t) && !DistinctIds(l)
  {
    HashIndexAt(l, i);
    HashIndexAt(l, j);
    StoreCounts(cfg, t, l);
    LatestKeys(l, l[j].credentialId);
    var k := StoredIsLast(cfg, t, l, l[j].credentialId);
    assert k >= j;
  }

  // ---------- what any run with two entries needs ----------

  lemma {:induction false} NoKeysNoDocuments(cfg: Config, actions: seq<Action>)
    requires cfg.maxPublicKeys == 0
    ensures After(cfg, actions).did.docs == map[] && Issued(cfg, actions) == []
  {
    if actions != [] {
      var init, a := actions[..|actions| - 1], actions[|actions| - 1];
      NoKeysNoDocuments(cfg, init);
      NextByPallet(cfg, After(cfg, init), a);
    }
  }

  lemma {:induction false} TwoHeld(l: Ledger, i: nat, j: nat)
    requires i < j < |l| && l[i].holder == l[j].holder
    ensures |HolderRefs(l, l[j].holder)| >= 2
  {
    var init := l[..|l| - 1];
    if j < |l| - 1 {
      TwoHeld(init, i, j);
    } else {
      OwnersHaveLists(init, init[i]);
    }
  }

  lemma {:induction false} TwoIssued(l: Ledger, i: nat, j: nat)
    requires i < j < |l| && l[i].issuer == l[j].issuer
    ensures |IssuerIds(l, l[j].issuer)| >= 2
  {
    var init := l[..|l| - 1];
    if j < |l| - 1 {
      TwoIssued(init, i, j);
    } else {
      OwnersHaveLists(init, init[i]);
    }
  }

  /** The two entries of any run fit a plan that the bounds allow. */
  lemma RunHasRoom(cfg: Config, run: seq<Action>, i: nat, j: nat)
    requires i < j < |Issued(cfg, run)|
    ensures var l := Issued(cfg, run); RoomFor(cfg, Plan(i, l[i].issuer, l[i].holder, j, l[j].issuer, l[j].holder))
  {
    var l := Issued(cfg, run);
    CredentialsRefineLedger(cfg, run);
    if cfg.maxPublicKeys == 0 {
      NoKeysNoDocuments(cfg, run);
    }
    OwnersHaveLists(l, l[j]);
    assert |HolderRefs(l, l[j].holder)| <= cfg.maxCredentialsPerHolder;
    assert |IssuerIds(l, l[j].issuer)| <= cfg.maxCredentialsPerHolder;
    if l[i].holder == l[j].holder {
      TwoHeld(l, i, j);
    }
    if l[i].issuer == l[j].issuer {
      TwoIssued(l, i, j);
    }
  }
}
