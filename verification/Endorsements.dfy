/** What the ledger says about whole runs of endorsement calls: erasure, independence of
    calls on different pairs, and conservation between the two sides. */
module Endorsements {
  import opened Prims
  import opened Frame
  import opened Seqs
  import opened Did
  import opened Reputation
  import opened Runtime
  import opened ReputationLedger

  function EndorseAction(a: AccountId, b: AccountId, t: EndorsementType, comment: Bytes, weight: U8): Action {
    Action.Call(Signed(a), ToReputation(Endorse(b, t, comment, weight)))
  }

  function RemoveAction(a: AccountId, b: AccountId): Action {
    Action.Call(Signed(a), ToReputation(RemoveEndorsement(b)))
  }

  /** Storage that refines the same ledger answers every query alike. */
  lemma SameLedgerSameView(cfg: Config, s: ReputationState, t: ReputationState, l: Ledger)
    requires Refines(cfg, s, l) && Refines(cfg, t, l)
    ensures SameView(s, t)
  {
    forall a ensures s.Score(a) == t.Score(a) && s.Given(a) == t.Given(a) && s.Received(a) == t.Received(a) {
      assert ScoreAgrees(s.Score(a), l, a) && ScoreAgrees(t.Score(a), l, a);
      assert s.Given(a) == GivenBy(l, a) && s.Received(a) == ReceivedBy(l, a);
    }
    forall a, b ensures s.HasEndorsed(a, b) == t.HasEndorsed(a, b) {
      assert s.HasEndorsed(a, b) <==> HasPair(l, a, b);
    }
  }

  // ---------- endorsing ----------

  /** In a reachable state endorsing succeeds exactly when the arguments are in range, two distinct
      accounts are active, the ledger lacks the pair, and both have room on the ledger. */
  lemma EndorseSucceedsExactly(cfg: Config, actions: seq<Action>, a: AccountId, b: AccountId, t: EndorsementType,
                               comment: Bytes, weight: U8)
    ensures Succeeds(cfg, After(cfg, actions), EndorseAction(a, b, t, comment, weight)) <==>
      && |comment| <= cfg.maxCommentSize && 1 <= weight <= 10 && a != b
      && IsActive(After(cfg, actions).did, a) && IsActive(After(cfg, actions).did, b)
      && !HasPair(LedgerAfter(cfg, actions), a, b)
      && |GivenBy(LedgerAfter(cfg, actions), a)| < cfg.maxEndorsements
      && |ReceivedBy(LedgerAfter(cfg, actions), b)| < cfg.maxEndorsements
  {
    ReputationRefinesLedger(cfg, actions);
    var s := After(cfg, actions);
    StepRefines(cfg, s.block, s.did, s.reputation, LedgerAfter(cfg, actions), Signed(a), Endorse(b, t, comment, weight));
  }

  // ---------- erasure ----------

  lemma DropOfAppend(l: Ledger, e: Endorsement, a: AccountId, b: AccountId)
    ensures Drop(l.(entries := l.entries + [e]), a, b) ==
            if e.endorser == a && e.endorsee == b then Drop(l, a, b)
            else Drop(l, a, b).(entries := Drop(l, a, b).entries + [e])
  {
    FilterSnoc(l.entries, e, OtherPair(a, b));
  }

  lemma DropOfAbsent(l: Ledger, a: AccountId, b: AccountId)
    requires !HasPair(l, a, b)
    ensures Drop(l, a, b) == l
  {
    forall e | e in l.entries ensures OtherPair(a, b)(e) {
      var i :| 0 <= i < |l.entries| && l.entries[i] == e;
    }
    FilterAll(l.entries, OtherPair(a, b));
  }

  lemma DropCommutes(l: Ledger, a: AccountId, b: AccountId, c: AccountId, d: AccountId)
    ensures Drop(Drop(l, a, b), c, d) == Drop(Drop(l, c, d), a, b)
  {
    FilterSwap(l.entries, OtherPair(a, b), OtherPair(c, d), OtherPair(c, d));
  }

  lemma DropShortens(l: Ledger, a: AccountId, b: AccountId, c: AccountId)
    ensures |GivenBy(Drop(l, a, b), c)| <= |GivenBy(l, c)|
    ensures |ReceivedBy(Drop(l, a, b), c)| <= |ReceivedBy(l, c)|
  {
    DropProjects(l, a, b);
  }

  lemma EndorseCommutesWithDrop(cfg: Config, block: nat, d: DidState, l: Ledger, origin: Origin, call: ReputationCall,
                                a: AccountId, b: AccountId)
    requires HasPair(l, a, b) && call.Endorse? && LedgerStep(cfg, block, d, l, origin, call).Ok?
    ensures LedgerStep(cfg, block, d, Drop(l, a, b), origin, call)
            == Ok(Drop(LedgerStep(cfg, block, d, l, origin, call).value, a, b))
    ensures HasPair(LedgerStep(cfg, block, d, l, origin, call).value, a, b)
  {
    var x, y := origin.who, call.endorsee;
    var e := Endorsement(x, y, call.endorsementType, call.comment, block, call.weight);
    DropPairs(l, a, b, x, y);
    DropShortens(l, a, b, x);
    DropShortens(l, a, b, y);
    DropOfAppend(l, e, a, b);
    AppendProjects(l, e);
  }

  /** Deleting an entry commutes with every successful call except its own removal. */
  lemma StepCommutesWithDrop(cfg: Config, block: nat, d: DidState, l: Ledger, origin: Origin, call: ReputationCall,
                             a: AccountId, b: AccountId)
    requires HasPair(l, a, b) && LedgerStep(cfg, block, d, l, origin, call).Ok?
    requires !(origin == Signed(a) && call == RemoveEndorsement(b))
    ensures LedgerStep(cfg, block, d, Drop(l, a, b), origin, call)
            == Ok(Drop(LedgerStep(cfg, block, d, l, origin, call).value, a, b))
    ensures HasPair(LedgerStep(cfg, block, d, l, origin, call).value, a, b)
  {
    match call
    case Endorse(_, _, _, _) => EndorseCommutesWithDrop(cfg, block, d, l, origin, call, a, b);
    case RemoveEndorsement(y) =>
      DropPairs(l, a, b, origin.who, y);
      DropPairs(l, origin.who, y, a, b);
      DropCommutes(l, a, b, origin.who, y);
    case _ =>
  }

  /** Two storages that differ only in one endorsement, which the first has. */
  ghost predicate Twins(cfg: Config, s: Storage, t: Storage, l: Ledger, a: AccountId, b: AccountId) {
    && s.block == t.block && s.did == t.did && s.credential == t.credential
    && Refines(cfg, s.reputation, l) && HasPair(l, a, b)
    && Refines(cfg, t.reputation, Drop(l, a, b))
  }

  lemma TwinsStep(cfg: Config, s: Storage, t: Storage, l: Ledger, a: AccountId, b: AccountId, action: Action)
    requires Twins(cfg, s, t, l, a, b) && Succeeds(cfg, s, action) && action != RemoveAction(a, b)
    ensures Succeeds(cfg, t, action)
    ensures Twins(cfg, Next(cfg, s, action), Next(cfg, t, action), NextLedger(cfg, s, l, action), a, b)
  {
    if action.Call? && action.call.ToReputation? {
      var c := action.call.reputation;
      StepRefines(cfg, s.block, s.did, s.reputation, l, action.origin, c);
      StepRefines(cfg, t.block, t.did, t.reputation, Drop(l, a, b), action.origin, c);
      StepCommutesWithDrop(cfg, s.block, s.did, l, action.origin, c, a, b);
    }
  }

  lemma {:induction false} TwinsRun(cfg: Config, s: Storage, t: Storage, l: Ledger, a: AccountId, b: AccountId,
                                    actions: seq<Action>)
    requires Twins(cfg, s, t, l, a, b)
    requires AllSucceed(cfg, s, actions) && RemoveAction(a, b) !in actions
    ensures AllSucceed(cfg, t, actions)
    ensures Twins(cfg, Run(cfg, s, actions), Run(cfg, t, actions), LedgerRun(cfg, s, l, actions), a, b)
  {
    if actions != [] {
      var init, x := actions[..|actions| - 1], actions[|actions| - 1];
      assert x in actions;
      TwinsRun(cfg, s, t, l, a, b, init);
      TwinsStep(cfg, Run(cfg, s, init), Run(cfg, t, init), LedgerRun(cfg, s, l, init), a, b, x);
    }
  }

  /** The storages agree on everything but the event log. */
  ghost predicate Equivalent(s: Storage, t: Storage) {
    && s.block == t.block && s.did == t.did && s.credential == t.credential
    && SameView(s.reputation, t.reputation)
  }

  /** Removing the endorsement that tells two storages apart makes them equivalent. */
  lemma TwinsEnd(cfg: Config, with: Storage, without: Storage, m: Ledger, a: AccountId, b: AccountId)
    requires Twins(cfg, with, without, m, a, b)
    ensures Succeeds(cfg, with, RemoveAction(a, b))
    ensures Equivalent(Next(cfg, with, RemoveAction(a, b)), without)
  {
    RemoveRefines(cfg, with.block, with.did, with.reputation, m, a, b);
    SameLedgerSameView(cfg, Next(cfg, with, RemoveAction(a, b)).reputation, without.reputation, Drop(m, a, b));
  }

  /** Erasure: endorse, any successful calls of all pallets, then remove, is those calls alone. */
  lemma Erasure(cfg: Config, before: seq<Action>, a: AccountId, b: AccountId, t: EndorsementType, comment: Bytes,
                weight: U8, between: seq<Action>)
    requires Succeeds(cfg, After(cfg, before), EndorseAction(a, b, t, comment, weight))
    requires AllSucceed(cfg, Next(cfg, After(cfg, before), EndorseAction(a, b, t, comment, weight)), between)
    requires RemoveAction(a, b) !in between
    ensures AllSucceed(cfg, After(cfg, before), between)
    ensures var with := Run(cfg, Next(cfg, After(cfg, before), EndorseAction(a, b, t, comment, weight)), between);
      && Succeeds(cfg, with, RemoveAction(a, b))
      && Equivalent(Next(cfg, with, RemoveAction(a, b)), Run(cfg, After(cfg, before), between))
  {
    var s, l, x := After(cfg, before), LedgerAfter(cfg, before), EndorseAction(a, b, t, comment, weight);
    ReputationRefinesLedger(cfg, before);
    StepRefines(cfg, s.block, s.did, s.reputation, l, x.origin, x.call.reputation);
    var e := Endorsement(a, b, t, comment, s.block, weight);
    var s1, l1 := Next(cfg, s, x), l.(entries := l.entries + [e]);
    AppendProjects(l, e);
    DropOfAppend(l, e, a, b);
    DropOfAbsent(l, a, b);
    TwinsRun(cfg, s1, s, l1, a, b, between);
    TwinsEnd(cfg, Run(cfg, s1, between), Run(cfg, s, between), LedgerRun(cfg, s1, l1, between), a, b);
  }

  // ---------- independence ----------

  /** An endorse or remove call by a signed account. */
  predicate OnPair(x: Action) {
    && x.Call? && x.origin.Signed? && x.call.ToReputation?
    && (x.call.reputation.Endorse? || x.call.reputation.RemoveEndorsement?)
  }

  function EndorseeOf(x: Action): AccountId
    requires OnPair(x)
  {
    x.call.reputation.endorsee
  }

  predicate BothEndorse(x: Action, y: Action)
    requires OnPair(x) && OnPair(y)
  {
    x.call.reputation.Endorse? && y.call.reputation.Endorse?
  }

  /** The entry an endorse call appends at the given block. */
  function EntryOf(x: Action, block: nat): Endorsement
    requires OnPair(x) && x.call.reputation.Endorse?
  {
    var c := x.call.reputation;
    Endorsement(x.origin.who, c.endorsee, c.endorsementType, c.comment, block, c.weight)
  }

  function OnLedger(cfg: Config, s: Storage, l: Ledger, x: Action): Outcome<Ledger>
    requires OnPair(x)
  {
    LedgerStep(cfg, s.block, s.did, l, x.origin, x.call.reputation)
  }

  /** On the ledger the calls swap; the orders differ only in how two appended entries are ordered. */
  lemma LedgerCallsSwap(cfg: Config, s: Storage, l: Ledger, x: Action, y: Action)
    requires OnPair(x) && OnPair(y)
    requires x.origin != y.origin || EndorseeOf(x) != EndorseeOf(y)
    requires OnLedger(cfg, s, l, x).Ok? && OnLedger(cfg, s, l, y).Ok?
    requires OnLedger(cfg, s, OnLedger(cfg, s, l, x).value, y).Ok?
    ensures OnLedger(cfg, s, OnLedger(cfg, s, l, y).value, x).Ok?
    ensures
      var xy := OnLedger(cfg, s, OnLedger(cfg, s, l, x).value, y).value;
      var yx := OnLedger(cfg, s, OnLedger(cfg, s, l, y).value, x).value;
      if BothEndorse(x, y) then
        && xy == l.(entries := l.entries + [EntryOf(x, s.block)] + [EntryOf(y, s.block)])
        && yx == l.(entries := l.entries + [EntryOf(y, s.block)] + [EntryOf(x, s.block)])
      else xy == yx
  {
    if x.call.reputation.Endorse? {
      if y.call.reputation.Endorse? {
        AppendAfterAppend(cfg, s, l, x, y);
      } else {
        AppendAfterDrop(cfg, s, l, x, y);
      }
    } else {
      DropAfter(cfg, s, l, x, y);
    }
  }

  lemma AppendAfterAppend(cfg: Config, s: Storage, l: Ledger, x: Action, y: Action)
    requires OnPair(x) && x.call.reputation.Endorse? && OnPair(y) && y.call.reputation.Endorse?
    requires OnLedger(cfg, s, l, x).Ok? && OnLedger(cfg, s, l, y).Ok?
    requires OnLedger(cfg, s, OnLedger(cfg, s, l, x).value, y).Ok?
    ensures OnLedger(cfg, s, OnLedger(cfg, s, l, y).value, x)
            == Ok(l.(entries := l.entries + [EntryOf(y, s.block)] + [EntryOf(x, s.block)]))
  {
    var e, f := EntryOf(x, s.block), EntryOf(y, s.block);
    AppendPairs(l, e, f.endorser, f.endorsee);
    AppendPairs(l, f, e.endorser, e.endorsee);
    FilterSnoc(l.entries, e, By(f.endorser));
    FilterSnoc(l.entries, e, To(f.endorsee));
    FilterSnoc(l.entries, f, By(e.endorser));
    FilterSnoc(l.entries, f, To(e.endorsee));
  }

  lemma DropAfter(cfg: Config, s: Storage, l: Ledger, x: Action, y: Action)
    requires OnPair(x) && x.call.reputation.RemoveEndorsement? && OnPair(y)
    requires x.origin != y.origin || EndorseeOf(x) != EndorseeOf(y)
    requires OnLedger(cfg, s, l, x).Ok? && OnLedger(cfg, s, l, y).Ok?
    requires OnLedger(cfg, s, OnLedger(cfg, s, l, x).value, y).Ok?
    ensures OnLedger(cfg, s, OnLedger(cfg, s, l, y).value, x) == OnLedger(cfg, s, OnLedger(cfg, s, l, x).value, y)
  {
    var a, b := x.origin.who, EndorseeOf(x);
    if y.call.reputation.Endorse? {
      AppendProjects(l, EntryOf(y, s.block));
      DropOfAppend(l, EntryOf(y, s.block), a, b);
    } else {
      DropPairs(l, y.origin.who, EndorseeOf(y), a, b);
      DropCommutes(l, a, b, y.origin.who, EndorseeOf(y));
    }
  }

  lemma AppendAfterDrop(cfg: Config, s: Storage, l: Ledger, x: Action, y: Action)
    requires OnPair(x) && x.call.reputation.Endorse? && OnPair(y) && y.call.reputation.RemoveEndorsement?
    requires x.origin != y.origin || EndorseeOf(x) != EndorseeOf(y)
    requires OnLedger(cfg, s, l, x).Ok? && OnLedger(cfg, s, l, y).Ok?
    ensures OnLedger(cfg, s, OnLedger(cfg, s, l, y).value, x)
            == Ok(Drop(OnLedger(cfg, s, l, x).value, y.origin.who, EndorseeOf(y)))
  {
    var a, b, c, d := x.origin.who, EndorseeOf(x), y.origin.who, EndorseeOf(y);
    DropPairs(l, c, d, a, b);
    DropShortens(l, c, d, a);
    DropShortens(l, c, d, b);
    DropOfAppend(l, EntryOf(x, s.block), c, d);
  }

  /** Same flags and scores; lists equal as multisets, and in order where the endpoints differ. */
  ghost predicate SameUpToOrder(s: ReputationState, t: ReputationState, sameGivenOrder: bool, sameReceivedOrder: bool) {
    && (forall a :: s.Score(a) == t.Score(a))
    && (forall a, b :: s.HasEndorsed(a, b) == t.HasEndorsed(a, b))
    && (forall a :: multiset(s.Given(a)) == multiset(t.Given(a)))
    && (forall a :: multiset(s.Received(a)) == multiset(t.Received(a)))
    && (sameGivenOrder ==> forall a :: s.Given(a) == t.Given(a))
    && (sameReceivedOrder ==> forall a :: s.Received(a) == t.Received(a))
  }

  lemma SwappedEntries(cfg: Config, s: ReputationState, t: ReputationState, l: Ledger, e: Endorsement, f: Endorsement)
    requires Refines(cfg, s, l.(entries := l.entries + [e] + [f]))
    requires Refines(cfg, t, l.(entries := l.entries + [f] + [e]))
    ensures SameUpToOrder(s, t, e.endorser != f.endorser, e.endorsee != f.endorsee)
  {
    forall a
      ensures s.Score(a) == t.Score(a)
      ensures multiset(s.Given(a)) == multiset(t.Given(a)) && multiset(s.Received(a)) == multiset(t.Received(a))
      ensures e.endorser != f.endorser ==> s.Given(a) == t.Given(a)
      ensures e.endorsee != f.endorsee ==> s.Received(a) == t.Received(a)
    {
      SwappedFor(cfg, s, t, l, e, f, a);
    }
    forall a, b ensures s.HasEndorsed(a, b) == t.HasEndorsed(a, b) {
      SwappedFlags(cfg, s, t, l, e, f, a, b);
    }
  }

  lemma SwappedProjections(l: Ledger, e: Endorsement, f: Endorsement, a: AccountId)
    ensures var ef, fe := l.(entries := l.entries + [e] + [f]), l.(entries := l.entries + [f] + [e]);
      && multiset(GivenBy(ef, a)) == multiset(GivenBy(fe, a))
      && multiset(ReceivedBy(ef, a)) == multiset(ReceivedBy(fe, a))
      && |GivenBy(ef, a)| == |GivenBy(fe, a)| && |ReceivedBy(ef, a)| == |ReceivedBy(fe, a)|
      && (e.endorser != f.endorser ==> GivenBy(ef, a) == GivenBy(fe, a))
      && (e.endorsee != f.endorsee ==> ReceivedBy(ef, a) == ReceivedBy(fe, a))
  {
    SwappedFilter(l.entries, e, f, By(a));
    SwappedFilter(l.entries, e, f, To(a));
  }

  lemma SwappedFilter(s: seq<Endorsement>, e: Endorsement, f: Endorsement, keep: Endorsement -> bool)
    ensures var ef, fe := Filter(s + [e] + [f], keep), Filter(s + [f] + [e], keep);
      multiset(ef) == multiset(fe) && |ef| == |fe| && (!keep(e) || !keep(f) ==> ef == fe)
  {
    FilterSnoc(s, e, keep);
    FilterSnoc(s + [e], f, keep);
    FilterSnoc(s, f, keep);
    FilterSnoc(s + [f], e, keep);
  }

  lemma SwappedFor(cfg: Config, s: ReputationState, t: ReputationState, l: Ledger, e: Endorsement, f: Endorsement,
                   a: AccountId)
    requires Refines(cfg, s, l.(entries := l.entries + [e] + [f]))
    requires Refines(cfg, t, l.(entries := l.entries + [f] + [e]))
    ensures s.Score(a) == t.Score(a)
    ensures multiset(s.Given(a)) == multiset(t.Given(a)) && multiset(s.Received(a)) == multiset(t.Received(a))
    ensures e.endorser != f.endorser ==> s.Given(a) == t.Given(a)
    ensures e.endorsee != f.endorsee ==> s.Received(a) == t.Received(a)
  {
    var ef, fe := l.(entries := l.entries + [e] + [f]), l.(entries := l.entries + [f] + [e]);
    SwappedProjections(l, e, f, a);
    assert ScoreAgrees(s.Score(a), ef, a) && ScoreAgrees(t.Score(a), fe, a);
    assert s.Given(a) == GivenBy(ef, a) && t.Given(a) == GivenBy(fe, a);
    assert s.Received(a) == ReceivedBy(ef, a) && t.Received(a) == ReceivedBy(fe, a);
  }

  lemma SwappedFlags(cfg: Config, s: ReputationState, t: ReputationState, l: Ledger, e: Endorsement, f: Endorsement,
                     a: AccountId, b: AccountId)
    requires Refines(cfg, s, l.(entries := l.entries + [e] + [f]))
    requires Refines(cfg, t, l.(entries := l.entries + [f] + [e]))
    ensures s.HasEndorsed(a, b) == t.HasEndorsed(a, b)
  {
    var le, lf := l.(entries := l.entries + [e]), l.(entries := l.entries + [f]);
    AppendProjects(l, e);
    AppendProjects(l, f);
    AppendProjects(le, f);
    AppendProjects(lf, e);
    assert s.HasEndorsed(a, b) <==> HasPair(le.(entries := le.entries + [f]), a, b);
    assert t.HasEndorsed(a, b) <==> HasPair(lf.(entries := lf.entries + [e]), a, b);
  }

  /** Independence: on two different pairs the order of calls does not matter. */
  lemma Independence(cfg: Config, before: seq<Action>, x: Action, y: Action)
    requires OnPair(x) && OnPair(y)
    requires x.origin != y.origin || EndorseeOf(x) != EndorseeOf(y)
    requires Succeeds(cfg, After(cfg, before), x) && Succeeds(cfg, After(cfg, before), y)
    requires Succeeds(cfg, Next(cfg, After(cfg, before), x), y)
    ensures Succeeds(cfg, Next(cfg, After(cfg, before), y), x)
    ensures
      var xy := Next(cfg, Next(cfg, After(cfg, before), x), y);
      var yx := Next(cfg, Next(cfg, After(cfg, before), y), x);
      && xy.block == yx.block && xy.did == yx.did && xy.credential == yx.credential
      && SameUpToOrder(xy.reputation, yx.reputation,
                       !BothEndorse(x, y) || x.origin != y.origin,
                       !BothEndorse(x, y) || EndorseeOf(x) != EndorseeOf(y))
  {
    var s, l := After(cfg, before), LedgerAfter(cfg, before);
    ReputationRefinesLedger(cfg, before);
    var sx, lx := Next(cfg, s, x), NextLedger(cfg, s, l, x);
    var sy, ly := Next(cfg, s, y), NextLedger(cfg, s, l, y);
    StepRefines(cfg, s.block, s.did, s.reputation, l, x.origin, x.call.reputation);
    StepRefines(cfg, s.block, s.did, s.reputation, l, y.origin, y.call.reputation);
    StepRefines(cfg, sx.block, sx.did, sx.reputation, lx, y.origin, y.call.reputation);
    StepRefines(cfg, sy.block, sy.did, sy.reputation, ly, x.origin, x.call.reputation);
    LedgerCallsSwap(cfg, s, l, x, y);
    var xy, yx := Next(cfg, sx, y).reputation, Next(cfg, sy, x).reputation;
    if BothEndorse(x, y) {
      SwappedEntries(cfg, xy, yx, l, EntryOf(x, s.block), EntryOf(y, s.block));
    } else {
      SameLedgerSameView(cfg, xy, yx, NextLedger(cfg, sx, lx, y));
    }
  }

  // ---------- conservation ----------

  function GivenLength(s: ReputationState): AccountId -> nat {
    (a: AccountId) => |s.Given(a)|
  }

  function ReceivedLength(s: ReputationState): AccountId -> nat {
    (a: AccountId) => |s.Received(a)|
  }

  function GivenCounter(s: ReputationState): AccountId -> nat {
    (a: AccountId) => s.Score(a).endorsementsGiven
  }

  function ReceivedCounter(s: ReputationState): AccountId -> nat {
    (a: AccountId) => s.Score(a).endorsementsReceived
  }

  function GivenShare(l: Ledger): AccountId -> nat {
    (a: AccountId) => |GivenBy(l, a)|
  }

  function ReceivedShare(l: Ledger): AccountId -> nat {
    (a: AccountId) => |ReceivedBy(l, a)|
  }

  lemma {:induction false} SharesSum(accounts: set<AccountId>, l: Ledger)
    requires forall e :: e in l.entries ==> e.endorser in accounts && e.endorsee in accounts
    ensures Sum(accounts, GivenShare(l)) == |l.entries| == Sum(accounts, ReceivedShare(l))
    decreases |l.entries|
  {
    if l.entries == [] {
      SumZero(accounts, GivenShare(l));
      SumZero(accounts, ReceivedShare(l));
    } else {
      var e := l.entries[|l.entries| - 1];
      var m := l.(entries := l.entries[..|l.entries| - 1]);
      assert e in l.entries && l == m.(entries := m.entries + [e]);
      SharesSum(accounts, m);
      AppendProjects(m, e);
      SumBump(accounts, GivenShare(m), GivenShare(l), e.endorser);
      SumBump(accounts, ReceivedShare(m), ReceivedShare(l), e.endorsee);
    }
  }

  function PairsOf(s: seq<Endorsement>): set<(AccountId, AccountId)> {
    if s == [] then {} else PairsOf(s[..|s| - 1]) + {(s[|s| - 1].endorser, s[|s| - 1].endorsee)}
  }

  lemma {:induction false} PairsOfCounts(s: seq<Endorsement>)
    requires DistinctPairs(s)
    ensures |PairsOf(s)| == |s|
    ensures forall a, b :: (a, b) in PairsOf(s) <==> exists i :: 0 <= i < |s| && s[i].endorser == a && s[i].endorsee == b
  {
    if s != [] {
      PairsOfCounts(s[..|s| - 1]);
      forall a, b
        ensures (a, b) in PairsOf(s) <==> exists i :: 0 <= i < |s| && s[i].endorser == a && s[i].endorsee == b
      {
        if (a, b) in PairsOf(s[..|s| - 1]) {
          var i :| 0 <= i < |s| - 1 && s[..|s| - 1][i].endorser == a && s[..|s| - 1][i].endorsee == b;
          assert s[i].endorser == a;
        }
        if i :| 0 <= i < |s| - 1 && s[i].endorser == a && s[i].endorsee == b {
          assert s[..|s| - 1][i].endorser == a;
        }
      }
    }
  }

  /** The pairs whose flag is set. */
  function Flagged(s: ReputationState): set<(AccountId, AccountId)> {
    set p | p in s.endorsed && s.endorsed[p]
  }

  /** Handshake: summed over all accounts that appear, both counters, both list maps and the
      flags count the same endorsements, after every run. */
  lemma Handshake(cfg: Config, actions: seq<Action>, accounts: set<AccountId>)
    requires forall a :: After(cfg, actions).reputation.Given(a) != [] ==> a in accounts
    requires forall a :: After(cfg, actions).reputation.Received(a) != [] ==> a in accounts
    ensures var s := After(cfg, actions).reputation;
      Sum(accounts, GivenLength(s)) == Sum(accounts, ReceivedLength(s)) == Sum(accounts, GivenCounter(s))
      == Sum(accounts, ReceivedCounter(s)) == |Flagged(s)|
  {
    ReputationRefinesLedger(cfg, actions);
    var s, l := After(cfg, actions).reputation, LedgerAfter(cfg, actions);
    forall e | e in l.entries ensures e.endorser in accounts && e.endorsee in accounts {
      FilterIn(l.entries, By(e.endorser), e);
      FilterIn(l.entries, To(e.endorsee), e);
      assert e in s.Given(e.endorser) && e in s.Received(e.endorsee);
    }
    SharesSum(accounts, l);
    forall a ensures s.Score(a).endorsementsGiven == |s.Given(a)| == |GivenBy(l, a)|
             ensures s.Score(a).endorsementsReceived == |s.Received(a)| == |ReceivedBy(l, a)| {
      assert ScoreAgrees(s.Score(a), l, a) && s.Given(a) == GivenBy(l, a) && s.Received(a) == ReceivedBy(l, a);
    }
    SumCongruent(accounts, GivenShare(l), GivenLength(s));
    SumCongruent(accounts, GivenShare(l), GivenCounter(s));
    SumCongruent(accounts, ReceivedShare(l), ReceivedLength(s));
    SumCongruent(accounts, ReceivedShare(l), ReceivedCounter(s));
    FlagsCount(cfg, s, l);
  }

  lemma FlagsCount(cfg: Config, s: ReputationState, l: Ledger)
    requires Refines(cfg, s, l)
    ensures |Flagged(s)| == |l.entries|
  {
    PairsOfCounts(l.entries);
    forall p ensures p in Flagged(s) <==> p in PairsOf(l.entries) {
      assert s.HasEndorsed(p.0, p.1) <==> HasPair(l, p.0, p.1);
      assert p == (p.0, p.1);
    }
    assert Flagged(s) == PairsOf(l.entries);
  }
}
