/** The three pallets as one state machine: dispatch with rollback, blocks, and runs. */
module Runtime {
  import opened Frame
  import opened Did
  import opened Credential
  import opened Reputation

  datatype RuntimeCall =
    | ToDid(did: DidCall)
    | ToCredential(credential: CredentialCall)
    | ToReputation(reputation: ReputationCall)

  /** All storage as a value. */
  datatype Storage = Storage(
    block: nat,
    log: seq<Event>,
    did: DidState,
    credential: CredentialState,
    reputation: ReputationState)

  const GENESIS: Storage :=
    Storage(1, [], DidState(map[], map[]), CredentialState(map[], map[], map[], map[], 0),
            ReputationState(map[], map[], map[], map[]))

  /** One atomic call: the new storage, or the error with storage as it was. */
  function Step(cfg: Config, s: Storage, origin: Origin, call: RuntimeCall): Outcome<Storage> {
    match call
    case ToDid(c) =>
      var e :- DidStep(cfg, s.block, s.did, origin, c);
      Ok(s.(did := e.state, log := s.log + e.events))
    case ToCredential(c) =>
      var e :- CredentialStep(cfg, s.block, s.did, s.credential, origin, c);
      Ok(s.(credential := e.state, log := s.log + e.events))
    case ToReputation(c) =>
      var e :- ReputationStep(cfg, s.block, s.did, s.reputation, origin, c);
      Ok(s.(reputation := e.state, log := s.log + e.events))
  }

  datatype Action = NextBlock | Call(origin: Origin, call: RuntimeCall)

  predicate Succeeds(cfg: Config, s: Storage, a: Action) {
    a.Call? ==> Step(cfg, s, a.origin, a.call).Ok?
  }

  /** A failing call changes nothing. */
  function Next(cfg: Config, s: Storage, a: Action): Storage {
    match a
    case NextBlock => s.(block := s.block + 1)
    case Call(origin, call) =>
      var r := Step(cfg, s, origin, call);
      if r.Ok? then r.value else s
  }

  /** What an action does to each pallet's storage, one pallet at a time. */
  lemma NextByPallet(cfg: Config, s: Storage, a: Action)
    ensures var t := Next(cfg, s, a);
      match a
      case NextBlock => t.did == s.did && t.credential == s.credential && t.reputation == s.reputation
      case Call(o, ToDid(c)) =>
        var r := DidStep(cfg, s.block, s.did, o, c);
        && t == s.(did := t.did, log := t.log) && (Succeeds(cfg, s, a) <==> r.Ok?)
        && t.did == if r.Ok? then r.value.state else s.did
      case Call(o, ToCredential(c)) =>
        var r := CredentialStep(cfg, s.block, s.did, s.credential, o, c);
        && t == s.(credential := t.credential, log := t.log) && (Succeeds(cfg, s, a) <==> r.Ok?)
        && t.credential == if r.Ok? then r.value.state else s.credential
      case Call(o, ToReputation(c)) =>
        var r := ReputationStep(cfg, s.block, s.did, s.reputation, o, c);
        && t == s.(reputation := t.reputation, log := t.log) && (Succeeds(cfg, s, a) <==> r.Ok?)
        && t.reputation == if r.Ok? then r.value.state else s.reputation
  {
  }

  /** The storage after a run, failing calls included. */
  function Run(cfg: Config, s: Storage, actions: seq<Action>): Storage {
    if actions == [] then s
    else Next(cfg, Run(cfg, s, actions[..|actions| - 1]), actions[|actions| - 1])
  }

  predicate AllSucceed(cfg: Config, s: Storage, actions: seq<Action>) {
    actions == [] ||
    (AllSucceed(cfg, s, actions[..|actions| - 1])
     && Succeeds(cfg, Run(cfg, s, actions[..|actions| - 1]), actions[|actions| - 1]))
  }

  /** The storage a run from genesis reaches; a storage is reachable if some run reaches it. */
  function After(cfg: Config, actions: seq<Action>): Storage {
    Run(cfg, GENESIS, actions)
  }

  lemma RunSnoc(cfg: Config, s: Storage, actions: seq<Action>, a: Action)
    ensures Run(cfg, s, actions + [a]) == Next(cfg, Run(cfg, s, actions), a)
    ensures AllSucceed(cfg, s, actions + [a]) <==>
            AllSucceed(cfg, s, actions) && Succeeds(cfg, Run(cfg, s, actions), a)
  {
    assert (actions + [a])[..|actions|] == actions;
  }

  lemma {:induction false} RunAppend(cfg: Config, s: Storage, first: seq<Action>, second: seq<Action>)
    ensures Run(cfg, s, first + second) == Run(cfg, Run(cfg, s, first), second)
    ensures AllSucceed(cfg, s, first + second) <==>
            AllSucceed(cfg, s, first) && AllSucceed(cfg, Run(cfg, s, first), second)
  {
    if second == [] {
      assert first + second == first;
    } else {
      var init, a := second[..|second| - 1], second[|second| - 1];
      RunAppend(cfg, s, first, init);
      assert first + second == first + init + [a];
      RunSnoc(cfg, s, first + init, a);
    }
  }

  /** The runtime: the pallets over shared storage. */
  class Runtime {
    const cfg: Config
    const system: System
    const did: DidPallet
    const credential: CredentialPallet
    const reputation: ReputationPallet

    ghost predicate Wired() {
      && did.system == system && credential.system == system && reputation.system == system
      && credential.did == did && reputation.did == did
      && did.cfg == cfg && credential.cfg == cfg && reputation.cfg == cfg
    }

    constructor (cfg: Config)
      ensures Wired() && this.cfg == cfg && Contents() == GENESIS
      ensures fresh(system) && fresh(did) && fresh(credential) && fresh(reputation)
    {
      var system := new System();
      var did := new DidPallet(cfg, system);
      this.cfg, this.system, this.did := cfg, system, did;
      credential := new CredentialPallet(cfg, system, did);
      reputation := new ReputationPallet(cfg, system, did);
    }

    function Contents(): Storage
      reads system, did, credential, reputation
    {
      Storage(system.block, system.log, did.State(), credential.State(), reputation.State())
    }

    method Restore(s: Storage)
      requires system.block == s.block
      modifies system`log, did, credential, reputation
      ensures Contents() == s
    {
      system.log := s.log;
      did.didDocuments, did.institutions := s.did.docs, s.did.institutions;
      credential.credentials, credential.nextCredentialId := s.credential.credentials, s.credential.nextId;
      credential.credentialsByHolder, credential.credentialsByIssuer := s.credential.byHolder, s.credential.byIssuer;
      credential.credentialByHash := s.credential.byHash;
      reputation.reputationScores, reputation.hasEndorsed := s.reputation.scores, s.reputation.endorsed;
      reputation.endorsementsGiven, reputation.endorsementsReceived := s.reputation.given, s.reputation.received;
    }

    /** Run a call in a storage transaction: keep its writes if it succeeds, restore the
        storage and the events it found if it fails. */
    method Dispatch(origin: Origin, call: RuntimeCall) returns (r: Outcome<()>)
      requires Wired()
      modifies system, did, credential, reputation
      ensures Contents() == Next(cfg, old(Contents()), Action.Call(origin, call))
      ensures var spec := Step(cfg, old(Contents()), origin, call);
              r == if spec.Ok? then Ok(()) else Err(spec.error)
    {
      var snapshot := Contents();
      match call {
        case ToDid(c) => r := did.Dispatch(origin, c);
        case ToCredential(c) => r := credential.Dispatch(origin, c);
        case ToReputation(c) => r := reputation.Dispatch(origin, c);
      }
      if r.Err? {
        Restore(snapshot);
      }
    }

    method AdvanceBlock()
      requires Wired()
      modifies system
      ensures Contents() == Next(cfg, old(Contents()), NextBlock)
    {
      system.NextBlock();
    }
  }
}
