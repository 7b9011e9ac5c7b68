/** The accepted calls of a run, in order, with the block in which each was made. */
module History {
  import opened Prims
  import opened Frame
  import opened Seqs
  import opened Runtime

  datatype Entry = Entry(block: nat, origin: Origin, call: RuntimeCall)

  function NextHistory(cfg: Config, s: Storage, h: seq<Entry>, a: Action): seq<Entry> {
    if a.Call? && Succeeds(cfg, s, a) then h + [Entry(s.block, a.origin, a.call)] else h
  }

  /** The calls of a run that succeeded. */
  function Accepted(cfg: Config, actions: seq<Action>): seq<Entry> {
    if actions == [] then []
    else
      var init := actions[..|actions| - 1];
      NextHistory(cfg, After(cfg, init), Accepted(cfg, init), actions[|actions| - 1])
  }

  function BlocksStarted(actions: seq<Action>): nat {
    |Filter(actions, (a: Action) => a.NextBlock?)|
  }

  /** Blocks are numbered from 1, and only starting one moves the number. */
  lemma {:induction false} BlockCounts(cfg: Config, actions: seq<Action>)
    ensures After(cfg, actions).block == 1 + BlocksStarted(actions)
  {
    if actions != [] {
      BlockCounts(cfg, actions[..|actions| - 1]);
    }
  }

  /** The last entry that satisfies p. */
  function Last(h: seq<Entry>, p: Entry -> bool): Option<Entry> {
    if h == [] then None
    else if p(h[|h| - 1]) then Some(h[|h| - 1])
    else Last(h[..|h| - 1], p)
  }

  function LastBlock(h: seq<Entry>, p: Entry -> bool): nat {
    match Last(h, p)
    case Some(e) => e.block
    case None => 0
  }

  function Count(h: seq<Entry>, p: Entry -> bool): nat {
    |Filter(h, p)|
  }

  lemma LastSnoc(h: seq<Entry>, e: Entry, p: Entry -> bool)
    ensures Last(h + [e], p) == if p(e) then Some(e) else Last(h, p)
    ensures Count(h + [e], p) == Count(h, p) + if p(e) then 1 else 0
  {
    assert (h + [e])[..|h|] == h;
    FilterSnoc(h, e, p);
  }

  /** What Last means: the entry is there, satisfies p, and none after it does. */
  lemma {:induction false} LastIsLast(h: seq<Entry>, p: Entry -> bool)
    ensures Last(h, p).None? <==> forall i :: 0 <= i < |h| ==> !p(h[i])
    ensures Last(h, p).Some? ==>
      exists i :: 0 <= i < |h| && h[i] == Last(h, p).value && p(h[i]) && forall j :: i < j < |h| ==> !p(h[j])
  {
    if h != [] {
      var init := h[..|h| - 1];
      LastIsLast(init, p);
      assert forall j :: 0 <= j < |init| ==> h[j] == init[j];
      if !p(h[|h| - 1]) && Last(init, p).Some? {
        var i :| 0 <= i < |init| && init[i] == Last(init, p).value && p(init[i])
                 && forall j :: i < j < |init| ==> !p(init[j]);
        assert h[i] == Last(h, p).value && p(h[i]);
      }
    }
  }
}
