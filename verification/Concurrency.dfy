/** Bounded concurrency: a few runners share one cursor over a list of items. The same
    machine serves the mapper, which collects results, and the paced reader, which
    rests between items. */
module Concurrency {
  import opened Common

  datatype Kind = Mapper | Paced

  /** A runner between two of its awaits. */
  datatype Stage = Ready | InFlight(index: nat) | Finished

  /** `claimed` lists the indices in the order they were claimed; it is history. */
  datatype Runners<R> = Runners(kind: Kind, n: nat, cursor: nat, stages: seq<Stage>, results: map<nat, R>,
                                claimed: seq<nat>)

  datatype Event = Claim(runner: nat) | Settle(runner: nat)

  function Start<R>(kind: Kind, n: nat, limit: nat): Runners<R> {
    Runners(kind, n, 0, seq(Min(limit, n), _ => Ready), map[], [])
  }

  /** Claiming takes the cursor and moves it on in one turn. The mapper moves it before
      it looks whether there is an item there, the paced reader after. */
  function Step<R>(s: Runners<R>, e: Event, work: nat -> R): Runners<R> {
    if e.runner >= |s.stages| then s
    else
      match e
      case Claim(r) =>
        if !s.stages[r].Ready? then s
        else if s.cursor < s.n then
          s.(cursor := s.cursor + 1, stages := s.stages[r := InFlight(s.cursor)], claimed := s.claimed + [s.cursor])
        else
          s.(cursor := if s.kind.Mapper? then s.cursor + 1 else s.cursor, stages := s.stages[r := Finished])
      case Settle(r) =>
        if !s.stages[r].InFlight? then s
        else s.(stages := s.stages[r := Ready], results := s.results[s.stages[r].index := work(s.stages[r].index)])
  }

  function Run<R>(s: Runners<R>, es: seq<Event>, work: nat -> R): Runners<R>
    decreases |es|
  {
    if es == [] then s else Run(Step(s, es[0], work), es[1..], work)
  }

  function Claims<R>(s: Runners<R>): nat { if s.cursor <= s.n then s.cursor else s.n }

  /** The indices are claimed in order, each once; a runner stops only when nothing is
      left to claim. */
  ghost predicate ClaimedOnce<R>(s: Runners<R>) {
    && (s.kind.Paced? ==> s.cursor <= s.n)
    && |s.claimed| == Claims(s) && (forall i :: 0 <= i < |s.claimed| ==> s.claimed[i] == i)
    && (forall r :: 0 <= r < |s.stages| && s.stages[r].Finished? ==> s.cursor >= s.n)
  }

  /** An index in flight is claimed, has no result yet, and is nobody else's. */
  ghost predicate FlyingAlone<R>(s: Runners<R>) {
    && (forall r :: 0 <= r < |s.stages| && s.stages[r].InFlight? ==>
        s.stages[r].index < Claims(s) && s.stages[r].index !in s.results)
    && (forall r, q :: 0 <= r < q < |s.stages| && s.stages[r].InFlight? ==> s.stages[r] != s.stages[q])
  }

  /** A result stands at its own index; a claimed index without one is in flight. */
  ghost predicate NothingLost<R>(s: Runners<R>, work: nat -> R) {
    && (forall i :: i in s.results ==> i < Claims(s) && s.results[i] == work(i))
    && (forall i: nat :: i < Claims(s) && i !in s.results ==> InFlight(i) in s.stages)
  }

  ghost predicate Inv<R>(s: Runners<R>, work: nat -> R) {
    ClaimedOnce(s) && FlyingAlone(s) && NothingLost(s, work)
  }

  lemma StaysIn(stages: seq<Stage>, r: nat, stage: Stage, x: Stage)
    requires r < |stages| && x in stages && stages[r] != x
    ensures x in stages[r := stage]
  {
    var q :| 0 <= q < |stages| && stages[q] == x;
    assert stages[r := stage][q] == x;
  }

  lemma ClaimKeeps<R>(s: Runners<R>, r: nat, work: nat -> R)
    requires Inv(s, work)
    ensures Inv(Step(s, Claim(r), work), work)
  {
    var s' := Step(s, Claim(r), work);
    if r < |s.stages| && s.stages[r].Ready? {
      forall i: nat | i < Claims(s') && i !in s'.results ensures InFlight(i) in s'.stages {
        if i < Claims(s) {
          StaysIn(s.stages, r, s'.stages[r], InFlight(i));
        } else {
          assert s'.stages[r] == InFlight(i);
        }
      }
    }
  }

  lemma SettleKeeps<R>(s: Runners<R>, r: nat, work: nat -> R)
    requires Inv(s, work)
    ensures Inv(Step(s, Settle(r), work), work)
  {
    var s' := Step(s, Settle(r), work);
    if r < |s.stages| && s.stages[r].InFlight? {
      var done := s.stages[r].index;
      forall q | 0 <= q < |s.stages| && q != r && s.stages[q].InFlight? ensures s.stages[q].index != done {
        if q < r { assert s.stages[q] != s.stages[r]; } else { assert s.stages[r] != s.stages[q]; }
      }
      forall i: nat | i < Claims(s') && i !in s'.results ensures InFlight(i) in s'.stages {
        StaysIn(s.stages, r, Ready, InFlight(i));
      }
    }
  }

  /** Under every interleaving each index is claimed once, in order; a result stands at
      its own index and is what the work gives for it; no index is lost between its
      claim and its result; and there are never more runners than the limit. */
  lemma {:induction false} EveryInterleavingKeeps<R>(s: Runners<R>, es: seq<Event>, work: nat -> R)
    requires Inv(s, work)
    ensures Inv(Run(s, es, work), work)
    ensures Run(s, es, work).n == s.n && |Run(s, es, work).stages| == |s.stages|
    decreases |es|
  {
    if es != [] {
      match es[0] {
        case Claim(r) => ClaimKeeps(s, r, work);
        case Settle(r) => SettleKeeps(s, r, work);
      }
      EveryInterleavingKeeps(Step(s, es[0], work), es[1..], work);
    }
  }

  /** The runners, among the first `n`, that have an item in hand. */
  ghost function Busy(stages: seq<Stage>, n: nat): set<int>
    requires n <= |stages|
  {
    set r | 0 <= r < n && stages[r].InFlight?
  }

  lemma {:induction false} BusyAtMost(stages: seq<Stage>, n: nat)
    requires n <= |stages|
    ensures |Busy(stages, n)| <= n
  {
    if n > 0 {
      BusyAtMost(stages, n - 1);
      var last := Busy(stages, n) - Busy(stages, n - 1);
      assert Busy(stages, n) == Busy(stages, n - 1) + last;
      assert last == if stages[n - 1].InFlight? then {n - 1} else {};
    }
  }

  ghost function Flying(stages: seq<Stage>): nat { |Busy(stages, |stages|)| }

  /** However the runners interleave, at most the limit are in flight, and no more than
      there are items. */
  lemma InFlightWithinLimit<R>(es: seq<Event>, kind: Kind, n: nat, limit: nat, work: nat -> R)
    ensures Flying(Run(Start<R>(kind, n, limit), es, work).stages) <= Min(limit, n)
  {
    EveryInterleavingKeeps(Start<R>(kind, n, limit), es, work);
    var stages := Run(Start<R>(kind, n, limit), es, work).stages;
    BusyAtMost(stages, |stages|);
  }

  ghost predicate AllFinished<R>(s: Runners<R>) { forall r :: 0 <= r < |s.stages| ==> s.stages[r].Finished? }

  ghost predicate Complete<R>(s: Runners<R>, work: nat -> R) {
    forall i: nat :: (i in s.results <==> i < s.n) && (i in s.results ==> s.results[i] == work(i))
  }

  lemma FinishedIsComplete<R>(s: Runners<R>, work: nat -> R)
    requires Inv(s, work) && AllFinished(s) && s.stages != []
    ensures Complete(s, work)
  {
    assert s.stages[0].Finished?;
  }

  lemma {:induction false} NobodyRuns<R>(s: Runners<R>, es: seq<Event>, work: nat -> R)
    requires s.stages == []
    ensures Run(s, es, work) == s
    decreases |es|
  {
    if es != [] { NobodyRuns(Step(s, es[0], work), es[1..], work); }
  }

  /** When every runner has stopped the results are the sequential map, every item at its
      place, exactly when there was a runner at all or nothing to do. */
  lemma MapsExactlyWhenSomebodyRuns<R>(es: seq<Event>, kind: Kind, n: nat, limit: nat, work: nat -> R)
    requires AllFinished(Run(Start<R>(kind, n, limit), es, work))
    ensures Complete(Run(Start<R>(kind, n, limit), es, work), work) <==> (limit >= 1 || n == 0)
  {
    var s := Run(Start<R>(kind, n, limit), es, work);
    EveryInterleavingKeeps(Start<R>(kind, n, limit), es, work);
    if n > 0 && limit >= 1 {
      FinishedIsComplete(s, work);
    } else {
      NobodyRuns(Start<R>(kind, n, limit), es, work);
      if n > 0 { assert 0 !in s.results; }
    }
  }

  /** Until every runner has stopped some runner can move, so no run is stuck short of
      the end. */
  lemma NeverStuck<R>(s: Runners<R>, work: nat -> R) returns (e: Event)
    requires !AllFinished(s)
    ensures Step(s, e, work) != s
  {
    var r :| 0 <= r < |s.stages| && !s.stages[r].Finished?;
    e := if s.stages[r].Ready? then Claim(r) else Settle(r);
    assert Step(s, e, work).stages[r] != s.stages[r];
  }

  function Weight(stage: Stage): nat { if stage.InFlight? then 2 else if stage.Ready? then 1 else 0 }

  function Weights(stages: seq<Stage>): nat {
    if stages == [] then 0 else Weight(stages[0]) + Weights(stages[1..])
  }

  /** The turns a run still has before it. */
  function TurnsLeft<R>(s: Runners<R>): nat { 2 * (s.n - Claims(s)) + Weights(s.stages) }

  lemma {:induction false} WeightsUpdate(stages: seq<Stage>, r: nat, stage: Stage)
    requires r < |stages|
    ensures Weights(stages[r := stage]) == Weights(stages) - Weight(stages[r]) + Weight(stage)
  {
    if r > 0 {
      WeightsUpdate(stages[1..], r - 1, stage);
      assert stages[r := stage][1..] == stages[1..][r - 1 := stage];
    } else {
      assert stages[0 := stage][1..] == stages[1..];
    }
  }

  /** Every turn that changes anything brings the end one turn nearer, whoever takes it:
      all complete runs take the same number of turns. */
  lemma EachTurnCounts<R>(s: Runners<R>, e: Event, work: nat -> R)
    requires Inv(s, work) && Step(s, e, work) != s
    ensures TurnsLeft(Step(s, e, work)) == TurnsLeft(s) - 1
  {
    WeightsUpdate(s.stages, e.runner, Step(s, e, work).stages[e.runner]);
  }
}
