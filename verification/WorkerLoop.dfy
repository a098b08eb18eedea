/** The loop that turns a bounded pass into a service: how long it rests, when it
    stops, and the wait a stop signal can interrupt. */
module WorkerLoop {
  import opened Common

  datatype PassResult =
    | Success | BudgetStop | NothingNew | RunAlreadyActive
    | EndpointUnavailable | StorageUnavailable | DecoderMismatch | ConfigurationRequired

  datatype Signal = Signal(result: PassResult, budgetExhausted: bool, blocksBehind: Option<nat>, didWork: bool)
  datatype Cadence = Cadence(catchUp: nat, idle: nat, backoff: nat, maxBackoff: nat)

  predicate BackoffWorthy(r: PassResult) {
    r.EndpointUnavailable? || r.StorageUnavailable? || r.DecoderMismatch? || r.ConfigurationRequired?
  }

  predicate Fatal(r: PassResult) { r.DecoderMismatch? || r.ConfigurationRequired? }

  function Pow2(n: nat): nat { if n == 0 then 1 else 2 * Pow2(n - 1) }

  // --- the cadence --------------------------------------------------------------------

  function NextDelay(s: Signal, c: Cadence, failures: nat, threshold: nat): nat {
    if BackoffWorthy(s.result) then
      Min(c.maxBackoff, c.backoff * Pow2(Min(Max(0, failures - 1), 10)))
    else if s.result.RunAlreadyActive? then c.catchUp * 4
    else if s.budgetExhausted then c.catchUp
    else if s.blocksBehind.Some? && s.blocksBehind.value > threshold then c.catchUp
    else if s.didWork then c.catchUp
    else c.idle
  }

  /** Repeated refusals wait longer, never shorter and never past the ceiling: the wait
      doubles from one refusal to the next until it is capped, and stays there. */
  lemma BackoffDoublesUpToItsCeiling(s: Signal, c: Cadence, failures: nat, threshold: nat)
    requires s.result in {EndpointUnavailable, StorageUnavailable, DecoderMismatch, ConfigurationRequired}
    requires failures > 0
    ensures NextDelay(s, c, 1, threshold) == Min(c.maxBackoff, c.backoff)
    ensures NextDelay(s, c, failures, threshold) <= c.maxBackoff
    ensures NextDelay(s, c, failures, threshold) <= NextDelay(s, c, failures + 1, threshold)
    ensures failures < 11 ==>
      NextDelay(s, c, failures + 1, threshold) == Min(c.maxBackoff, 2 * NextDelay(s, c, failures, threshold))
    ensures failures >= 11 ==> NextDelay(s, c, failures + 1, threshold) == NextDelay(s, c, failures, threshold)
  {
    assert Pow2(0) == 1;
    if failures < 11 {
      assert Pow2(failures) == 2 * Pow2(failures - 1);
      var wait := c.backoff * Pow2(failures - 1);
      assert c.backoff * Pow2(failures) == 2 * wait;
    }
  }

  predicate FarBehind(s: Signal, threshold: nat) { s.blocksBehind.Some? && s.blocksBehind.value > threshold }

  /** Whatever `b` left to hurry for, `a` left too. */
  predicate LeavesAsMuch(a: Signal, b: Signal, threshold: nat) {
    && (b.budgetExhausted ==> a.budgetExhausted) && (b.didWork ==> a.didWork)
    && (FarBehind(b, threshold) ==> FarBehind(a, threshold))
  }

  /** Of two passes without a refusal the one that left more to do is never followed by
      the longer rest, and what went wrong before either has no say in it. */
  lemma MoreLeftNeverRestsLonger(a: Signal, b: Signal, c: Cadence, failures: nat, failures': nat, threshold: nat)
    requires !BackoffWorthy(a.result) && !BackoffWorthy(b.result)
      && a.result.RunAlreadyActive? == b.result.RunAlreadyActive?
    requires c.catchUp <= c.idle && LeavesAsMuch(a, b, threshold)
    ensures NextDelay(a, c, failures, threshold) <= NextDelay(b, c, failures', threshold)
  {
  }

  /** Without a refusal: four times the catch-up wait for a lease held elsewhere, the idle
      wait when nothing is left to hurry for, the catch-up wait otherwise. */
  lemma RestsExactlyWhenNothingIsLeft(s: Signal, c: Cadence, failures: nat, threshold: nat)
    requires s.result !in {EndpointUnavailable, StorageUnavailable, DecoderMismatch, ConfigurationRequired}
    ensures var wait := NextDelay(s, c, failures, threshold);
      var left := s.budgetExhausted || s.didWork || (s.blocksBehind.Some? && threshold < s.blocksBehind.value);
      wait == if s.result == RunAlreadyActive then 4 * c.catchUp else if left then c.catchUp else c.idle
  {
  }

  // --- the loop ---------------------------------------------------------------------------

  datatype Reason = StopSignal | FatalResult | MaxPasses | PassThrew
  datatype Entry = Entry(result: PassResult, delay: nat, failures: nat)

  /** How many refusals in a row end with pass `n`. */
  ghost function Trailing(pass: nat -> Option<Signal>, n: nat): nat {
    if pass(n) == None || !BackoffWorthy(pass(n).value.result) then 0
    else if n == 0 then 1 else Trailing(pass, n - 1) + 1
  }

  predicate Refuses(pass: nat -> Option<Signal>, i: nat) {
    pass(i).Some?
    && pass(i).value.result in {EndpointUnavailable, StorageUnavailable, DecoderMismatch, ConfigurationRequired}
  }

  /** The last so many passes were refused, and the one before them was not. */
  lemma {:induction false} TrailingMeaning(pass: nat -> Option<Signal>, n: nat)
    ensures Trailing(pass, n) <= n + 1
    ensures forall i :: n - Trailing(pass, n) < i <= n ==> Refuses(pass, i)
    ensures Trailing(pass, n) <= n ==> !Refuses(pass, n - Trailing(pass, n))
  {
    if Refuses(pass, n) && n > 0 { TrailingMeaning(pass, n - 1); }
  }

  ghost function Said(pass: nat -> Option<Signal>, c: Cadence, threshold: nat, n: nat): Entry
    requires pass(n).Some?
  {
    Entry(pass(n).value.result, NextDelay(pass(n).value, c, Trailing(pass, n), threshold), Trailing(pass, n))
  }

  /** The loop looks at the stop flag before each pass and again before each wait; a
      stop is seen from look number `stopAt` on. */
  predicate Running(stopAt: Option<nat>, look: nat) { stopAt == None || look < stopAt.value }

  /** A pass that throws, or a result no further pass can mend. */
  predicate Last(pass: nat -> Option<Signal>, n: nat) { pass(n) == None || Fatal(pass(n).value.result) }

  /** Given nothing that stops it a service runs on; otherwise it comes to an end. */
  method RunWorkerLoop(pass: nat -> Option<Signal>, c: Cadence, threshold: nat, stopAt: Option<nat>,
                       maxPasses: Option<nat>)
    returns (passes: nat, reason: Reason, log: seq<Entry>, waits: seq<nat>)
    requires stopAt.Some? || maxPasses.Some? || exists n: nat :: Last(pass, n)
    // every pass that returned is logged, with the refusals in a row it ends
    ensures |log| == passes && forall i :: 0 <= i < passes ==> pass(i).Some? && log[i] == Said(pass, c, threshold, i)
    // it waits what it logged, after every pass but perhaps the last
    ensures |waits| <= passes <= |waits| + 1 && forall i :: 0 <= i < |waits| ==> waits[i] == log[i].delay
    // why it ended
    ensures reason.FatalResult? <==>
      passes > 0 && pass(passes - 1).value.result in {DecoderMismatch, ConfigurationRequired}
    ensures forall i :: 0 <= i < passes - 1 ==> pass(i).value.result !in {DecoderMismatch, ConfigurationRequired}
    ensures reason.MaxPasses? ==> maxPasses == Some(passes) && |waits| == passes
    ensures maxPasses.Some? ==> passes <= maxPasses.value
    ensures reason.PassThrew? ==> pass(passes) == None && |waits| == passes
    ensures reason.StopSignal? ==> stopAt.Some? && passes == (stopAt.value + 1) / 2 && |waits| == stopAt.value / 2
    // no pass starts once the stop can be seen
    ensures stopAt.Some? ==> passes <= (stopAt.value + 1) / 2 && |waits| <= stopAt.value / 2
  {
    passes, log, waits := 0, [], [];
    var failures := 0;
    ghost var last: nat := 0;
    if stopAt == None && maxPasses == None { last :| Last(pass, last); }
    while Running(stopAt, 2 * passes)
      invariant |log| == passes && forall i :: 0 <= i < passes ==>
        pass(i).Some? && log[i] == Said(pass, c, threshold, i)
      invariant |waits| == passes && forall i :: 0 <= i < passes ==> waits[i] == log[i].delay
      invariant failures == if passes == 0 then 0 else Trailing(pass, passes - 1)
      invariant forall i :: 0 <= i < passes ==> !Fatal(pass(i).value.result)
      invariant stopAt == None && maxPasses == None ==> Last(pass, last) && passes <= last
      invariant maxPasses.Some? ==> passes <= maxPasses.value
      invariant stopAt.Some? ==> 2 * passes <= stopAt.value + 1 && (passes > 0 ==> 2 * passes - 1 < stopAt.value)
      decreases if maxPasses.Some? then maxPasses.value - passes
                else if stopAt.Some? then stopAt.value + 2 - 2 * passes else last - passes
    {
      if maxPasses == Some(passes) { return passes, MaxPasses, log, waits; }
      var answer := pass(passes);
      if answer == None { return passes, PassThrew, log, waits; }
      var signal := answer.value;
      failures := if BackoffWorthy(signal.result) then failures + 1 else 0;
      var delay := NextDelay(signal, c, failures, threshold);
      log := log + [Entry(signal.result, delay, failures)];
      passes := passes + 1;
      if Fatal(signal.result) { return passes, FatalResult, log, waits; }
      if !Running(stopAt, 2 * passes - 1) { break; }
      waits := waits + [delay];
    }
    reason := StopSignal;
  }

  // --- the wait a signal can interrupt --------------------------------------------------------

  /** The wait's own state: the handle that wakes it, the timers armed, the number of the
      next wait, and the waits resolved so far in order. */
  datatype Waits = Waits(wakePending: Option<nat>, timers: set<nat>, next: nat, resolved: seq<nat>)

  const NoWaits := Waits(None, {}, 0, [])

  function Armed(w: Waits): Waits {
    w.(wakePending := Some(w.next), timers := w.timers + {w.next}, next := w.next + 1)
  }

  /** Clears the timer and the handle, then resolves. */
  function Finished(w: Waits, id: nat): Waits {
    w.(timers := w.timers - {id}, wakePending := None, resolved := w.resolved + [id])
  }

  function Fired(w: Waits, id: nat): Waits { if id in w.timers then Finished(w, id) else w }

  function Woken(w: Waits): Waits { if w.wakePending.Some? then Finished(w, w.wakePending.value) else w }

  /** A wait is outstanding as long as its timer is armed, is resolved at most once, and
      the handle only ever wakes one that is outstanding. */
  ghost predicate Kept(w: Waits) {
    && Distinct(w.resolved)
    && (forall id: nat :: id in w.timers <==> id < w.next && id !in w.resolved)
    && (forall id :: id in w.resolved ==> id < w.next)
    && (w.wakePending.Some? ==> w.wakePending.value in w.timers)
  }

  class InterruptibleWait {
    var wakePending: Option<nat>
    var timers: set<nat>
    var next: nat
    var resolved: seq<nat>

    ghost function View(): Waits reads this { Waits(wakePending, timers, next, resolved) }

    ghost predicate Valid() reads this { Kept(View()) }

    /** No wait is outstanding but the one the handle wakes. */
    ghost predicate OneAtATime() reads this { forall id :: id in timers ==> wakePending == Some(id) }

    constructor ()
      ensures Valid() && OneAtATime() && View() == NoWaits
    {
      wakePending, timers, next, resolved := None, {}, 0, [];
    }

    /** A wait that is new: outstanding, and the one the handle wakes. */
    method Wait() returns (id: nat)
      requires Valid()
      modifies this
      ensures Valid() && View() == Armed(old(View()))
      ensures id !in old(timers) && id !in resolved && id in timers && wakePending == Some(id)
      ensures old(timers) == {} ==> OneAtATime()
    {
      id := next;
      next := next + 1;
      timers := timers + {id};
      wakePending := Some(id);
    }

    method Finish(id: nat)
      requires Valid() && id in timers
      modifies this
      ensures Valid() && View() == Finished(old(View()), id)
    {
      timers := timers - {id};
      wakePending := None;
      resolved := resolved + [id];
    }

    /** A timer's turn: if its wait was outstanding it is resolved now, and if it had been
        resolved before, nothing happens. Either way it has been resolved exactly once. */
    method Fire(id: nat)
      requires Valid()
      modifies this
      ensures Valid() && View() == Fired(old(View()), id)
      ensures id !in timers && (id < next ==> id in resolved)
      ensures resolved == if id in old(timers) then old(resolved) + [id] else old(resolved)
      ensures old(OneAtATime()) ==> OneAtATime()
    {
      if id in timers { Finish(id); }
    }

    /** The wait the handle wakes is resolved with its timer cleared; no wait is left
        outstanding exactly when that was the only one. */
    method Wake()
      requires Valid()
      modifies this
      ensures Valid() && View() == Woken(old(View()))
      ensures wakePending == None && (timers == {} <==> old(OneAtATime()))
      ensures old(OneAtATime()) ==> forall id: nat :: id < next ==> id in resolved
    {
      ghost var outstanding := timers;
      if wakePending.Some? { Finish(wakePending.value); }
      assert old(wakePending) == None ==> timers == outstanding;
      assert old(wakePending).Some? ==> outstanding == timers + {old(wakePending).value};
      if timers != {} { var id :| id in timers; assert id in outstanding; }
    }
  }

  /** Where the loop stands between two turns of the event loop. A settled promise and
      the code waiting on it are separate turns, and a signal may fall between them. */
  datatype Pc = Starting | InPass | PassDone(signal: Signal) | InWait(id: nat) | WaitDone(id: nat) | Ended

  datatype Event = Begin | PassResolves(signal: Signal) | PassRejects | ResumeAfterPass | TimerFires(id: nat)
    | ResumeAfterWait | Stop

  /** `atStop` is how many passes had started when the stop came; it is history. */
  datatype Machine = Machine(pc: Pc, running: bool, waits: Waits, passes: nat, atStop: Option<nat>)

  function LoopTop(m: Machine): Machine {
    if m.running then m.(pc := InPass, passes := m.passes + 1) else m.(pc := Ended)
  }

  /** The loop learns of a wait that has been resolved. */
  function Settled(m: Machine, waits: Waits): Machine {
    m.(waits := waits, pc := if m.pc.InWait? && m.pc.id in waits.resolved then WaitDone(m.pc.id) else m.pc)
  }

  function Step(m: Machine, e: Event): Machine {
    match e
    case Begin => if m.pc.Starting? then LoopTop(m) else m
    case PassResolves(signal) => if m.pc.InPass? then m.(pc := PassDone(signal)) else m
    case PassRejects => if m.pc.InPass? then m.(pc := Ended) else m
    case ResumeAfterPass =>
      if !m.pc.PassDone? then m
      else if Fatal(m.pc.signal.result) || !m.running then m.(pc := Ended)
      else m.(pc := InWait(m.waits.next), waits := Armed(m.waits))
    case TimerFires(id) => Settled(m, Fired(m.waits, id))
    case ResumeAfterWait => if m.pc.WaitDone? then LoopTop(m) else m
    case Stop =>
      Settled(m.(running := false, atStop := if m.atStop == None then Some(m.passes) else m.atStop), Woken(m.waits))
  }

  function RunEvents(m: Machine, es: seq<Event>): Machine
    decreases |es|
  {
    if es == [] then m else RunEvents(Step(m, es[0]), es[1..])
  }

  const Idle := Machine(Starting, true, NoWaits, 0, None)

  ghost predicate Inv(m: Machine) {
    var w := m.waits;
    && w.timers == (if m.pc.InWait? then {m.pc.id} else {})
    && w.wakePending == (if m.pc.InWait? then Some(m.pc.id) else None)
    && (m.pc.InWait? ==> m.running && w.next == m.pc.id + 1)
    && |w.resolved| == (if m.pc.InWait? then w.next - 1 else w.next)
    && (forall i :: 0 <= i < |w.resolved| ==> w.resolved[i] == i)
    && (m.running <==> m.atStop == None)
    && (m.atStop.Some? ==> m.passes == m.atStop.value)
  }

  lemma StepKeepsInv(m: Machine, e: Event)
    requires Inv(m)
    ensures Inv(Step(m, e))
    ensures !m.running ==> !Step(m, e).running && Step(m, e).passes == m.passes
    ensures Step(m, e).passes == m.passes + if Step(m, e).pc.InPass? && !m.pc.InPass? then 1 else 0
  {
  }

  /** The loop moves on exactly at the turn it awaits; a stop moves it only out of a wait. */
  lemma MovesExactlyWhenAwaited(m: Machine, e: Event)
    requires Inv(m)
    ensures Step(m, e).pc != m.pc <==> Awaited(m.pc, e) || (m.pc.InWait? && e.Stop?)
  {
  }

  /** How many passes a run of turns begins. */
  ghost function Begun(m: Machine, es: seq<Event>): nat
    decreases |es|
  {
    if es == [] then 0
    else Begun(Step(m, es[0]), es[1..]) + if Step(m, es[0]).pc.InPass? && !m.pc.InPass? then 1 else 0
  }

  /** However the turns fall, whichever await a stop arrives at: the loop is never left
      in a wait once stopped, no pass starts after the stop, at most one timer is armed
      and only while waiting, and the waits are resolved once each, in order. */
  lemma {:induction false} NoWakeUpIsLost(m: Machine, es: seq<Event>)
    requires Inv(m)
    ensures Inv(RunEvents(m, es))
    ensures !m.running ==> !RunEvents(m, es).running && RunEvents(m, es).passes == m.passes
    ensures RunEvents(m, es).passes == m.passes + Begun(m, es)
    decreases |es|
  {
    if es != [] {
      StepKeepsInv(m, es[0]);
      NoWakeUpIsLost(Step(m, es[0]), es[1..]);
    }
  }

  /** The turns a stopped loop still needs: none but the pass in flight stands between
      it and its end. */
  function TurnsLeft(pc: Pc): nat {
    match pc
    case Starting => 1
    case InPass => 2
    case PassDone(_) => 1
    case WaitDone(_) => 1
    case InWait(_) => 0
    case Ended => 0
  }

  predicate Awaited(pc: Pc, e: Event) {
    match pc
    case Starting => e.Begin?
    case InPass => e.PassResolves? || e.PassRejects?
    case PassDone(_) => e.ResumeAfterPass?
    case WaitDone(_) => e.ResumeAfterWait?
    case InWait(id) => e == TimerFires(id)
    case Ended => false
  }

  /** Once stopped, every turn the loop is waiting for brings it closer to its end and
      no other turn takes it further away, so it ends after at most two of them. */
  lemma StoppedLoopEnds(m: Machine, e: Event)
    requires Inv(m) && !m.running
    ensures TurnsLeft(Step(m, e).pc) <= TurnsLeft(m.pc) <= 2
    ensures Awaited(m.pc, e) ==> TurnsLeft(Step(m, e).pc) < TurnsLeft(m.pc)
    ensures TurnsLeft(m.pc) == 0 <==> m.pc.Ended?
    ensures m.waits.timers == {} && m.waits.wakePending == None && |m.waits.resolved| == m.waits.next
  {
  }
}
