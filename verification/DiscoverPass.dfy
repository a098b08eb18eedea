/** One bounded ingestion pass, call by call, over the repository and the endpoint.

    Every call may fail, before or after it took effect. The pass is tied to the
    many-worker machine: it hands back the machine events it amounts to. */
module DiscoverPass {
  import opened Common
  import opened DiscoverStore
  import opened DiscoverProtocol
  import opened LaunchReader

  const MAX_SAFE_INTEGER := 9007199254740991

  datatype Config = Config(budget: Budget, maxRuntime: nat, startBlock: Option<int>, rewindDepth: nat, leaseTtl: nat)

  /** What each reading of the clock gives; nothing is assumed of their order. */
  datatype Clock = Clock(startedAt: int, beforeRead: int, detectedAt: int, afterRead: int, rewoundAt: int)

  datatype Faults = Faults(getCursorThrows: bool, initialise: Fault, lease: Fault, anchorThrows: bool,
                           landingThrows: bool,
                           readThrows: bool, record: Fault, stamp: Fault, commit: Fault, rewind: Fault, release: Fault)

  /** A pass that returns reports one run; `Threw` is an exception leaving it. */
  datatype Outcome = Threw | Returned(report: Run)

  datatype Pass = Pass(config: Config, owner: Owner, id: RunId, clock: Clock, faults: Faults)

  // --- the machine events a pass amounts to --------------------------------------

  datatype Trace = Trace(start: Sys, events: seq<Event>, now: Sys)

  ghost predicate Sound(t: Trace) {
    HonestRun(t.start, t.events) && RunEvents(t.start, t.events) == t.now
  }

  function Then(t: Trace, e: Event): Trace { Trace(t.start, t.events + [e], Step(t.now, e)) }

  lemma ThenSound(t: Trace, e: Event)
    requires Sound(t) && Honest(t.now, e)
    ensures Sound(Then(t, e))
  {
    Extended(t.start, t.events, e);
  }

  /** `t` explains the store, with this worker at `pc` and every other one where it was. */
  ghost predicate Explains(t: Trace, start: Sys, store: Store, w: Owner, pc: Pc) {
    && Sound(t) && t.start == start && t.now.store == store
    && t.now.workers == start.workers[w := pc] && t.now.depth == start.depth
  }

  /** A step moves no worker but its own. */
  lemma StepIsLocal(s: Sys, e: Event)
    requires e.w in s.workers
    ensures Step(s, e).workers == s.workers[e.w := PcOf(Step(s, e), e.w)] && Step(s, e).depth == s.depth
  {
  }

  lemma Follow(t: Trace, start: Sys, store: Store, w: Owner, pc: Pc, e: Event) returns (t': Trace)
    requires Explains(t, start, store, w, pc) && e.w == w && Honest(t.now, e)
    ensures t'.now == Step(t.now, e) && Explains(t', start, t'.now.store, w, PcOf(t'.now, w))
  {
    ThenSound(t, e);
    StepIsLocal(t.now, e);
    t' := Then(t, e);
  }

  // --- what a pass may do to the store ----------------------------------------------

  ghost predicate SameLane(a: Store, b: Store) {
    && a.rows == b.rows && (a.cursor.Some? <==> b.cursor.Some?)
    && (a.cursor.Some? ==> a.cursor.value.block == b.cursor.value.block && a.cursor.value.hash == b.cursor.value.hash)
  }

  /** The cursor moved to the end of a range that was read, its launches stored with it. */
  ghost predicate MovedForward(a: Store, b: Store, from: nat, read: Reading) {
    && a.cursor.Some? && b.cursor.Some? && a.cursor.value.block < read.next && from < read.next
    && b.cursor.value.block == read.next && b.cursor.value.hash == read.hash
    && b.rows == InsertLaunches(a.rows, read.launches)
  }

  ghost predicate MovedBack(a: Store, b: Store, to: nat, landing: Option<BlockHash>) {
    && a.cursor.Some? && b.cursor.Some? && to < a.cursor.value.block
    && b.cursor.value.block == to && b.cursor.value.hash == landing && b.rows == TakenBack(a.rows, to)
  }

  ghost predicate SameLease(a: Store, b: Store) {
    a.cursor.Some? && b.cursor.Some? && a.cursor.value.lease == b.cursor.value.lease
  }

  /** At most this pass's own run row was added, whatever way the pass ended. */
  ghost predicate AtMostOneRun(a: Store, b: Store, id: RunId) {
    b.runs == a.runs || exists run :: b.runs == RecordedOnce(a.runs, id, run)
  }

  /** The operator state on the cursor row is as it was. */
  ghost predicate SameStamp(a: Store, b: Store) {
    a.cursor.Some? && b.cursor.Some? ==> a.cursor.value.operatorState == b.cursor.value.operatorState
  }

  /** What the run said is on the cursor row: silence, an undecodable log and a rewind until
      a commit clears it; any other run leaves what was there. */
  ghost predicate Stamps(a: Store, b: Store, result: RunResult) {
    a.cursor.Some? && b.cursor.Some? ==>
      b.cursor.value.operatorState ==
        if result == EndpointUnavailable then Some(EndpointSilent)
        else if result == DecoderRefused then Some(DecoderMismatch)
        else if SameLane(a, b) then a.cursor.value.operatorState
        else if result == ReorgRewind then Some(ReorgRewound) else None
  }

  /** Every call the pass makes is answered. */
  ghost predicate Undisturbed(f: Faults) {
    && !f.getCursorThrows && !f.anchorThrows && !f.landingThrows && !f.readThrows
    && f.initialise == f.lease == f.record == f.stamp == f.commit == f.rewind == f.release == Answered
  }

  predicate Inert(result: RunResult) { result != Success && result != ReorgRewind }

  /** Records a run that moved nothing and reports it. */
  method StopInert(repository: DiscoverRepository, p: Pass, from: nat, result: RunResult, state: Option<OperatorState>,
                   ghost start: Sys, ghost t: Trace) returns (outcome: Outcome, ghost t': Trace)
    requires Inert(result) && t.now.workers == start.workers[p.owner := PcOf(t.now, p.owner)]
    requires PcOf(t.now, p.owner).Stopping? && Explains(t, start, repository.View(), p.owner, PcOf(t.now, p.owner))
    modifies repository
    ensures Explains(t', start, repository.View(), p.owner, if PcOf(t.now, p.owner).hasLease then Closing else Idle)
    ensures SameLane(old(repository.View()), repository.View())
    ensures repository.cursor.Some? ==> SameLease(old(repository.View()), repository.View())
    ensures AtMostOneRun(old(repository.View()), repository.View(), p.id)
    ensures outcome == Threw || outcome == Returned(InertRun(result, from))
    ensures outcome.Returned? ==> repository.runs == RecordedOnce(old(repository.runs), p.id, outcome.report)
    ensures outcome.Returned? && repository.cursor.Some? ==>
      repository.cursor.value.operatorState == if state.Some? then state else old(repository.cursor).value.operatorState
    ensures Undisturbed(p.faults) ==> outcome.Returned?
  {
    var run := InertRun(result, from);
    var ok := repository.RecordFailedRun(p.id, run, state, p.faults.record, p.faults.stamp);
    ghost var stamped := if p.faults.record == Answered && p.faults.stamp != NotApplied then state else None;
    ghost var e := if p.faults.record == NotApplied then Throw(p.owner) else RecordInert(p.owner, p.id, run, stamped);
    t' := Follow(t, start, t.now.store, p.owner, PcOf(t.now, p.owner), e);
    outcome := if ok then Returned(run) else Threw;
  }

  // --- going back ------------------------------------------------------------------------

  method RewindPass(repository: DiscoverRepository, source: Source, p: Pass, from: nat, ghost leased: Cursor,
                    ghost start: Sys, ghost t: Trace, ghost blockOf: LaunchId -> nat)
                      returns (outcome: Outcome, ghost t': Trace)
    requires HonestSource(source, blockOf) && start.depth == p.config.rewindDepth
    requires repository.cursor.Some? && Explains(t, start, repository.View(), p.owner, Rewinding(from, leased))
    modifies repository
    ensures Explains(t', start, repository.View(), p.owner, Closing)
    ensures var to := RewindTo(from, p.config.rewindDepth);
      && (repository.View() == old(repository.View())
          || MovedBack(old(repository.View()), repository.View(), to, source.hashOf(to)))
      && (outcome.Returned? && RewindApplies(old(repository.View()), p.owner, p.clock.rewoundAt, to) ==>
            && MovedBack(old(repository.View()), repository.View(), to, source.hashOf(to))
            && outcome.report == Run(ReorgRewind, from, to, 0, 0, 0)
            && repository.runs == RecordedOnce(old(repository.runs), p.id, outcome.report))
      && (outcome.Returned? && !RewindApplies(old(repository.View()), p.owner, p.clock.rewoundAt, to) ==>
            repository.View() == old(repository.View()) && outcome.report == InertRun(ReorgRewind, from))
    ensures outcome.Returned? ==> Stamps(old(repository.View()), repository.View(), ReorgRewind)
    ensures Undisturbed(p.faults) ==> outcome.Returned?
    ensures AtMostOneRun(old(repository.View()), repository.View(), p.id)
    ensures SameLease(old(repository.View()), repository.View())
  {
    var to := RewindTo(from, p.config.rewindDepth);
    outcome := Threw;
    if p.faults.landingThrows {
      t' := Follow(t, start, repository.View(), p.owner, Rewinding(from, leased), Throw(p.owner));
      return;
    }
    var landing := source.hashOf(to);
    t' := Follow(t, start, repository.View(), p.owner, Rewinding(from, leased), ReadLanding(p.owner, landing));
    ghost var before := repository.View();
    var run := Run(ReorgRewind, from, to, 0, 0, 0);
    var reply := repository.RewindForReorg(p.owner, p.clock.rewoundAt, to, landing, p.id, run, p.faults.rewind);
    ghost var e := if p.faults.rewind == NotApplied then Throw(p.owner) else Rewind(p.owner, p.clock.rewoundAt, p.id);
    t' := Follow(t', start, before, p.owner, Landing(from, leased, landing), e);
    if reply.Some? {
      outcome := Returned(if reply.value then run else InertRun(ReorgRewind, from));
    }
  }

  // --- going forward ----------------------------------------------------------------------

  ghost predicate GoodRead(read: Reading, from: nat) {
    read.hash.Some? && ReadContract(from, read.launches, read.next)
  }

  /** Where the worker stands once the commit call came back, or threw. */
  function AfterCommit(reply: Option<(bool, nat)>): Pc {
    if reply.Some? && !reply.value.0 then Stopping(true) else Closing
  }

  lemma CommitTrace(t: Trace, start: Sys, p: Pass, from: nat, leased: Cursor, read: Reading, result: RunResult,
                    reply: Option<(bool, nat)>)
    returns (t': Trace)
    requires GoodRead(read, from) && t.now.store.cursor.Some?
    requires Explains(t, start, t.now.store, p.owner, Ready(from, leased, read.launches, read.next, read.hash.value))
    requires !CommitRefused(t.now.store.cursor.value, read.launches, read.next)
    requires reply.Some? <==> p.faults.commit == Answered
    requires reply.Some? ==> reply.value.0 == CommitApplies(t.now.store, p.owner, p.clock.detectedAt, read.next)
    ensures Explains(t', start,
              if p.faults.commit == NotApplied then t.now.store
              else Committed(t.now.store, p.owner, p.clock.detectedAt, read.launches, read.next, read.hash.value, p.id,
                             CommitRun(result, from, read.next, read.launches)),
              p.owner, AfterCommit(reply))
  {
    var ready := Ready(from, leased, read.launches, read.next, read.hash.value);
    var sending := Follow(t, start, t.now.store, p.owner, ready, CheckCommit(p.owner));
    if p.faults.commit == NotApplied {
      t' := Follow(sending, start, t.now.store, p.owner, PcOf(sending.now, p.owner), Throw(p.owner));
    } else {
      t' := Follow(sending, start, t.now.store, p.owner, PcOf(sending.now, p.owner),
                   Commit(p.owner, p.clock.detectedAt, p.id, result));
      if PcOf(t'.now, p.owner) != AfterCommit(reply) {
        t' := Follow(t', start, t'.now.store, p.owner, Stopping(true), Throw(p.owner));
      }
    }
  }

  lemma CommitOutcome(a: Store, b: Store, p: Pass, from: nat, read: Reading, run: Run)
    requires GoodRead(read, from) && a.cursor.Some?
    requires
      || b == a
      || b == Committed(a, p.owner, p.clock.detectedAt, read.launches, read.next, read.hash.value, p.id, run)
    ensures SameLane(a, b) || MovedForward(a, b, from, read)
    ensures AtMostOneRun(a, b, p.id) && SameLease(a, b)
  {
  }

  /** What an answered commit says, in terms of what it did. */
  lemma CommitAnswer(a: Store, b: Store, p: Pass, from: nat, read: Reading, run: Run, reply: (bool, nat))
    requires GoodRead(read, from) && a.cursor.Some? && !CommitRefused(a.cursor.value, read.launches, read.next)
    requires b == Committed(a, p.owner, p.clock.detectedAt, read.launches, read.next, read.hash.value, p.id, run)
    requires reply.0 == CommitApplies(a, p.owner, p.clock.detectedAt, read.next)
    requires reply.0 ==> reply.1 == |b.rows| - |a.rows|
    ensures !reply.0 ==> b == a
    ensures reply.0 ==>
      && MovedForward(a, b, from, read) && b.cursor.value.operatorState == None
      && b.runs == RecordedOnce(a.runs, p.id, run.(inserted := reply.1, duplicates := |read.launches| - reply.1))
  {
  }

  method SendCommit(repository: DiscoverRepository, p: Pass, from: nat, read: Reading, result: RunResult,
                    ghost leased: Cursor,
                    ghost start: Sys, ghost t: Trace) returns (reply: Option<(bool, nat)>, ghost t': Trace)
    requires GoodRead(read, from) && repository.cursor.Some?
    requires Explains(t, start, repository.View(), p.owner,
                      Ready(from, leased, read.launches, read.next, read.hash.value))
    modifies repository
    ensures Explains(t', start, repository.View(), p.owner, AfterCommit(reply))
    ensures SameLane(old(repository.View()), repository.View())
      || MovedForward(old(repository.View()), repository.View(), from, read)
    ensures reply.Some? && reply.value.0 ==>
      && MovedForward(old(repository.View()), repository.View(), from, read)
      && reply.value.1 == |repository.rows| - |old(repository.rows)|
      && repository.runs == RecordedOnce(old(repository.runs), p.id,
           CommitRun(result, from, read.next, read.launches).(inserted := reply.value.1,
                                                              duplicates := |read.launches| - reply.value.1))
    ensures reply.Some? && reply.value.0 ==> repository.cursor.value.operatorState == None
    ensures reply.Some? && !reply.value.0 ==> repository.View() == old(repository.View())
    ensures Undisturbed(p.faults) && old(repository.cursor).value.block == from ==> reply.Some?
    ensures reply.Some? ==>
      reply.value.0 == CommitApplies(old(repository.View()), p.owner, p.clock.detectedAt, read.next)
    ensures AtMostOneRun(old(repository.View()), repository.View(), p.id)
    ensures SameLease(old(repository.View()), repository.View())
  {
    var refused := CommitRefused(repository.cursor.value, read.launches, read.next);
    var run := CommitRun(result, from, read.next, read.launches);
    ghost var before := repository.View();
    reply := repository.CommitRange(p.owner, p.clock.detectedAt, read.launches, read.next, read.hash.value, p.id,
                                    run, p.faults.commit);
    CommitOutcome(before, repository.View(), p, from, read, run);
    if refused {
      t' := Then(t, CheckCommit(p.owner));
      ThenSound(t, CheckCommit(p.owner));
    } else {
      if reply.Some? { CommitAnswer(before, repository.View(), p, from, read, run, reply.value); }
      t' := CommitTrace(t, start, p, from, leased, read, result, reply);
    }
  }

  /** Commits a range that was read, cursor and launches together. */
  method CommitPass(repository: DiscoverRepository, p: Pass, from: nat, read: Reading, ghost leased: Cursor,
                    ghost start: Sys, ghost t: Trace) returns (outcome: Outcome, ghost t': Trace)
    requires GoodRead(read, from) && repository.cursor.Some?
    requires Explains(t, start, repository.View(), p.owner,
                      Ready(from, leased, read.launches, read.next, read.hash.value))
    modifies repository
    ensures Explains(t', start, repository.View(), p.owner, Closing)
    ensures SameLane(old(repository.View()), repository.View())
      || MovedForward(old(repository.View()), repository.View(), from, read)
    ensures outcome.Returned? && SameLane(old(repository.View()), repository.View()) ==>
      outcome.report == InertRun(RunAlreadyActive, from)
    ensures outcome.Returned? && MovedForward(old(repository.View()), repository.View(), from, read) ==>
      outcome.report == ForwardReport(p, from, read, |repository.rows| - |old(repository.rows)|)
    ensures outcome.Returned? ==> repository.runs == RecordedOnce(old(repository.runs), p.id, outcome.report)
    ensures outcome.Returned? ==>
      (SameLane(old(repository.View()), repository.View()) <==>
       !CommitApplies(old(repository.View()), p.owner, p.clock.detectedAt, read.next))
    ensures outcome.Returned? ==> Stamps(old(repository.View()), repository.View(), outcome.report.result)
    ensures Undisturbed(p.faults) && old(repository.cursor).value.block == from ==> outcome.Returned?
    ensures AtMostOneRun(old(repository.View()), repository.View(), p.id)
    ensures SameLease(old(repository.View()), repository.View())
  {
    var budgetExhausted := read.budgetExhausted || p.clock.afterRead > p.clock.startedAt + p.config.maxRuntime;
    var result := if budgetExhausted then BudgetExhausted else Success;
    var reply: Option<(bool, nat)>;
    reply, t' := SendCommit(repository, p, from, read, result, leased, start, t);
    outcome := Threw;
    if reply == None { return; }
    if reply.value.0 {
      outcome := Returned(CommitRun(result, from, read.next, read.launches).(inserted := reply.value.1,
            duplicates := |read.launches| - reply.value.1));
    } else {
      outcome, t' := StopInert(repository, p, from, RunAlreadyActive, None, start, t');
    }
  }

  /** What a pass that moved the cursor reports, and records. */
  function ForwardReport(p: Pass, from: nat, read: Reading, inserted: int): (run: Run)
    ensures run.startBlock == from && run.endBlock == read.next && run.launchesRead == |read.launches|
    ensures inserted >= 0 ==> run.inserted == inserted && run.inserted + run.duplicates == run.launchesRead
    ensures run.result == Success <==>
              !read.budgetExhausted && p.clock.afterRead - p.clock.startedAt <= p.config.maxRuntime
    ensures run.result == Success || run.result == BudgetExhausted
  {
    var exhausted := read.budgetExhausted || p.clock.afterRead > p.clock.startedAt + p.config.maxRuntime;
    Run(if exhausted then BudgetExhausted else Success,
        from, read.next, |read.launches|, Max(0, inserted), |read.launches| - inserted)
  }

  // --- from the lease to its release ---------------------------------------------------------

  /** The chain as the endpoint tells it, against the hash the lease came back with. */
  datatype Anchor = Cold | Agrees | NoReply | Disagrees

  function AnchorOf(source: Source, from: nat, leased: Cursor): Anchor {
    if leased.hash == None then Cold
    else if source.hashOf(from) == None then NoReply
    else if source.hashOf(from) == leased.hash then Agrees else Disagrees
  }

  predicate PastDeadline(p: Pass) { p.clock.beforeRead > p.clock.startedAt + p.config.maxRuntime }

  /** What a pass that held the lease and moved nothing may say, and when. */
  predicate InertVerdict(p: Pass, anchor: Anchor, read: Reading, from: nat, result: RunResult) {
    match anchor
    case NoReply => result == EndpointUnavailable
    case Disagrees => result == ReorgRewind
    case _ =>
      if PastDeadline(p) then result == BudgetExhausted
      else if read.state == Mismatch then result == DecoderRefused
      else if read.state != Ok then result == EndpointUnavailable
      else if read.next == from then result == NothingConfirmed
      else result == RunAlreadyActive
  }

  /** How the store after the leased part differs from the store before it. */
  ghost predicate Settled(a: Store, b: Store, p: Pass, source: Source, from: nat, leased: Cursor, read: Reading) {
    || SameLane(a, b)
    || (MovedForward(a, b, from, read) && AnchorOf(source, from, leased) in {Cold, Agrees} && read.state == Ok)
    || (MovedBack(a, b, RewindTo(from, p.config.rewindDepth), source.hashOf(RewindTo(from, p.config.rewindDepth)))
        && AnchorOf(source, from, leased) == Disagrees)
  }

  /** A pass that had something to move moved it, unless its lease had run out by the
      time the statement was sent or there was nowhere to rewind to. */
  ghost predicate MovedIfItCould(a: Store, b: Store, p: Pass, source: Source, from: nat, leased: Cursor,
                                 read: Reading)
  {
    match AnchorOf(source, from, leased)
    case NoReply => SameLane(a, b)
    case Disagrees => SameLane(a, b) <==>
      !RewindApplies(a, p.owner, p.clock.rewoundAt, RewindTo(from, p.config.rewindDepth))
    case _ =>
      SameLane(a, b) <==>
        PastDeadline(p) || read.state != Ok || read.next == from
          || !CommitApplies(a, p.owner, p.clock.detectedAt, read.next)
  }

  /** The report says what happened, and is the one run row the pass leaves; a
      rewind the repository refused leaves none. */
  ghost predicate Reported(a: Store, b: Store, p: Pass, source: Source, from: nat, leased: Cursor, read: Reading,
                           report: Run)
  {
    && (SameLane(a, b) ==>
        report == InertRun(report.result, from) && InertVerdict(p, AnchorOf(source, from, leased), read, from,
                                                                report.result))
    && (!SameLane(a, b) && AnchorOf(source, from, leased) == Disagrees ==>
          report == Run(ReorgRewind, from, RewindTo(from, p.config.rewindDepth), 0, 0, 0))
    && (!SameLane(a, b) && AnchorOf(source, from, leased) != Disagrees ==>
        report == ForwardReport(p, from, read, |b.rows| - |a.rows|))
    && b.runs == (if SameLane(a, b) && report.result == ReorgRewind then a.runs else RecordedOnce(a.runs, p.id, report))
    && Stamps(a, b, report.result)
  }

  /** A pass that got as far as reading read as the reader does, from the block after
      `from`, and any other has read nothing. */
  ghost predicate CompleteRead(source: Source, p: Pass, from: nat, leased: Cursor, read: Reading,
                               windows: seq<(int, int)>, to: int, stop: int)
  {
    if AnchorOf(source, from, leased) in {Cold, Agrees} && !(leased.hash.Some? && p.faults.anchorThrows)
       && !PastDeadline(p) && !p.faults.readThrows
    then Reads(source, from, leased.hash, p.config.budget, read, windows, to, stop)
    else read == Reading([], from, None, Ok, false)
  }

  /** A read that gave no range: refused by the decoder, unanswered, or not there yet. */
  method StopAfterRead(repository: DiscoverRepository, p: Pass, from: nat, leased: Cursor, r: Reading,
                       ghost start: Sys, ghost t: Trace)
    returns (outcome: Outcome, ghost t': Trace)
    requires repository.cursor.Some? && Explains(t, start, repository.View(), p.owner, Checked(from, leased))
    requires r.state != Ok || r.next == from
    modifies repository
    ensures Explains(t', start, repository.View(), p.owner, Closing)
    ensures AtMostOneRun(old(repository.View()), repository.View(), p.id)
    ensures SameLane(old(repository.View()), repository.View()) && SameLease(old(repository.View()), repository.View())
    ensures outcome.Returned? ==>
      && outcome.report == InertRun(if r.state ==
                                    Mismatch then DecoderRefused else if r.state != Ok then EndpointUnavailable
                                      else NothingConfirmed, from)
      && repository.runs == RecordedOnce(old(repository.runs), p.id, outcome.report)
      && Stamps(old(repository.View()), repository.View(), outcome.report.result)
    ensures Undisturbed(p.faults) ==> outcome.Returned?
  {
    t' := Follow(t, start, repository.View(), p.owner, Checked(from, leased), Stop(p.owner));
    var result := if r.state == Mismatch then DecoderRefused else if r.state != Ok then EndpointUnavailable
      else NothingConfirmed;
    var state := if r.state == Mismatch then Some(DecoderMismatch) else if r.state != Ok then Some(EndpointSilent)
      else None;
    outcome, t' := StopInert(repository, p, from, result, state, start, t');
  }

  /** What a read gave: recorded as a run that moved nothing, or committed. */
  method UseReading(repository: DiscoverRepository, ghost source: Source, p: Pass, from: nat, leased: Cursor,
                    r: Reading, ghost start: Sys, ghost t: Trace)
    returns (outcome: Outcome, ghost t': Trace)
    requires repository.cursor.Some? && AnchorOf(source, from, leased) in {Cold, Agrees} && !PastDeadline(p)
    requires r.state != Ok ==> r.next == from
    requires r.next != from ==> GoodRead(r, from) && r.hash.value.number == r.next
    requires Explains(t, start, repository.View(), p.owner, Checked(from, leased))
    modifies repository
    ensures Explains(t', start, repository.View(), p.owner, Closing)
    ensures Settled(old(repository.View()), repository.View(), p, source, from, leased, r)
    ensures outcome.Returned? ==>
      Reported(old(repository.View()), repository.View(), p, source, from, leased, r, outcome.report)
    ensures outcome.Returned? ==>
      MovedIfItCould(old(repository.View()), repository.View(), p, source, from, leased, r)
    ensures Undisturbed(p.faults) && old(repository.cursor).value.block == from ==> outcome.Returned?
    ensures AtMostOneRun(old(repository.View()), repository.View(), p.id)
    ensures SameLease(old(repository.View()), repository.View())
  {
    if r.state != Ok || r.next == from {
      outcome, t' := StopAfterRead(repository, p, from, leased, r, start, t);
      return;
    }
    t' := Follow(t, start, repository.View(), p.owner, Checked(from, leased),
                 ReadRange(p.owner, r.launches, r.next, r.hash.value));
    outcome, t' := CommitPass(repository, p, from, r, leased, start, t');
  }

  /** The bounded read of a pass that got that far. */
  method ReadAhead(source: Source, p: Pass, from: nat, leased: Cursor, ghost blockOf: LaunchId -> nat)
    returns (r: Reading, ghost windows: seq<(int, int)>, ghost to: int, ghost stop: int)
    requires HonestSource(source, blockOf) && !(leased.hash.Some? && p.faults.anchorThrows)
    requires AnchorOf(source, from, leased) in {Cold, Agrees} && !PastDeadline(p) && !p.faults.readThrows
    ensures CompleteRead(source, p, from, leased, r, windows, to, stop)
    ensures r.state != Ok ==> r.next == from
    ensures r.next != from ==> GoodRead(r, from) && r.hash.value.number == r.next
  {
    r, windows, to, stop := ReadLaunches(source, from, leased.hash, p.config.budget, blockOf);
    ReadsMeaning(source, from, leased.hash, p.config.budget, r, windows, to, stop);
  }

  method ReadAndCommit(repository: DiscoverRepository, source: Source, p: Pass, from: nat, leased: Cursor,
                       ghost start: Sys, ghost t: Trace, ghost blockOf: LaunchId -> nat)
    returns (outcome: Outcome, ghost t': Trace, ghost read: Reading, ghost windows: seq<(int, int)>, ghost to: int,
      ghost stop: int)
    requires HonestSource(source, blockOf) && repository.cursor.Some?
      && AnchorOf(source, from, leased) in {Cold, Agrees} && !(leased.hash.Some? && p.faults.anchorThrows)
    requires Explains(t, start, repository.View(), p.owner, Checked(from, leased))
    modifies repository
    ensures Explains(t', start, repository.View(), p.owner, Closing)
    ensures CompleteRead(source, p, from, leased, read, windows, to, stop)
    ensures Settled(old(repository.View()), repository.View(), p, source, from, leased, read)
    ensures outcome.Returned? ==>
      Reported(old(repository.View()), repository.View(), p, source, from, leased, read, outcome.report)
    ensures outcome.Returned? ==>
      MovedIfItCould(old(repository.View()), repository.View(), p, source, from, leased, read)
    ensures Undisturbed(p.faults) && old(repository.cursor).value.block == from ==> outcome.Returned?
    ensures AtMostOneRun(old(repository.View()), repository.View(), p.id)
    ensures SameLease(old(repository.View()), repository.View())
  {
    outcome, read, windows, to, stop := Threw, Reading([], from, None, Ok, false), [], 0, from;
    if p.clock.beforeRead > p.clock.startedAt + p.config.maxRuntime {
      t' := Follow(t, start, repository.View(), p.owner, Checked(from, leased), Stop(p.owner));
      outcome, t' := StopInert(repository, p, from, BudgetExhausted, None, start, t');
      return;
    }
    if p.faults.readThrows {
      t' := Follow(t, start, repository.View(), p.owner, Checked(from, leased), Throw(p.owner));
      return;
    }
    var r: Reading;
    r, windows, to, stop := ReadAhead(source, p, from, leased, blockOf);
    read := r;
    outcome, t' := UseReading(repository, source, p, from, leased, r, start, t);
  }

  /** The block between taking the lease and giving it back. `from` is the cursor
      as it was read before the lease; it need not be the one `leased` names. */
  method LeasedPass(repository: DiscoverRepository, source: Source, p: Pass, from: nat, leased: Cursor,
                    ghost start: Sys, ghost t: Trace, ghost blockOf: LaunchId -> nat)
    returns (outcome: Outcome, ghost t': Trace, ghost read: Reading, ghost windows: seq<(int, int)>, ghost to: int,
      ghost stop: int)
    requires HonestSource(source, blockOf) && repository.cursor.Some? && start.depth == p.config.rewindDepth
    requires Explains(t, start, repository.View(), p.owner, Holding(from, leased))
    modifies repository
    ensures Explains(t', start, repository.View(), p.owner, Closing)
    ensures CompleteRead(source, p, from, leased, read, windows, to, stop)
    ensures Settled(old(repository.View()), repository.View(), p, source, from, leased, read)
    ensures outcome.Returned? ==>
      Reported(old(repository.View()), repository.View(), p, source, from, leased, read, outcome.report)
    ensures outcome.Returned? ==>
      MovedIfItCould(old(repository.View()), repository.View(), p, source, from, leased, read)
    ensures Undisturbed(p.faults) && old(repository.cursor).value.block == from ==> outcome.Returned?
    ensures AtMostOneRun(old(repository.View()), repository.View(), p.id)
    ensures SameLease(old(repository.View()), repository.View())
  {
    outcome, read, windows, to, stop := Threw, Reading([], from, None, Ok, false), [], 0, from;
    if leased.hash.Some? && p.faults.anchorThrows {
      t' := Follow(t, start, repository.View(), p.owner, Holding(from, leased), Throw(p.owner));
      return;
    }
    if leased.hash == None {
      t' := Follow(t, start, repository.View(), p.owner, Holding(from, leased), SkipCheck(p.owner));
    } else {
      var observed := source.hashOf(from);
      t' := Follow(t, start, repository.View(), p.owner, Holding(from, leased), Observe(p.owner, observed));
      if observed == None {
        outcome, t' := StopInert(repository, p, from, EndpointUnavailable, Some(EndpointSilent), start, t');
        return;
      }
      if observed != leased.hash {
        outcome, t' := RewindPass(repository, source, p, from, leased, start, t', blockOf);
        return;
      }
    }
    outcome, t', read, windows, to, stop := ReadAndCommit(repository, source, p, from, leased, start, t', blockOf);
  }

  // --- the whole pass ------------------------------------------------------------------------

  /** The bootstrap block names the first block to read; it only ever opens a lane. */
  predicate CanStart(config: Config) {
    config.startBlock.Some? && 0 <= config.startBlock.value <= MAX_SAFE_INTEGER
  }

  function Opened(s: Store, p: Pass): (r: Store)
    ensures s.cursor.Some? || !CanStart(p.config) ==> r == s
    ensures s.cursor == None && CanStart(p.config) ==>
      && r.cursor.Some? && r == s.(cursor := Some(Cursor(r.cursor.value.block, None, None, None)))
      && if p.config.startBlock.value > 0 then r.cursor.value.block + 1 == p.config.startBlock.value
         else r.cursor.value.block == 0
  {
    if s.cursor == None && CanStart(p.config) then Initialised(s, Max(0, p.config.startBlock.value - 1)) else s
  }

  /** The pass gets as far as asking for the lease. */
  predicate AsksForLease(s: Store, p: Pass) {
    !p.faults.getCursorThrows && (s.cursor.Some? || (CanStart(p.config) && p.faults.initialise == Answered))
  }

  /** The lease was answered for, and nobody else held it. */
  predicate Granted(s: Store, p: Pass) {
    p.faults.lease == Answered && s.cursor.Some? && !HeldElsewhere(s, p.owner, p.clock.startedAt)
  }

  predicate GetsLease(s: Store, p: Pass) {
    AsksForLease(s, p) && Granted(Opened(s, p), p)
  }

  /** A pass that never held the lease: nothing but, perhaps, a lane opened. */
  ghost predicate NeverHeld(a: Store, b: Store, p: Pass, outcome: Outcome) {
    && (SameLane(a, b) || SameLane(Opened(a, p), b)) && AtMostOneRun(a, b, p.id)
    && (outcome.Returned? ==>
          && SameLane(Opened(a, p), b) && b.runs == RecordedOnce(a.runs, p.id, outcome.report)
          && SameStamp(Opened(a, p), b)
          && outcome.report == (if b.cursor == None then InertRun(ConfigurationRequired, 0)
                                else InertRun(RunAlreadyActive, b.cursor.value.block)))
  }

  /** A pass that held the lease, having read its cursor at `from` before. */
  ghost predicate HeldAndSettled(a: Store, b: Store, p: Pass, source: Source, from: nat, read: Reading,
                                 windows: seq<(int, int)>, to: int, stop: int, outcome: Outcome)
    requires a.cursor.Some?
  {
    && CompleteRead(source, p, from, a.cursor.value, read, windows, to, stop)
    && Settled(a, b, p, source, from, a.cursor.value, read) && AtMostOneRun(a, b, p.id)
    && (outcome.Returned? ==> Reported(a, b, p, source, from, a.cursor.value, read, outcome.report))
    && (outcome.Returned? ==> MovedInTime(a, b, p, source, from, read))
    && (Undisturbed(p.faults) && a.cursor.value.block == from ==> outcome.Returned?)
  }

  /** Nobody takes a lease that has not run out, so only the pass's own time, and where
      the lane already stands, are left to stop it. */
  ghost predicate MovedInTime(a: Store, b: Store, p: Pass, source: Source, from: nat, read: Reading)
    requires a.cursor.Some?
  {
    var until := p.clock.startedAt + p.config.leaseTtl;
    var block := a.cursor.value.block;
    match AnchorOf(source, from, a.cursor.value)
    case NoReply => SameLane(a, b)
    case Disagrees => !SameLane(a, b) <==> p.clock.rewoundAt < until && RewindTo(from, p.config.rewindDepth) < block
    case _ =>
      !SameLane(a, b) <==>
        !PastDeadline(p) && read.state == Ok && read.next > from && read.next > block && p.clock.detectedAt < until
  }

  /** Finds the cursor, or opens the lane; `None` when the pass is over. */
  method OpenPass(repository: DiscoverRepository, p: Pass, ghost start: Sys)
    returns (from: Option<nat>, outcome: Outcome, ghost t: Trace)
    requires start.store == repository.View() && start.workers == start.workers[p.owner := Idle]
    modifies repository
    ensures from.Some? <==> AsksForLease(old(repository.View()), p)
    ensures from.Some? ==>
      repository.View() == Opened(old(repository.View()), p) && from.value == repository.cursor.value.block
                           && Explains(t, start, repository.View(), p.owner, Started(from.value))
    ensures from == None ==> Explains(t, start, repository.View(), p.owner, Idle)
                             && NeverHeld(old(repository.View()), repository.View(), p, outcome)
                             && (repository.cursor.Some? && old(repository.cursor).Some? ==>
                                 repository.cursor == old(repository.cursor))
    ensures from == None ==>
      (repository.cursor.Some? && old(repository.cursor) == None ==> repository.cursor.value.lease == None)
    ensures Undisturbed(p.faults) ==> from.Some? || outcome.Returned?
  {
    from, outcome, t := None, Threw, Trace(start, [], start);
    if p.faults.getCursorThrows { return; }
    t := Follow(t, start, start.store, p.owner, Idle, ReadCursor(p.owner));
    if repository.cursor.Some? {
      from := Some(repository.cursor.value.block);
      return;
    }
    if p.config.startBlock == None || !(0 <= p.config.startBlock.value <= MAX_SAFE_INTEGER) {
      t := Follow(t, start, start.store, p.owner, NoCursor, Stop(p.owner));
      outcome, t := StopInert(repository, p, 0, ConfigurationRequired, None, start, t);
      return;
    }
    from, t := CreatePass(repository, p, start, t);
  }

  /** Opens the lane just below the configured block. */
  method CreatePass(repository: DiscoverRepository, p: Pass, ghost start: Sys, ghost t: Trace)
    returns (from: Option<nat>, ghost t': Trace)
    requires repository.cursor == None && CanStart(p.config) && Explains(t, start, repository.View(), p.owner, NoCursor)
    modifies repository
    ensures repository.View() == (if p.faults.initialise ==
                                  NotApplied then old(repository.View()) else Opened(old(repository.View()), p))
    ensures from.Some? <==> p.faults.initialise == Answered
    ensures from.Some? ==> repository.cursor.Some? && from.value == repository.cursor.value.block
    ensures Explains(t', start, repository.View(), p.owner, if from.Some? then Started(from.value) else Idle)
  {
    from := None;
    ghost var before := repository.View();
    var first := Max(0, p.config.startBlock.value - 1);
    var reply := repository.InitialiseCursor(first, p.faults.initialise);
    if p.faults.initialise == NotApplied {
      t' := Follow(t, start, before, p.owner, NoCursor, Throw(p.owner));
    } else {
      t' := Follow(t, start, before, p.owner, NoCursor, CreateCursor(p.owner, first));
      if reply == None {
        t' := Follow(t', start, repository.View(), p.owner, Started(first), Throw(p.owner));
      } else {
        from := Some(first);
      }
    }
  }

  /** Asks for the lease once; a held lease ends the pass, it never waits. */
  method LeasePass(repository: DiscoverRepository, p: Pass, from: nat, ghost start: Sys, ghost t: Trace)
    returns (leased: Option<Cursor>, outcome: Outcome, ghost t': Trace)
    requires repository.cursor.Some? && Explains(t, start, repository.View(), p.owner, Started(from))
    modifies repository
    ensures leased.Some? <==> Granted(old(repository.View()), p)
    ensures SameLane(old(repository.View()), repository.View())
      && AtMostOneRun(old(repository.View()), repository.View(), p.id)
    ensures SameLease(if p.faults.lease == NotApplied then old(repository.View())
                      else Leased(old(repository.View()), p.owner, p.clock.startedAt, p.config.leaseTtl),
                        repository.View())
    ensures leased.Some? ==> leased == repository.cursor && repository.runs == old(repository.runs)
                             && Explains(t', start, repository.View(), p.owner, Holding(from, leased.value))
    ensures leased == None ==> Explains(t', start, repository.View(), p.owner, Idle)
    ensures leased == None && outcome.Returned? ==>
      outcome.report == InertRun(RunAlreadyActive, from)
        && repository.runs == RecordedOnce(old(repository.runs), p.id, outcome.report)
    ensures leased.Some? || outcome.Returned? ==> SameStamp(old(repository.View()), repository.View())
    ensures Undisturbed(p.faults) && leased == None ==> outcome.Returned?
  {
    leased, outcome := None, Threw;
    var reply := repository.AcquireWorkerLease(p.owner, p.clock.startedAt, p.config.leaseTtl, p.faults.lease);
    if p.faults.lease == NotApplied {
      t' := Follow(t, start, t.now.store, p.owner, Started(from), Throw(p.owner));
      return;
    }
    t' := Follow(t, start, t.now.store, p.owner, Started(from),
                 TakeLease(p.owner, p.clock.startedAt, p.config.leaseTtl));
    if reply == None {
      // granted or not, the worker never learns of it and there is nothing to give back
      t' := Follow(t', start, t'.now.store, p.owner, PcOf(t'.now, p.owner), Crash(p.owner));
      return;
    }
    leased := reply.value;
    if leased == None {
      outcome, t' := StopInert(repository, p, from, RunAlreadyActive, None, start, t');
    }
  }

  method GiveBack(repository: DiscoverRepository, p: Pass, ghost start: Sys, ghost t: Trace)
    returns (ok: bool, ghost t': Trace)
    requires repository.cursor.Some? && Explains(t, start, repository.View(), p.owner, Closing)
    modifies repository
    ensures Explains(t', start, repository.View(), p.owner, Idle) && ok == (p.faults.release == Answered)
    ensures SameLane(old(repository.View()), repository.View())
      && SameStamp(old(repository.View()), repository.View()) && repository.runs == old(repository.runs)
    ensures OwnsLease(repository.View(), p.owner) <==>
      OwnsLease(old(repository.View()), p.owner) && p.faults.release == NotApplied
  {
    ghost var held := repository.View();
    ok := repository.ReleaseWorkerLease(p.owner, p.faults.release);
    ghost var e := if p.faults.release == NotApplied then Crash(p.owner) else Release(p.owner);
    t' := Follow(t, start, held, p.owner, Closing, e);
  }

  /** The leased part and the release, whatever the leased part came to. */
  method HeldPass(repository: DiscoverRepository, source: Source, p: Pass, from: nat, leased: Cursor,
                  ghost found: Store, ghost start: Sys, ghost t: Trace, ghost blockOf: LaunchId -> nat)
    returns (outcome: Outcome, ghost t': Trace, ghost read: Reading, ghost windows: seq<(int, int)>, ghost to: int,
      ghost stop: int)
    requires HonestSource(source, blockOf) && start.depth == p.config.rewindDepth
    requires repository.cursor == Some(leased) && found.cursor.Some?
    requires SameLane(found, repository.View()) && SameStamp(found, repository.View()) && found.runs == repository.runs
    requires leased.lease == Some(Lease(p.owner, p.clock.startedAt + p.config.leaseTtl))
    requires Explains(t, start, repository.View(), p.owner, Holding(from, leased))
    modifies repository
    ensures Explains(t', start, repository.View(), p.owner, Idle)
    ensures HeldAndSettled(found, repository.View(), p, source, from, read, windows, to, stop, outcome)
    ensures OwnsLease(repository.View(), p.owner) <==> p.faults.release == NotApplied
  {
    ghost var held := repository.View();
    outcome, t', read, windows, to, stop := LeasedPass(repository, source, p, from, leased, start, t, blockOf);
    ghost var settled := repository.View();
    var ok;
    ok, t' := GiveBack(repository, p, start, t');
    HeldTransfers(found, held, settled, repository.View(), p, source, from, leased, read, windows, to, stop, outcome);
    if !ok { outcome := Threw; }
  }

  /** A pass that held the lease, returned, and whose run id is new records its one run,
      except exactly when it found the chain disagreeing and had no time left to rewind, or
      nowhere below the lane's block to rewind to. */
  lemma RecordsNoRunExactlyWhen(a: Store, b: Store, p: Pass, source: Source, from: nat, read: Reading,
                                windows: seq<(int, int)>, to: int, stop: int, report: Run)
    requires a.cursor.Some? && HeldAndSettled(a, b, p, source, from, read, windows, to, stop, Returned(report))
    requires p.id !in a.runs
    ensures var refused := AnchorOf(source, from, a.cursor.value) == Disagrees
              && !(p.clock.rewoundAt < p.clock.startedAt + p.config.leaseTtl
                   && RewindTo(from, p.config.rewindDepth) < a.cursor.value.block);
      && (b.runs == a.runs <==> refused)
      && (b.runs == a.runs[p.id := report] <==> !refused)
  {
    assert p.id in a.runs[p.id := report];
  }

  /** A pass that asked for the lease and did not get it, or never learnt that it did. */
  ghost predicate TurnedAway(a: Store, b: Store, p: Pass, from: nat, outcome: Outcome) {
    && SameLane(a, b) && AtMostOneRun(a, b, p.id)
    && (outcome.Returned? ==>
          && outcome.report == InertRun(RunAlreadyActive, from) && b.runs == RecordedOnce(a.runs, p.id, outcome.report)
          && SameStamp(a, b))
    && (Undisturbed(p.faults) ==> outcome.Returned?)
  }

  /** The lease is still there afterwards exactly when it was granted and the answer
      saying so, or the release itself, was lost. */
  ghost predicate LeaseLeft(a: Store, b: Store, p: Pass) {
    if p.faults.lease == NotApplied then OwnsLease(b, p.owner) <==> OwnsLease(a, p.owner)
    else
      OwnsLease(b, p.owner) <==>
        && a.cursor.Some? && !HeldElsewhere(a, p.owner, p.clock.startedAt)
        && (p.faults.lease == ReplyLost || p.faults.release == NotApplied)
  }

  /** A pass from the moment it asks for the lease. `from` is the block it read before,
      and the store is as any number of other workers left it in the meantime. */
  method FromLease(repository: DiscoverRepository, source: Source, p: Pass, from: nat, ghost start: Sys, ghost t: Trace,
                   ghost blockOf: LaunchId -> nat)
    returns (outcome: Outcome, ghost t': Trace, ghost read: Reading, ghost windows: seq<(int, int)>, ghost to: int,
      ghost stop: int)
    requires HonestSource(source, blockOf) && start.depth == p.config.rewindDepth
    requires repository.cursor.Some? && Explains(t, start, repository.View(), p.owner, Started(from))
    modifies repository
    ensures Explains(t', start, repository.View(), p.owner, Idle)
    ensures Granted(old(repository.View()), p) ==>
      HeldAndSettled(old(repository.View()), repository.View(), p, source, from, read, windows, to, stop, outcome)
    ensures !Granted(old(repository.View()), p) ==>
      TurnedAway(old(repository.View()), repository.View(), p, from, outcome)
    ensures LeaseLeft(old(repository.View()), repository.View(), p)
  {
    read, windows, to, stop := Reading([], from, None, Ok, false), [], 0, from;
    ghost var found := repository.View();
    var leased;
    leased, outcome, t' := LeasePass(repository, p, from, start, t);
    if leased == None { return; }
    outcome, t', read, windows, to, stop :=
      HeldPass(repository, source, p, from, leased.value, found, start, t', blockOf);
  }

  /** One pass with nobody else moving. It amounts to machine events; it moves
      forward over a range it read completely, or back by the rewind depth, or
      leaves the lane as it found it; what it reports is the one run row it leaves;
      however it ends it adds no other run row; and it keeps the lease only if the
      answer granting it, or the release itself, was lost. */
  method RunPass(repository: DiscoverRepository, source: Source, p: Pass, ghost start: Sys,
                 ghost blockOf: LaunchId -> nat)
    returns (outcome: Outcome, ghost t: Trace, ghost read: Reading, ghost windows: seq<(int, int)>, ghost to: int,
      ghost stop: int)
    requires HonestSource(source, blockOf)
    requires start.store == repository.View() && start.workers == start.workers[p.owner := Idle]
      && start.depth == p.config.rewindDepth
    modifies repository
    ensures Explains(t, start, repository.View(), p.owner, Idle)
    ensures var found := Opened(old(repository.View()), p);
      GetsLease(old(repository.View()), p) ==>
        HeldAndSettled(found, repository.View(), p, source, found.cursor.value.block, read, windows, to, stop, outcome)
    ensures !GetsLease(old(repository.View()), p) ==> NeverHeld(old(repository.View()), repository.View(), p, outcome)
    ensures AtMostOneRun(old(repository.View()), repository.View(), p.id)
    ensures AsksForLease(old(repository.View()), p) ==>
      LeaseLeft(Opened(old(repository.View()), p), repository.View(), p)
    ensures Undisturbed(p.faults) ==> outcome.Returned?
    ensures !AsksForLease(old(repository.View()), p) ==>
      (OwnsLease(repository.View(), p.owner) <==> OwnsLease(old(repository.View()), p.owner))
  {
    read, windows, to, stop := Reading([], 0, None, Ok, false), [], 0, 0;
    var from;
    from, outcome, t := OpenPass(repository, p, start);
    if from == None { return; }
    outcome, t, read, windows, to, stop := FromLease(repository, source, p, from.value, start, t, blockOf);
  }

  /** A pass begun in one state of the machine and finished in another that other
      workers led to in between is, with their events, one run of the machine. */
  lemma {:induction false} RunsCompose(s: Sys, a: seq<Event>, b: seq<Event>)
    requires HonestRun(s, a) && HonestRun(RunEvents(s, a), b)
    ensures HonestRun(s, a + b) && RunEvents(s, a + b) == RunEvents(RunEvents(s, a), b)
    decreases |a|
  {
    if a == [] {
      assert a + b == b;
    } else {
      RunsCompose(Step(s, a[0]), a[1..], b);
      assert (a + b)[0] == a[0] && (a + b)[1..] == a[1..] + b;
    }
  }

  /** From the store the lease came back with, and the one before the release, to the
      stores before and after the held part. */
  lemma HeldTransfers(a: Store, held: Store, b: Store, c: Store, p: Pass, source: Source, from: nat, leased: Cursor,
                      read: Reading, windows: seq<(int, int)>, to: int, stop: int, outcome: Outcome)
    requires SameLane(a, held) && SameStamp(a, held) && SameStamp(b, c)
    requires a.runs == held.runs && a.cursor.Some? && held.cursor == Some(leased)
    requires leased.lease == Some(Lease(p.owner, p.clock.startedAt + p.config.leaseTtl))
    requires CompleteRead(source, p, from, leased, read, windows, to, stop) && read.next >= from
    requires Undisturbed(p.faults) && a.cursor.value.block == from ==> outcome.Returned?
    requires Settled(held, b, p, source, from, leased, read) && AtMostOneRun(held, b, p.id)
    requires outcome.Returned? ==> Reported(held, b, p, source, from, leased, read, outcome.report)
    requires outcome.Returned? ==> MovedIfItCould(held, b, p, source, from, leased, read)
    requires SameLane(b, c) && b.runs == c.runs
    ensures HeldAndSettled(a, c, p, source, from, read, windows, to, stop, outcome)
  {
    SettledTransfers(a, held, b, p, source, from, leased, read, outcome);
    if outcome.Returned? { MovedInItsOwnTime(a, held, b, p, source, from, leased, read); }
    ReleaseTransfers(a, b, c, p, source, from, read, outcome);
  }

  lemma SettledTransfers(a: Store, held: Store, b: Store, p: Pass, source: Source, from: nat, leased: Cursor,
                         read: Reading, outcome: Outcome)
    requires SameLane(a, held) && SameStamp(a, held) && a.runs == held.runs
    requires a.cursor.Some? && held.cursor == Some(leased)
    requires Settled(held, b, p, source, from, leased, read)
    requires outcome.Returned? ==> Reported(held, b, p, source, from, leased, read, outcome.report)
    ensures Settled(a, b, p, source, from, a.cursor.value, read)
    ensures outcome.Returned? ==> Reported(a, b, p, source, from, a.cursor.value, read, outcome.report)
  {
  }

  lemma MovedInItsOwnTime(a: Store, held: Store, b: Store, p: Pass, source: Source, from: nat, leased: Cursor,
                          read: Reading)
    requires SameLane(a, held) && a.cursor.Some? && held.cursor == Some(leased)
    requires leased.lease == Some(Lease(p.owner, p.clock.startedAt + p.config.leaseTtl))
    requires read.next >= from
    requires MovedIfItCould(held, b, p, source, from, leased, read)
    ensures MovedInTime(a, b, p, source, from, read)
  {
  }

  lemma ReleaseTransfers(a: Store, b: Store, c: Store, p: Pass, source: Source, from: nat, read: Reading,
                         outcome: Outcome)
    requires SameLane(b, c) && SameStamp(b, c) && b.runs == c.runs && a.cursor.Some?
    requires Settled(a, b, p, source, from, a.cursor.value, read)
    requires outcome.Returned? ==> Reported(a, b, p, source, from, a.cursor.value, read, outcome.report)
    requires outcome.Returned? ==> MovedInTime(a, b, p, source, from, read)
    ensures outcome.Returned? ==> MovedInTime(a, c, p, source, from, read)
    ensures Settled(a, c, p, source, from, a.cursor.value, read)
    ensures outcome.Returned? ==> Reported(a, c, p, source, from, a.cursor.value, read, outcome.report)
  {
  }
}
