/** Any number of discovery workers over one lane, interleaved at every await.

    Each event is one answer reaching one worker, or one statement reaching the
    database. A worker may fail or die anywhere, leases may expire under it, and
    every worker reads a clock of its own: nothing below assumes the clocks agree. */
module DiscoverProtocol {
  import opened Common
  import opened DiscoverStore

  /** Where one worker's pass stands. `from` is the cursor block it read before it
      asked for the lease; `leased` is the cursor row the lease came back with. */
  datatype Pc =
    | Idle
    | NoCursor
    | Started(from: nat)
    | Holding(from: nat, leased: Cursor)
    | Checked(from: nat, leased: Cursor)
    | Rewinding(from: nat, leased: Cursor)
    | Landing(from: nat, leased: Cursor, landing: Option<BlockHash>)
    | Ready(from: nat, leased: Cursor, launches: seq<Launch>, next: nat, hash: BlockHash)
    | Committing(from: nat, leased: Cursor, launches: seq<Launch>, next: nat, hash: BlockHash)
    | Stopping(hasLease: bool)
    | Closing

  datatype Event =
    | ReadCursor(w: Owner)
    | CreateCursor(w: Owner, start: nat)
    | TakeLease(w: Owner, now: int, ttl: nat)
    | SkipCheck(w: Owner)
    | Observe(w: Owner, observed: Option<BlockHash>)
    | ReadRange(w: Owner, launches: seq<Launch>, next: nat, hash: BlockHash)
    | Stop(w: Owner)
    | RecordInert(w: Owner, id: RunId, run: Run, state: Option<OperatorState>)
    | CheckCommit(w: Owner)
    | Commit(w: Owner, now: int, id: RunId, result: RunResult)
    | ReadLanding(w: Owner, landing: Option<BlockHash>)
    | Rewind(w: Owner, now: int, id: RunId)
    | Throw(w: Owner)
    | Release(w: Owner)
    | Crash(w: Owner)

  /** `seen` maps each block behind the cursor that some committed read covered,
      and no rewind has taken back since, to the launches that read returned for
      it; `boot` is the block the lane was bootstrapped at. Both are history: no
      step decides anything by them. */
  datatype Sys = Sys(store: Store, workers: map<Owner, Pc>, depth: nat, boot: nat, seen: map<nat, set<LaunchId>>)

  function PcOf(s: Sys, w: Owner): Pc { if w in s.workers then s.workers[w] else Idle }

  function Goto(s: Sys, w: Owner, pc: Pc): Sys { s.(workers := s.workers[w := pc]) }

  /** The rewind depth lower, or at the first block. */
  function RewindTo(from: nat, depth: nat): (to: nat)
    ensures to <= from <= to + depth && (to > 0 ==> from == to + depth)
  {
    if from < depth then 0 else from - depth
  }

  predicate PastLease(pc: Pc) {
    pc.Holding? || pc.Checked? || pc.Rewinding? || pc.Landing? || pc.Ready? || pc.Committing?
  }

  predicate KnowsFrom(pc: Pc) { pc.Started? || PastLease(pc) }

  function IdsAt(launches: seq<Launch>, block: nat): set<LaunchId> {
    set i | 0 <= i < |launches| && launches[i].block == block :: launches[i].id
  }

  /** What a successful range read promises (proved of the reader itself in
      `LaunchReader`): progress, and launches of the blocks it covers only. */
  ghost predicate ReadContract(from: nat, launches: seq<Launch>, next: nat) {
    from < next && forall i :: 0 <= i < |launches| ==> from < launches[i].block <= next
  }

  function CommitRun(result: RunResult, from: nat, next: nat, launches: seq<Launch>): Run {
    Run(result, from, next, |launches|, |launches|, 0)
  }

  function CommitStep(s: Sys, w: Owner, now: int, id: RunId, result: RunResult): Sys
    requires PcOf(s, w).Committing?
  {
    var pc := PcOf(s, w);
    if CommitApplies(s.store, w, now, pc.next) then
      Goto(s.(store := Committed(s.store, w, now, pc.launches, pc.next, pc.hash, id,
                                 CommitRun(result, pc.from, pc.next, pc.launches)),
              seen := s.seen + map b: nat | pc.from < b <= pc.next :: IdsAt(pc.launches, b)),
           w, Closing)
    else Goto(s, w, Stopping(true))
  }

  function RewindStep(s: Sys, w: Owner, now: int, id: RunId): Sys
    requires PcOf(s, w).Landing?
  {
    var pc := PcOf(s, w);
    var to := RewindTo(pc.from, s.depth);
    if RewindApplies(s.store, w, now, to) then
      Goto(s.(store := Rewound(s.store, w, now, to, pc.landing, id, Run(ReorgRewind, pc.from, to, 0, 0, 0)),
              seen := map b | b in s.seen && b <= to :: s.seen[b]),
           w, Closing)
    else Goto(s, w, Closing)
  }

  /** One step. An event its worker is not waiting for changes nothing. */
  function Step(s: Sys, e: Event): Sys {
    var pc := PcOf(s, e.w);
    match e
    case ReadCursor(w) =>
      if !pc.Idle? then s
      else Goto(s, w, if s.store.cursor == None then NoCursor else Started(s.store.cursor.value.block))
    case CreateCursor(w, start) =>
      if !pc.NoCursor? then s
      else
        var store := Initialised(s.store, start);
        Goto(s.(store := store, boot := if s.store.cursor == None then start else s.boot),
             w, Started(store.cursor.value.block))
    case TakeLease(w, now, ttl) =>
      if !pc.Started? then s
      else if Grants(s.store, w, now) then
        var store := Leased(s.store, w, now, ttl);
        Goto(s.(store := store), w, Holding(pc.from, store.cursor.value))
      else Goto(s, w, Stopping(false))
    case SkipCheck(w) =>
      if pc.Holding? && pc.leased.hash == None then Goto(s, w, Checked(pc.from, pc.leased)) else s
    case Observe(w, observed) =>
      if !pc.Holding? || pc.leased.hash == None then s
      else if observed == None then Goto(s, w, Stopping(true))
      else if observed == pc.leased.hash then Goto(s, w, Checked(pc.from, pc.leased))
      else Goto(s, w, Rewinding(pc.from, pc.leased))
    case ReadRange(w, launches, next, hash) =>
      if pc.Checked? then Goto(s, w, Ready(pc.from, pc.leased, launches, next, hash)) else s
    case Stop(w) =>
      // an unset start block, the runtime budget, or a read that gave no range
      if pc.NoCursor? then Goto(s, w, Stopping(false))
      else if pc.Checked? then Goto(s, w, Stopping(true)) else s
    case RecordInert(w, id, run, state) =>
      if !pc.Stopping? then s
      else Goto(s.(store := RunRecorded(s.store, id, run, state)), w, if pc.hasLease then Closing else Idle)
    case CheckCommit(w) =>
      if !pc.Ready? then s
      else if s.store.cursor == None || CommitRefused(s.store.cursor.value, pc.launches, pc.next)
        then Goto(s, w, Closing)
      else Goto(s, w, Committing(pc.from, pc.leased, pc.launches, pc.next, pc.hash))
    case Commit(w, now, id, result) => if pc.Committing? then CommitStep(s, w, now, id, result) else s
    case ReadLanding(w, landing) =>
      if pc.Rewinding? then Goto(s, w, Landing(pc.from, pc.leased, landing)) else s
    case Rewind(w, now, id) => if pc.Landing? then RewindStep(s, w, now, id) else s
    case Throw(w) => Goto(s, w, if PastLease(pc) || pc ==
                          Stopping(true) then Closing else if pc.Closing? then Closing else Idle)
    case Release(w) => if pc.Closing? then Goto(s.(store := Released(s.store, w)), w, Idle) else s
    case Crash(w) => Goto(s, w, Idle)
  }

  /** What the endpoint promises: the hash it gives for a block is that block's,
      and a range it answers satisfies the read contract. */
  ghost predicate Honest(s: Sys, e: Event) {
    var pc := PcOf(s, e.w);
    match e
    case Observe(w, observed) => pc.Holding? && observed.Some? ==> observed.value.number == pc.from
    case ReadRange(w, launches, next, hash) =>
      pc.Checked? ==> ReadContract(pc.from, launches, next) && hash.number == next
    case ReadLanding(w, landing) =>
      pc.Rewinding? && landing.Some? ==> landing.value.number == RewindTo(pc.from, s.depth)
    case _ => true
  }

  function RunEvents(s: Sys, es: seq<Event>): Sys
    decreases |es|
  {
    if es == [] then s else RunEvents(Step(s, es[0]), es[1..])
  }

  ghost predicate HonestRun(s: Sys, es: seq<Event>)
    decreases |es|
  {
    es == [] || (Honest(s, es[0]) && HonestRun(Step(s, es[0]), es[1..]))
  }

  function Fresh(depth: nat): Sys { Sys(Store(None, map[], map[]), map[], depth, 0, map[]) }

  // --- the inductive invariant -----------------------------------------------

  ghost predicate HashBelongs(c: Cursor) { c.hash.Some? ==> c.hash.value.number == c.block }

  /** While a worker still owns the lease nobody else has moved the cursor. */
  ghost predicate LeaseProtects(s: Sys) {
    forall w :: w in s.workers && PastLease(s.workers[w]) && OwnsLease(s.store, w) ==>
      && s.store.cursor.value.block == s.workers[w].leased.block
      && s.store.cursor.value.hash == s.workers[w].leased.hash
  }

  ghost predicate PcSound(s: Sys, pc: Pc) {
    && (KnowsFrom(pc) ==> s.store.cursor.Some?)
    && (PastLease(pc) ==> HashBelongs(pc.leased))
    && (pc.Checked? || pc.Ready? || pc.Committing? ==> pc.leased.hash == None || pc.from == pc.leased.block)
    && (pc.Ready? || pc.Committing? ==> ReadContract(pc.from, pc.launches, pc.next) && pc.hash.number == pc.next)
    && (pc.Landing? && pc.landing.Some? ==> pc.landing.value.number == RewindTo(pc.from, s.depth))
  }

  /** Canonical rows, and blocks counted as read, never lie above the cursor; a
      block counted as read has every launch of that read stored. */
  ghost predicate BehindCursor(s: Sys) {
    && (s.store.cursor == None ==> s.store.rows == map[] && s.seen == map[])
    && (s.store.cursor.Some? ==>
          && HashBelongs(s.store.cursor.value)
          && (forall id :: id in s.store.rows && s.store.rows[id].canonical ==>
              s.store.rows[id].block <= s.store.cursor.value.block)
          && (forall b :: b in s.seen ==> b <= s.store.cursor.value.block)
          && (forall b, id :: b in s.seen && id in s.seen[b] ==> id in s.store.rows))
  }

  ghost predicate Inv(s: Sys) {
    && LeaseProtects(s)
    && (forall w :: w in s.workers ==> PcSound(s, s.workers[w]))
    && BehindCursor(s)
  }

  /** Moving one worker, and leaving the cursor block and hash where they are. */
  lemma MoveKeeps(s: Sys, store: Store, w: Owner, pc: Pc)
    requires Inv(s)
    requires s.store.cursor.Some? && store.cursor.Some? && store.rows == s.store.rows
    requires store.cursor.value.block == s.store.cursor.value.block
      && store.cursor.value.hash == s.store.cursor.value.hash
    requires forall o :: o != w && OwnsLease(store, o) ==> OwnsLease(s.store, o)
    requires PcSound(s, pc)
    requires PastLease(pc) && OwnsLease(store, w) ==>
               pc.leased.block == store.cursor.value.block && pc.leased.hash == store.cursor.value.hash
    ensures Inv(Goto(s.(store := store), w, pc))
  {
    var s' := Goto(s.(store := store), w, pc);
    forall o | o in s'.workers ensures PcSound(s', s'.workers[o]) {
      if o != w { assert PcSound(s, s.workers[o]); }
    }
    assert BehindCursor(s');
  }

  /** A committed read's launches are all stored, at the blocks they were read for. */
  lemma ReadIsStored(rows: map<LaunchId, Row>, launches: seq<Launch>, b: nat, l: LaunchId)
    requires l in IdsAt(launches, b)
    ensures l in InsertLaunches(rows, launches)
  {
    InsertLaunchesMeaning(rows, launches);
    var i :| 0 <= i < |launches| && launches[i].block == b && launches[i].id == l;
    assert HasId(launches, l);
  }

  lemma CanonicalStaysBehind(rows: map<LaunchId, Row>, launches: seq<Launch>, from: nat, next: nat, block: nat)
    requires ReadContract(from, launches, next) && block < next
    requires forall id :: id in rows && rows[id].canonical ==> rows[id].block <= block
    ensures var after := InsertLaunches(rows, launches);
      forall id :: id in after && after[id].canonical ==> after[id].block <= next
  {
    InsertLaunchesMeaning(rows, launches);
    var after := InsertLaunches(rows, launches);
    forall id | id in after && after[id].canonical ensures after[id].block <= next {
      if id !in rows {
        var i :| 0 <= i < |launches| && launches[i] == Launch(id, after[id].block);
      }
    }
  }

  lemma CommitKeepsBehind(s: Sys, w: Owner, now: int, id: RunId, result: RunResult)
    requires BehindCursor(s) && PcOf(s, w).Committing? && PcSound(s, PcOf(s, w))
    requires CommitApplies(s.store, w, now, PcOf(s, w).next)
    ensures BehindCursor(CommitStep(s, w, now, id, result))
  {
    var pc := PcOf(s, w);
    var s' := CommitStep(s, w, now, id, result);
    assert s'.store.cursor.value.block == pc.next && s'.store.rows == InsertLaunches(s.store.rows, pc.launches);
    CanonicalStaysBehind(s.store.rows, pc.launches, pc.from, pc.next, s.store.cursor.value.block);
    forall b, l | b in s'.seen && l in s'.seen[b] ensures l in s'.store.rows {
      if pc.from < b <= pc.next {
        ReadIsStored(s.store.rows, pc.launches, b, l);
      } else {
        assert l in s.seen[b];
        InsertLaunchesMeaning(s.store.rows, pc.launches);
      }
    }
  }

  /** A statement that moved the cursor was sent by the lease's owner, so every
      other worker that has passed its lease has lost it. */
  lemma MoverAloneOwns(s: Sys, s': Sys, w: Owner)
    requires Inv(s) && s.store.cursor.Some? && s'.store.cursor.Some?
    requires OwnsLease(s.store, w) && s'.store.cursor.value.lease == s.store.cursor.value.lease
    requires s'.workers == s.workers[w := Closing] && s'.depth == s.depth
    ensures LeaseProtects(s') && forall o :: o in s'.workers ==> PcSound(s', s'.workers[o])
  {
    forall o | o in s'.workers ensures PcSound(s', s'.workers[o]) {
      if o != w { assert PcSound(s, s.workers[o]); }
    }
  }

  lemma CommitKeeps(s: Sys, w: Owner, now: int, id: RunId, result: RunResult)
    requires Inv(s) && PcOf(s, w).Committing?
    ensures Inv(CommitStep(s, w, now, id, result))
  {
    if CommitApplies(s.store, w, now, PcOf(s, w).next) {
      CommitKeepsBehind(s, w, now, id, result);
      MoverAloneOwns(s, CommitStep(s, w, now, id, result), w);
    } else {
      MoveKeeps(s, s.store, w, Stopping(true));
    }
  }

  lemma RewindKeeps(s: Sys, w: Owner, now: int, id: RunId)
    requires Inv(s) && PcOf(s, w).Landing?
    ensures Inv(RewindStep(s, w, now, id))
  {
    var s' := RewindStep(s, w, now, id);
    if RewindApplies(s.store, w, now, RewindTo(PcOf(s, w).from, s.depth)) {
      MoverAloneOwns(s, s', w);
      assert BehindCursor(s');
    } else {
      MoveKeeps(s, s.store, w, Closing);
    }
  }

  /** Before the lane has a cursor every worker is still looking for one. */
  lemma FirstStepsKeep(s: Sys, e: Event)
    requires Inv(s) && s.store.cursor == None
    ensures Inv(Step(s, e))
  {
    var s' := Step(s, e);
    assert forall w :: w in s.workers ==> PcSound(s, s.workers[w]);
    assert !KnowsFrom(PcOf(s, e.w));
    forall o | o in s'.workers ensures PcSound(s', s'.workers[o]) && !PastLease(s'.workers[o]) {
      if o != e.w { assert PcSound(s, s.workers[o]); }
    }
  }

  /** The statements that write the cursor row without moving the cursor. */
  predicate WritesTheRow(e: Event) { e.TakeLease? || e.RecordInert? || e.Release? || e.CreateCursor? }

  lemma RowWriteKeeps(s: Sys, e: Event)
    requires Inv(s) && s.store.cursor.Some? && WritesTheRow(e)
    ensures Inv(Step(s, e))
  {
    var s' := Step(s, e);
    if s' != s {
      MoveKeeps(s, s'.store, e.w, PcOf(s', e.w));
      assert s' == Goto(s.(store := s'.store), e.w, PcOf(s', e.w));
    }
  }

  lemma WorkerMoveKeeps(s: Sys, e: Event)
    requires Inv(s) && Honest(s, e) && s.store.cursor.Some?
    requires !WritesTheRow(e) && !e.Commit? && !e.Rewind?
    ensures Inv(Step(s, e))
  {
    var s' := Step(s, e);
    if s' != s {
      assert PcSound(s, PcOf(s, e.w));
      assert s' == Goto(s, e.w, PcOf(s', e.w));
      MoveKeeps(s, s.store, e.w, PcOf(s', e.w));
    }
  }

  lemma StepKeeps(s: Sys, e: Event)
    requires Inv(s) && Honest(s, e)
    ensures Inv(Step(s, e))
  {
    if s.store.cursor == None {
      FirstStepsKeep(s, e);
    } else if e.Commit? {
      if PcOf(s, e.w).Committing? { CommitKeeps(s, e.w, e.now, e.id, e.result); }
    } else if e.Rewind? {
      if PcOf(s, e.w).Landing? { RewindKeeps(s, e.w, e.now, e.id); }
    } else if WritesTheRow(e) {
      RowWriteKeeps(s, e);
    } else {
      WorkerMoveKeeps(s, e);
    }
  }

  /** In every reachable state, whatever the interleaving: no canonical row and no
      block counted as read lies above the cursor, the cursor's hash is the hash of
      the block it names, and a lease still owned means the cursor has not moved. */
  lemma {:induction false} EveryReachableStateIsSound(s: Sys, es: seq<Event>)
    requires Inv(s) && HonestRun(s, es)
    ensures Inv(RunEvents(s, es))
    decreases |es|
  {
    if es != [] {
      StepKeeps(s, es[0]);
      EveryReachableStateIsSound(Step(s, es[0]), es[1..]);
    }
  }

  // --- the lease excludes -----------------------------------------------------------

  /** While somebody's lease lives, asking for it gives nobody else anything. */
  lemma LiveLeaseTurnsAway(s: Sys, o: Owner, now: int, ttl: nat)
    requires PcOf(s, o).Started? && s.store.cursor.Some? && s.store.cursor.value.lease.Some?
    requires s.store.cursor.value.lease.value.owner != o && now < s.store.cursor.value.lease.value.expiresAt
    ensures Step(s, TakeLease(o, now, ttl)) == Goto(s, o, Stopping(false))
  {
  }

  /** Once it has run out, or been given back, whoever asks has it. */
  lemma ExpiredLeaseIsTaken(s: Sys, o: Owner, now: int, ttl: nat)
    requires PcOf(s, o).Started? && s.store.cursor.Some?
    requires s.store.cursor.value.lease.Some? ==> s.store.cursor.value.lease.value.expiresAt <= now
    ensures var taken := s.store.cursor.value.(lease := Some(Lease(o, now + ttl)));
      && Step(s, TakeLease(o, now, ttl)).store.cursor == Some(taken)
      && PcOf(Step(s, TakeLease(o, now, ttl)), o) == Holding(PcOf(s, o).from, taken)
  {
  }

  ghost predicate LiveFor(s: Sys, w: Owner, until: int) {
    s.store.cursor.Some? && s.store.cursor.value.lease == Some(Lease(w, until))
  }

  /** The other workers do as they like, but none asks for the lease after it ran out. */
  ghost predicate OthersInTime(es: seq<Event>, w: Owner, until: int) {
    forall i :: 0 <= i < |es| ==> es[i].w != w && (es[i].TakeLease? ==> es[i].now < until)
  }

  ghost predicate SamePlace(a: Sys, b: Sys) {
    && a.store.rows == b.store.rows && a.seen == b.seen
    && a.store.cursor.Some? && b.store.cursor.Some?
    && a.store.cursor.value.block == b.store.cursor.value.block
    && a.store.cursor.value.hash == b.store.cursor.value.hash
  }

  lemma OthersLeaveALiveLease(s: Sys, e: Event, w: Owner, until: int)
    requires LiveFor(s, w, until) && e.w != w && (e.TakeLease? ==> e.now < until)
    ensures LiveFor(Step(s, e), w, until) && SamePlace(s, Step(s, e)) && PcOf(Step(s, e), w) == PcOf(s, w)
    ensures forall o :: o != w && PastLease(PcOf(Step(s, e), o)) ==> PastLease(PcOf(s, o))
  {
    forall o | o != w && PastLease(PcOf(Step(s, e), o)) ensures PastLease(PcOf(s, o)) {
      if o == e.w { StepCarriesOver(s, e); }
    }
  }

  /** Mutual exclusion: as long as every other worker's clock is short of the lease's
      end, whatever they do among themselves, none of them comes to hold it, the cursor
      and the stored launches stay where they are, and what the owner then commits
      applies. */
  lemma {:induction false} LiveLeaseExcludes(s: Sys, es: seq<Event>, w: Owner, until: int, now: int, next: nat)
    requires LiveFor(s, w, until) && OthersInTime(es, w, until)
    ensures LiveFor(RunEvents(s, es), w, until) && SamePlace(s, RunEvents(s, es))
    ensures PcOf(RunEvents(s, es), w) == PcOf(s, w)
    ensures forall o :: o != w && PastLease(PcOf(RunEvents(s, es), o)) ==> PastLease(PcOf(s, o))
    ensures CommitApplies(RunEvents(s, es).store, w, now, next) <==> now < until && s.store.cursor.value.block < next
    decreases |es|
  {
    if es != [] {
      OthersLeaveALiveLease(s, es[0], w, until);
      LiveLeaseExcludes(Step(s, es[0]), es[1..], w, until, now, next);
    }
  }

  // --- no gap --------------------------------------------------------------------

  /** Every block between the bootstrap block and the cursor was read, and its
      launches stored, since the last rewind below it. */
  ghost predicate NoGap(s: Sys) {
    s.store.cursor.Some? ==> forall b: nat :: s.boot < b <= s.store.cursor.value.block ==> b in s.seen
  }

  /** A commit that applies although its worker took its starting block from a
      cursor further on than the one its lease came back with. */
  ghost predicate StaleCommit(s: Sys, e: Event) {
    e.Commit? && PcOf(s, e.w).Committing?
    && var pc := PcOf(s, e.w);
       CommitApplies(s.store, e.w, e.now, pc.next) && pc.from > pc.leased.block && pc.from > s.boot
  }

  /** Exactly when one commit keeps the rule. */
  lemma CommitLeavesAGapExactlyWhenStale(s: Sys, w: Owner, now: int, id: RunId, result: RunResult)
    requires Inv(s) && NoGap(s)
    requires PcOf(s, w).Committing? && CommitApplies(s.store, w, now, PcOf(s, w).next)
    ensures NoGap(Step(s, Commit(w, now, id, result))) <==> !StaleCommit(s, Commit(w, now, id, result))
  {
    var pc := PcOf(s, w);
    var s' := Step(s, Commit(w, now, id, result));
    assert s.store.cursor.value.block == pc.leased.block;
    if StaleCommit(s, Commit(w, now, id, result)) {
      assert s.boot < pc.from <= s'.store.cursor.value.block && pc.from !in s'.seen;
    }
  }

  lemma OtherStepsLeaveNoGap(s: Sys, e: Event)
    requires Inv(s) && NoGap(s) && !StaleCommit(s, e)
    ensures NoGap(Step(s, e))
  {
    if e.Commit? && PcOf(s, e.w).Committing? && CommitApplies(s.store, e.w, e.now, PcOf(s, e.w).next) {
      CommitLeavesAGapExactlyWhenStale(s, e.w, e.now, e.id, e.result);
    }
  }

  ghost predicate NeverStale(s: Sys, es: seq<Event>)
    decreases |es|
  {
    es == [] || (!StaleCommit(s, es[0]) && NeverStale(Step(s, es[0]), es[1..]))
  }

  ghost predicate NoGapThroughout(s: Sys, es: seq<Event>)
    decreases |es|
  {
    NoGap(s) && (es == [] || NoGapThroughout(Step(s, es[0]), es[1..]))
  }

  /** The rule holds in every state of an interleaving exactly when each commit's
      worker started at or below the block its lease came back with. */
  lemma {:induction false} NoGapExactlyWhenNeverStale(s: Sys, es: seq<Event>)
    requires Inv(s) && NoGap(s) && HonestRun(s, es)
    ensures NoGapThroughout(s, es) <==> NeverStale(s, es)
    decreases |es|
  {
    if es != [] {
      var e := es[0];
      StepKeeps(s, e);
      if StaleCommit(s, e) {
        CommitLeavesAGapExactlyWhenStale(s, e.w, e.now, e.id, e.result);
        assert !NoGap(Step(s, e));
      } else {
        OtherStepsLeaveNoGap(s, e);
        NoGapExactlyWhenNeverStale(Step(s, e), es[1..]);
      }
    }
  }

  // --- a rewind that lands with a hash never lets a stale start through -----------

  ghost predicate ColdRewind(s: Sys, e: Event) {
    e.Rewind? && PcOf(s, e.w).Landing? && PcOf(s, e.w).landing == None
    && RewindApplies(s.store, e.w, e.now, RewindTo(PcOf(s, e.w).from, s.depth))
  }

  ghost predicate NeverCold(s: Sys, es: seq<Event>)
    decreases |es|
  {
    es == [] || (!ColdRewind(s, es[0]) && NeverCold(Step(s, es[0]), es[1..]))
  }

  /** Until the first commit or rewind the cursor has no hash, and nobody can have
      read it further on. */
  ghost predicate HashlessIsFresh(s: Sys) {
    forall w :: w in s.workers && KnowsFrom(s.workers[w]) ==> FreshFor(s, s.workers[w])
  }

  ghost predicate FreshFor(s: Sys, pc: Pc)
    requires KnowsFrom(pc)
  {
    && (s.store.cursor.Some? && s.store.cursor.value.hash == None ==> pc.from <= s.store.cursor.value.block)
    && (PastLease(pc) && pc.leased.hash == None ==> pc.from <= pc.leased.block)
  }

  /** A worker keeps the block it started from, and the row its lease came back
      with, from one await to the next. */
  lemma StepCarriesOver(s: Sys, e: Event)
    ensures var pc, pc' := PcOf(s, e.w), PcOf(Step(s, e), e.w);
      && (PastLease(pc') ==> KnowsFrom(pc) && pc'.from == pc.from)
      && (PastLease(pc') && !pc.Started? ==> pc'.leased == pc.leased)
      && (PastLease(pc') && pc.Started? ==>
            && Step(s, e).store.cursor == Some(pc'.leased) && s.store.cursor.Some?
            && s.store.cursor.value.block == pc'.leased.block && s.store.cursor.value.hash == pc'.leased.hash)
      && (pc'.Started? ==>
          pc' == pc || (Step(s, e).store.cursor.Some? && pc'.from == Step(s, e).store.cursor.value.block))
  {
  }

  /** Only a commit or a rewind moves the cursor; short of a cold rewind both leave
      it with a hash. */
  lemma StepMovesWithAHash(s: Sys, e: Event)
    requires Inv(s) && !ColdRewind(s, e)
    ensures var c, c' := s.store.cursor, Step(s, e).store.cursor;
      c.Some? && c'.Some? && c'.value.hash == None ==> c.value.hash == None && c'.value.block == c.value.block
    ensures s.store.cursor.Some? ==> Step(s, e).store.cursor.Some?
  {
  }

  /** The other workers: what they know is what they knew. */
  lemma OthersStayHashlessFresh(s: Sys, e: Event, w: Owner)
    requires Inv(s) && Honest(s, e) && HashlessIsFresh(s) && !ColdRewind(s, e)
    requires w != e.w && w in Step(s, e).workers && KnowsFrom(Step(s, e).workers[w])
    ensures FreshFor(Step(s, e), Step(s, e).workers[w])
  {
    StepMovesWithAHash(s, e);
    assert w in s.workers && s.workers[w] == Step(s, e).workers[w];
    assert PcSound(s, s.workers[w]);
  }

  lemma StepKeepsHashlessFresh(s: Sys, e: Event)
    requires Inv(s) && Honest(s, e) && HashlessIsFresh(s) && !ColdRewind(s, e)
    ensures HashlessIsFresh(Step(s, e))
  {
    var s' := Step(s, e);
    forall w | w in s'.workers && KnowsFrom(s'.workers[w]) ensures FreshFor(s', s'.workers[w]) {
      if w != e.w {
        OthersStayHashlessFresh(s, e, w);
      } else {
        StepCarriesOver(s, e);
        StepMovesWithAHash(s, e);
        assert w in s.workers ==> PcSound(s, s.workers[w]);
      }
    }
  }

  lemma FreshIsNeverStale(s: Sys, e: Event)
    requires Inv(s) && HashlessIsFresh(s)
    ensures !StaleCommit(s, e)
  {
    if e.Commit? && PcOf(s, e.w).Committing? {
      assert PcSound(s, s.workers[e.w]);
    }
  }

  /** If every rewind lands on a block whose hash it could read, the rule holds in
      every reachable state, with no condition on any worker: the hash comparison
      catches each stale start before it reads. */
  lemma {:induction false} NoGapWhenRewindsLandWithAHash(s: Sys, es: seq<Event>)
    requires Inv(s) && NoGap(s) && HashlessIsFresh(s) && HonestRun(s, es) && NeverCold(s, es)
    ensures NoGap(RunEvents(s, es))
    decreases |es|
  {
    if es != [] {
      StepKeeps(s, es[0]);
      StepKeepsHashlessFresh(s, es[0]);
      FreshIsNeverStale(s, es[0]);
      OtherStepsLeaveNoGap(s, es[0]);
      NoGapWhenRewindsLandWithAHash(Step(s, es[0]), es[1..]);
    }
  }

  // --- rows a rewind took back -------------------------------------------------------

  lemma StepKeepsTakenBack(s: Sys, e: Event, id: LaunchId)
    requires id in s.store.rows && !s.store.rows[id].canonical
    ensures id in Step(s, e).store.rows && Step(s, e).store.rows[id] == s.store.rows[id]
  {
    if e.Commit? && PcOf(s, e.w).Committing? {
      InsertLaunchesMeaning(s.store.rows, PcOf(s, e.w).launches);
    }
  }

  /** A launch once taken back stays taken back in every run, however often the
      range it lies in is read and committed again. */
  lemma {:induction false} TakenBackForever(s: Sys, es: seq<Event>, id: LaunchId)
    requires id in s.store.rows && !s.store.rows[id].canonical
    ensures id in RunEvents(s, es).store.rows && !RunEvents(s, es).store.rows[id].canonical
    decreases |es|
  {
    if es != [] {
      StepKeepsTakenBack(s, es[0], id);
      TakenBackForever(Step(s, es[0]), es[1..], id);
    }
  }

  predicate Listed(s: Sys, id: LaunchId) { id in s.store.rows && s.store.rows[id].canonical }

  /** A rewind that applies and lands below a stored launch. */
  ghost predicate TakesBack(s: Sys, e: Event, id: LaunchId) {
    e.Rewind? && PcOf(s, e.w).Landing? && id in s.store.rows
    && var to := RewindTo(PcOf(s, e.w).from, s.depth);
       RewindApplies(s.store, e.w, e.now, to) && s.store.rows[id].block > to
  }

  ghost predicate NeverTakesBack(s: Sys, es: seq<Event>, id: LaunchId)
    decreases |es|
  {
    es == [] || (!TakesBack(s, es[0], id) && NeverTakesBack(Step(s, es[0]), es[1..], id))
  }

  lemma StepTakesBackExactlyWhen(s: Sys, e: Event, id: LaunchId)
    requires Listed(s, id)
    ensures id in Step(s, e).store.rows
    ensures Listed(Step(s, e), id) <==> !TakesBack(s, e, id)
  {
    if e.Commit? && PcOf(s, e.w).Committing? {
      InsertLaunchesMeaning(s.store.rows, PcOf(s, e.w).launches);
    }
  }

  /** A listed launch is listed at the end of a run exactly when no rewind of the run
      landed below it; one that did is final. */
  lemma {:induction false} StaysListedExactlyWhen(s: Sys, es: seq<Event>, id: LaunchId)
    requires Listed(s, id)
    ensures Listed(RunEvents(s, es), id) <==> NeverTakesBack(s, es, id)
    decreases |es|
  {
    if es != [] {
      StepTakesBackExactlyWhen(s, es[0], id);
      if TakesBack(s, es[0], id) {
        TakenBackForever(Step(s, es[0]), es[1..], id);
      } else {
        StaysListedExactlyWhen(Step(s, es[0]), es[1..], id);
      }
    }
  }

  // --- on a chain that is never reorganised -----------------------------------------------

  /** On one chain that is never reorganised every hash of a block is the same. */
  predicate SteadyEvent(e: Event) {
    match e
    case Observe(w, observed) => observed.Some? ==> observed.value.salt == 0
    case ReadRange(w, launches, next, hash) => hash.salt == 0
    case ReadLanding(w, landing) => landing.Some? ==> landing.value.salt == 0
    case _ => true
  }

  predicate SteadyHash(h: Option<BlockHash>) { h.Some? ==> h.value.salt == 0 }

  /** Every hash a state holds is one of that chain. */
  ghost predicate Steady(s: Sys) {
    && (s.store.cursor.Some? ==> SteadyHash(s.store.cursor.value.hash))
    && (forall w :: w in s.workers ==> SteadyPc(s.workers[w]))
  }

  predicate SteadyPc(pc: Pc) {
    && (PastLease(pc) ==> SteadyHash(pc.leased.hash))
    && (pc.Ready? || pc.Committing? ==> pc.hash.salt == 0)
    && (pc.Landing? ==> SteadyHash(pc.landing))
  }

  lemma StoreStaysSteady(s: Sys, e: Event)
    requires Steady(s) && SteadyEvent(e)
    ensures Step(s, e).store.cursor.Some? ==> SteadyHash(Step(s, e).store.cursor.value.hash)
  {
    assert e.w in s.workers ==> SteadyPc(s.workers[e.w]);
  }

  lemma WorkerStaysSteady(s: Sys, e: Event)
    requires Steady(s) && SteadyEvent(e)
    ensures SteadyPc(PcOf(Step(s, e), e.w))
  {
    assert SteadyPc(PcOf(s, e.w));
    StepCarriesOver(s, e);
  }

  lemma OthersStayPut(s: Sys, e: Event, w: Owner)
    requires w != e.w && w in Step(s, e).workers
    ensures w in s.workers && s.workers[w] == Step(s, e).workers[w]
  {
  }

  lemma StepKeepsSteady(s: Sys, e: Event)
    requires Steady(s) && SteadyEvent(e)
    ensures Steady(Step(s, e))
  {
    var s' := Step(s, e);
    StoreStaysSteady(s, e);
    WorkerStaysSteady(s, e);
    forall w | w in s'.workers ensures SteadyPc(s'.workers[w]) {
      if w != e.w { OthersStayPut(s, e, w); }
    }
  }

  /** The endpoint names the hash of the block the pass read before its lease, and the
      row its lease came back with is at another block: somebody moved the cursor in
      between. The worker can test it as soon as it holds the lease. */
  ghost predicate ComparesAnotherBlock(s: Sys, e: Event) {
    e.Observe? && e.observed.Some?
    && var pc := PcOf(s, e.w);
       pc.Holding? && pc.leased.hash.Some? && pc.from != pc.leased.block
  }

  /** On an unchanging chain the hash comparison sends a worker back exactly when it
      compares the hashes of two different blocks. */
  lemma ComparisonRewindsExactlyWhen(s: Sys, w: Owner, observed: BlockHash)
    requires Inv(s) && Steady(s) && PcOf(s, w).Holding? && PcOf(s, w).leased.hash.Some?
    requires Honest(s, Observe(w, Some(observed))) && SteadyEvent(Observe(w, Some(observed)))
    ensures PcOf(Step(s, Observe(w, Some(observed))), w).Rewinding? <==> PcOf(s, w).from != PcOf(s, w).leased.block
  {
    assert PcSound(s, s.workers[w]);
    assert SteadyPc(s.workers[w]);
  }

  /** No worker is on its way back. */
  ghost predicate NobodyRewinds(s: Sys) {
    forall w :: w in s.workers ==> !s.workers[w].Rewinding? && !s.workers[w].Landing?
  }

  ghost predicate NobodyRewindsThroughout(s: Sys, es: seq<Event>)
    decreases |es|
  {
    NobodyRewinds(s) && (es == [] || NobodyRewindsThroughout(Step(s, es[0]), es[1..]))
  }

  ghost predicate ComparesLikeWithLike(s: Sys, es: seq<Event>)
    decreases |es|
  {
    es == [] || (!ComparesAnotherBlock(s, es[0]) && ComparesLikeWithLike(Step(s, es[0]), es[1..]))
  }

  ghost predicate AllListed(s: Sys) { forall id :: id in s.store.rows ==> s.store.rows[id].canonical }

  lemma StepKeepsAllListed(s: Sys, e: Event)
    requires AllListed(s) && NobodyRewinds(s)
    ensures AllListed(Step(s, e))
  {
    if e.Commit? && PcOf(s, e.w).Committing? {
      InsertLaunchesMeaning(s.store.rows, PcOf(s, e.w).launches);
    }
  }

  /** The worker that moves turns back exactly when it compares another block's hash. */
  lemma MoverRewindsExactlyWhen(s: Sys, e: Event)
    requires Inv(s) && Steady(s) && Honest(s, e) && SteadyEvent(e)
    requires !PcOf(s, e.w).Rewinding? && !PcOf(s, e.w).Landing?
    ensures !PcOf(Step(s, e), e.w).Landing?
    ensures PcOf(Step(s, e), e.w).Rewinding? <==> ComparesAnotherBlock(s, e)
  {
    if e.Observe? && e.observed.Some? && PcOf(s, e.w).Holding? && PcOf(s, e.w).leased.hash.Some? {
      ComparisonRewindsExactlyWhen(s, e.w, e.observed.value);
    }
  }

  lemma StepRewindsExactlyWhen(s: Sys, e: Event)
    requires Inv(s) && Steady(s) && NobodyRewinds(s) && Honest(s, e) && SteadyEvent(e)
    ensures NobodyRewinds(Step(s, e)) <==> !ComparesAnotherBlock(s, e)
  {
    var s' := Step(s, e);
    MoverRewindsExactlyWhen(s, e);
    forall w | w in s'.workers && w != e.w ensures !s'.workers[w].Rewinding? && !s'.workers[w].Landing? {
      OthersStayPut(s, e, w);
    }
  }

  /** When a chain is never reorganised, some worker goes back during a run exactly when
      one compared another block's hash; and if none did, every stored launch is listed
      in every state. */
  lemma {:induction false} RewindsWithoutAReorgExactlyWhen(s: Sys, es: seq<Event>)
    requires Inv(s) && Steady(s) && NobodyRewinds(s) && HonestRun(s, es)
    requires forall i :: 0 <= i < |es| ==> SteadyEvent(es[i])
    ensures NobodyRewindsThroughout(s, es) <==> ComparesLikeWithLike(s, es)
    ensures AllListed(s) && ComparesLikeWithLike(s, es) ==> AllListed(RunEvents(s, es))
    decreases |es|
  {
    if es != [] {
      StepKeeps(s, es[0]);
      StepKeepsSteady(s, es[0]);
      StepRewindsExactlyWhen(s, es[0]);
      if AllListed(s) { StepKeepsAllListed(s, es[0]); }
      if ComparesAnotherBlock(s, es[0]) {
        assert !NobodyRewinds(Step(s, es[0]));
      } else {
        RewindsWithoutAReorgExactlyWhen(Step(s, es[0]), es[1..]);
      }
    }
  }

  /** The same of everything a lane without a cursor can reach. */
  lemma {:induction false} FreshSteadyLane(depth: nat, es: seq<Event>)
    requires HonestRun(Fresh(depth), es) && forall i :: 0 <= i < |es| ==> SteadyEvent(es[i])
    ensures NobodyRewindsThroughout(Fresh(depth), es) <==> ComparesLikeWithLike(Fresh(depth), es)
    ensures ComparesLikeWithLike(Fresh(depth), es) ==> AllListed(RunEvents(Fresh(depth), es))
  {
    RewindsWithoutAReorgExactlyWhen(Fresh(depth), es);
  }

  // --- two states the code can reach ------------------------------------------------------

  ghost predicate Reaches(from: Sys, es: seq<Event>, to: Sys, steady: bool) {
    && HonestRun(from, es) && RunEvents(from, es) == to
    && (steady ==> forall i :: 0 <= i < |es| ==> SteadyEvent(es[i]))
  }

  /** Some run leads from a lane without a cursor to `s`. */
  ghost predicate Reachable(depth: nat, s: Sys, steady: bool) {
    exists es :: Reaches(Fresh(depth), es, s, steady)
  }

  /** Soundness and the exact condition, said of everything a fresh lane can reach. */
  lemma {:induction false} FreshLane(depth: nat, es: seq<Event>)
    requires HonestRun(Fresh(depth), es)
    ensures Inv(RunEvents(Fresh(depth), es))
    ensures NoGapThroughout(Fresh(depth), es) <==> NeverStale(Fresh(depth), es)
    ensures NeverCold(Fresh(depth), es) ==> NoGap(RunEvents(Fresh(depth), es))
  {
    EveryReachableStateIsSound(Fresh(depth), es);
    NoGapExactlyWhenNeverStale(Fresh(depth), es);
    if NeverCold(Fresh(depth), es) { NoGapWhenRewindsLandWithAHash(Fresh(depth), es); }
  }

  lemma {:induction false} Extended(s: Sys, es: seq<Event>, e: Event)
    ensures RunEvents(s, es + [e]) == Step(RunEvents(s, es), e)
    ensures HonestRun(s, es) && Honest(RunEvents(s, es), e) ==> HonestRun(s, es + [e])
    decreases |es|
  {
    if es == [] {
      assert es + [e] == [e] && [e][1..] == [];
      assert RunEvents(s, [e]) == RunEvents(Step(s, e), []);
      assert HonestRun(Step(s, e), []);
    } else {
      assert (es + [e])[0] == es[0] && (es + [e])[1..] == es[1..] + [e];
      Extended(Step(s, es[0]), es[1..], e);
    }
  }

  lemma Next(depth: nat, s: Sys, e: Event, steady: bool) returns (s': Sys)
    requires Reachable(depth, s, steady) && Honest(s, e) && (steady ==> SteadyEvent(e))
    ensures s' == Step(s, e) && Reachable(depth, s', steady)
  {
    var es :| Reaches(Fresh(depth), es, s, steady);
    Extended(Fresh(depth), es, e);
    s' := Step(s, e);
    assert Reaches(Fresh(depth), es + [e], s', steady);
  }

  lemma OpenLane(depth: nat, w: Owner, start: nat, steady: bool) returns (s: Sys)
    ensures Reachable(depth, s, steady)
    ensures s == Sys(Store(Some(Cursor(start, None, None, None)), map[], map[]), map[w := Idle], depth, start, map[])
  {
    assert Reaches(Fresh(depth), [], Fresh(depth), steady);
    s := Next(depth, Fresh(depth), ReadCursor(w), steady);
    assert PcOf(s, w) == NoCursor;
    s := Next(depth, s, CreateCursor(w, start), steady);
    s := Next(depth, s, Crash(w), steady);
    assert s.workers == map[w := Idle];
  }

  lemma StartPass(s: Sys, w: Owner, steady: bool) returns (s': Sys)
    requires Reachable(s.depth, s, steady) && PcOf(s, w) == Idle && s.store.cursor.Some?
    ensures s' == Goto(s, w, Started(s.store.cursor.value.block)) && Reachable(s.depth, s', steady)
  {
    s' := Next(s.depth, s, ReadCursor(w), steady);
  }

  lemma GotoTwice(s: Sys, w: Owner, a: Pc, b: Pc)
    ensures Goto(Goto(s, w, a), w, b) == Goto(s, w, b)
  {
  }

  function HeldBy(c: Cursor, w: Owner): Cursor { c.(lease := Some(Lease(w, 10))) }

  function WithCursor(s: Sys, c: Cursor): Sys { s.(store := s.store.(cursor := Some(c))) }

  lemma TakesLease(s: Sys, w: Owner, from: nat, c: Cursor, steady: bool) returns (s': Sys)
    requires Reachable(s.depth, s, steady) && s.store.cursor == Some(c) && c.lease == None
      && PcOf(s, w) == Started(from)
    ensures Reachable(s.depth, s', steady) && s' == Goto(WithCursor(s, HeldBy(c, w)), w, Holding(from, HeldBy(c, w)))
  {
    s' := Next(s.depth, s, TakeLease(w, 0, 10), steady);
  }

  lemma MovesOn(s: Sys, w: Owner, pc: Pc, e: Event, pc': Pc, steady: bool) returns (s': Sys)
    requires Reachable(s.depth, Goto(s, w, pc), steady) && Honest(Goto(s, w, pc), e) && (steady ==> SteadyEvent(e))
    requires Step(Goto(s, w, pc), e) == Goto(Goto(s, w, pc), w, pc')
    ensures Reachable(s.depth, s', steady) && s' == Goto(s, w, pc')
  {
    s' := Next(s.depth, Goto(s, w, pc), e, steady);
    GotoTwice(s, w, pc, pc');
  }

  /** From its lease to a range it has read and may commit. */
  lemma PassReads(s: Sys, w: Owner, from: nat, c: Cursor, launches: seq<Launch>, next: nat, steady: bool)
    returns (s': Sys)
    requires Reachable(s.depth, s, steady)
    requires s.store.cursor == Some(c) && c.lease == None && HashBelongs(c) && PcOf(s, w) == Started(from)
    requires (c.hash == None || from == c.block) && ReadContract(from, launches, next)
    requires steady && c.hash.Some? ==> c.hash.value.salt == 0
    ensures Reachable(s.depth, s', steady)
    ensures s' == Goto(WithCursor(s, HeldBy(c, w)), w, Ready(from, HeldBy(c, w), launches, next, BlockHash(next, 0)))
  {
    var held, leased := HeldBy(c, w), WithCursor(s, HeldBy(c, w));
    var s1 := TakesLease(s, w, from, c, steady);
    var check := if c.hash == None then SkipCheck(w) else Observe(w, c.hash);
    var s2 := MovesOn(leased, w, Holding(from, held), check, Checked(from, held), steady);
    s' := MovesOn(leased, w, Checked(from, held), ReadRange(w, launches, next, BlockHash(next, 0)),
                  Ready(from, held, launches, next, BlockHash(next, 0)), steady);
  }

  lemma CheckEffect(s: Sys, w: Owner, from: nat, held: Cursor, launches: seq<Launch>, next: nat)
    requires s.store.cursor == Some(held) && held.block <= from && ReadContract(from, launches, next)
    requires PcOf(s, w) == Ready(from, held, launches, next, BlockHash(next, 0))
    ensures Step(s, CheckCommit(w)) == Goto(s, w, Committing(from, held, launches, next, BlockHash(next, 0)))
  {
  }

  lemma CommitEffect(s: Sys, w: Owner, from: nat, held: Cursor, launches: seq<Launch>, next: nat)
    requires s.store.cursor == Some(held) && held.block < next && held.lease == Some(Lease(w, 10))
    requires PcOf(s, w) == Committing(from, held, launches, next, BlockHash(next, 0))
    ensures var s' := Step(s, Commit(w, 0, next, Success));
      && s'.store.cursor == Some(Cursor(next, Some(BlockHash(next, 0)), held.lease, None))
      && s'.store.rows == InsertLaunches(s.store.rows, launches)
      && s'.workers == s.workers[w := Closing] && s'.depth == s.depth && s'.boot == s.boot
      && s'.seen == s.seen + map b: nat | from < b <= next :: IdsAt(launches, b)
  {
  }

  lemma ReleaseEffect(s: Sys, w: Owner)
    requires PcOf(s, w) == Closing && OwnsLease(s.store, w)
    ensures var free := s.store.cursor.value.(lease := None);
      Step(s, Release(w)) == Goto(s.(store := s.store.(cursor := Some(free))), w, Idle)
  {
  }

  /** From a range it may commit to the statement that is sent. */
  lemma PassChecks(s: Sys, w: Owner, from: nat, held: Cursor, launches: seq<Launch>, next: nat, steady: bool)
    returns (s': Sys)
    requires Reachable(s.depth, s, steady) && PcOf(s, w) == Ready(from, held, launches, next, BlockHash(next, 0))
    requires s.store.cursor == Some(held) && held.block <= from && ReadContract(from, launches, next)
    ensures Reachable(s.depth, s', steady)
    ensures s' == Goto(s, w, Committing(from, held, launches, next, BlockHash(next, 0)))
  {
    CheckEffect(s, w, from, held, launches, next);
    s' := Next(s.depth, s, CheckCommit(w), steady);
  }

  /** From a range it may commit to the committed cursor. */
  lemma PassCommits(s: Sys, w: Owner, from: nat, held: Cursor, launches: seq<Launch>, next: nat, steady: bool)
    returns (s': Sys)
    requires Reachable(s.depth, s, steady)
    requires s.store.cursor == Some(held) && held.block <= from && held.lease == Some(Lease(w, 10))
    requires ReadContract(from, launches, next)
    requires PcOf(s, w) == Ready(from, held, launches, next, BlockHash(next, 0))
    ensures Reachable(s.depth, s', steady)
    ensures s'.store.cursor == Some(Cursor(next, Some(BlockHash(next, 0)), None, None))
    ensures s'.store.rows == InsertLaunches(s.store.rows, launches)
    ensures s'.workers == s.workers[w := Idle] && s'.depth == s.depth && s'.boot == s.boot
    ensures s'.seen == s.seen + map b: nat | from < b <= next :: IdsAt(launches, b)
  {
    var s1 := PassChecks(s, w, from, held, launches, next, steady);
    CommitEffect(s1, w, from, held, launches, next);
    var s2 := Next(s.depth, s1, Commit(w, 0, next, Success), steady);
    ReleaseEffect(s2, w);
    s' := Next(s.depth, s2, Release(w), steady);
  }

  /** A pass from its lease to its commit, nobody else moving meanwhile. */
  lemma ForwardPass(s: Sys, w: Owner, from: nat, c: Cursor, launches: seq<Launch>, next: nat, steady: bool)
    returns (s': Sys)
    requires Reachable(s.depth, s, steady)
    requires s.store.cursor == Some(c) && c.lease == None && HashBelongs(c) && PcOf(s, w) == Started(from)
    requires (c.hash == None || from == c.block) && c.block <= from && ReadContract(from, launches, next)
    requires steady && c.hash.Some? ==> c.hash.value.salt == 0
    ensures Reachable(s.depth, s', steady)
    ensures s'.store.cursor == Some(Cursor(next, Some(BlockHash(next, 0)), None, None))
    ensures s'.store.rows == InsertLaunches(s.store.rows, launches)
    ensures s'.workers == s.workers[w := Idle] && s'.depth == s.depth && s'.boot == s.boot
    ensures s'.seen == s.seen + map b: nat | from < b <= next :: IdsAt(launches, b)
  {
    var mid := PassReads(s, w, from, c, launches, next, steady);
    s' := PassCommits(mid, w, from, HeldBy(c, w), launches, next, steady);
    assert mid.workers[w := Idle] == s.workers[w := Idle];
  }

  /** From its lease to a rewind whose landing block it has read. */
  lemma PassFindsReorg(s: Sys, w: Owner, from: nat, c: Cursor, observed: BlockHash, landing: Option<BlockHash>,
                       steady: bool)
    returns (s': Sys)
    requires Reachable(s.depth, s, steady)
    requires s.store.cursor == Some(c) && c.lease == None && PcOf(s, w) == Started(from)
    requires c.hash.Some? && Some(observed) != c.hash && observed.number == from
    requires landing.Some? ==> landing.value.number == RewindTo(from, s.depth)
    requires steady ==> observed.salt == 0 && (landing.Some? ==> landing.value.salt == 0)
    ensures Reachable(s.depth, s', steady)
    ensures s' == Goto(WithCursor(s, HeldBy(c, w)), w, Landing(from, HeldBy(c, w), landing))
  {
    var held, leased := HeldBy(c, w), WithCursor(s, HeldBy(c, w));
    var s1 := TakesLease(s, w, from, c, steady);
    var s2 := MovesOn(leased, w, Holding(from, held), Observe(w, Some(observed)), Rewinding(from, held), steady);
    s' := MovesOn(leased, w, Rewinding(from, held), ReadLanding(w, landing), Landing(from, held, landing), steady);
  }

  lemma RewindEffect(s: Sys, w: Owner, from: nat, held: Cursor, landing: Option<BlockHash>)
    requires s.store.cursor == Some(held) && held.lease == Some(Lease(w, 10))
      && PcOf(s, w) == Landing(from, held, landing)
    requires RewindTo(from, s.depth) < held.block
    ensures var s' := Step(s, Rewind(w, 0, 0)); var to := RewindTo(from, s.depth);
      && s'.store.cursor == Some(Cursor(to, landing, held.lease, Some(ReorgRewound)))
      && s'.store.rows == TakenBack(s.store.rows, to)
      && s'.workers == s.workers[w := Closing] && s'.depth == s.depth && s'.boot == s.boot
      && s'.seen == map b | b in s.seen && b <= to :: s.seen[b]
  {
  }

  /** From a landing block it has read to the cursor there. */
  lemma PassRewinds(s: Sys, w: Owner, from: nat, held: Cursor, landing: Option<BlockHash>, steady: bool)
    returns (s': Sys)
    requires Reachable(s.depth, s, steady) && PcOf(s, w) == Landing(from, held, landing)
    requires s.store.cursor == Some(held) && held.lease == Some(Lease(w, 10)) && RewindTo(from, s.depth) < held.block
    ensures Reachable(s.depth, s', steady)
    ensures var to := RewindTo(from, s.depth);
      && s'.store.cursor == Some(Cursor(to, landing, None, Some(ReorgRewound)))
      && s'.store.rows == TakenBack(s.store.rows, to)
      && s'.workers == s.workers[w := Idle] && s'.depth == s.depth && s'.boot == s.boot
      && s'.seen == map b | b in s.seen && b <= to :: s.seen[b]
  {
    RewindEffect(s, w, from, held, landing);
    var s2 := Next(s.depth, s, Rewind(w, 0, 0), steady);
    ReleaseEffect(s2, w);
    s' := Next(s.depth, s2, Release(w), steady);
  }

  /** A pass from its lease to its rewind, nobody else moving meanwhile. */
  lemma BackwardPass(s: Sys, w: Owner, from: nat, c: Cursor, observed: BlockHash, landing: Option<BlockHash>,
                     steady: bool)
    returns (s': Sys)
    requires Reachable(s.depth, s, steady)
    requires s.store.cursor == Some(c) && c.lease == None && PcOf(s, w) == Started(from)
    requires c.hash.Some? && Some(observed) != c.hash && observed.number == from
    requires RewindTo(from, s.depth) < c.block
    requires landing.Some? ==> landing.value.number == RewindTo(from, s.depth)
    requires steady ==> observed.salt == 0 && (landing.Some? ==> landing.value.salt == 0)
    ensures Reachable(s.depth, s', steady)
    ensures var to := RewindTo(from, s.depth);
      && s'.store.cursor == Some(Cursor(to, landing, None, Some(ReorgRewound)))
      && s'.store.rows == TakenBack(s.store.rows, to)
      && s'.workers == s.workers[w := Idle] && s'.depth == s.depth && s'.boot == s.boot
      && s'.seen == map b | b in s.seen && b <= to :: s.seen[b]
  {
    var mid := PassFindsReorg(s, w, from, c, observed, landing, steady);
    s' := PassRewinds(mid, w, from, HeldBy(c, w), landing, steady);
    assert mid.workers[w := Idle] == s.workers[w := Idle];
  }

  /** The rule can be broken. Worker 2 reads the cursor at 1100; worker 1 sees a
      reorganised block there, rewinds to 1036 and cannot read that block's hash;
      worker 2 takes the lease, has no hash to compare, reads on from 1100 and
      commits. Blocks 1037 to 1100 are behind the cursor and nobody reads them. */
  lemma AGapIsReachable() returns (s: Sys)
    ensures Reachable(64, s, false)
    ensures s.store.cursor == Some(Cursor(1200, Some(BlockHash(1200, 0)), None, None))
    ensures forall b :: 1036 < b <= 1100 ==> b !in s.seen
    ensures !NoGap(s)
  {
    var s0 := OpenLane(64, 1, 1000, false);
    var s1 := StartPass(s0, 1, false);
    var s2 := ForwardPass(s1, 1, 1000, s0.store.cursor.value, [], 1100, false);
    var s3 := StartPass(s2, 2, false);
    var s4 := StartPass(s3, 1, false);
    var s5 := BackwardPass(s4, 1, 1100, s2.store.cursor.value, BlockHash(1100, 1), None, false);
    s := ForwardPass(s5, 2, 1100, s5.store.cursor.value, [], 1200, false);
    assert s.boot < 1100 <= s.store.cursor.value.block && 1100 !in s.seen;
  }

  /** A rewind needs no reorganisation. Worker 2 reads the cursor at 1000; worker 1
      commits a launch of block 1090 and moves to 1100; worker 2's lease comes back
      with the hash of 1100, which is not the hash of 1000, and it rewinds. */
  lemma ARewindWithoutAReorg() returns (s: Sys, launch: Launch)
    ensures Reachable(64, s, true) && s.depth == 64 && PcOf(s, 1) == Idle && launch.block == 1090
    ensures s.store.cursor == Some(Cursor(936, Some(BlockHash(936, 0)), None, Some(ReorgRewound)))
    ensures launch.id in s.store.rows && !s.store.rows[launch.id].canonical
  {
    launch := Launch(7, 1090);
    var s0 := OpenLane(64, 1, 1000, true);
    var s1 := StartPass(s0, 2, true);
    var s2 := StartPass(s1, 1, true);
    var s3 := ForwardPass(s2, 1, 1000, s0.store.cursor.value, [launch], 1100, true);
    assert s3.store.rows[launch.id] == Row(1090, true) by {
      InsertLaunchesMeaning(s2.store.rows, [launch]);
      assert [launch][0].id == launch.id;
    }
    s := BackwardPass(s3, 2, 1000, s3.store.cursor.value, BlockHash(1000, 0), Some(BlockHash(936, 0)), true);
  }

  /** The next pass reads the launch again and commits its range, and the launch stays
      marked as taken back although the chain never changed. */
  lemma ALaunchIsLostWithoutAReorg() returns (s: Sys, launch: Launch)
    ensures Reachable(64, s, true)
    ensures s.store.cursor == Some(Cursor(1100, Some(BlockHash(1100, 0)), None, None))
    ensures 1090 in s.seen && launch.id in s.seen[1090]
    ensures launch.id in s.store.rows && !s.store.rows[launch.id].canonical
  {
    var back;
    back, launch := ARewindWithoutAReorg();
    var s5 := StartPass(back, 1, true);
    s := ForwardPass(s5, 1, 936, back.store.cursor.value, [launch], 1100, true);
    InsertLaunchesMeaning(s5.store.rows, [launch]);
    assert [launch][0].block == 1090 && [launch][0].id == launch.id;
    assert launch.id in IdsAt([launch], 1090);
  }
}
