/** The durable half of B20 discovery: one lane's cursor with its lease, the
    stored launches and the run rows. Identifiers the code only compares (owners,
    launch ids, run ids) are numbers here. */
module DiscoverStore {
  import opened Common

  type Owner = nat
  type LaunchId = nat
  type RunId = nat

  /** A block hash commits to the header it hashes, block number included. */
  datatype BlockHash = BlockHash(number: nat, salt: nat)

  datatype Launch = Launch(id: LaunchId, block: nat)
  datatype Lease = Lease(owner: Owner, expiresAt: int)
  datatype OperatorState = EndpointSilent | DecoderMismatch | ReorgRewound
  datatype Cursor = Cursor(block: nat, hash: Option<BlockHash>, lease: Option<Lease>,
                           operatorState: Option<OperatorState>)
  datatype Row = Row(block: nat, canonical: bool)

  datatype RunResult =
    | Success | BudgetExhausted | NothingConfirmed | ConfigurationRequired
    | RunAlreadyActive | EndpointUnavailable | DecoderRefused | ReorgRewind

  datatype Run = Run(result: RunResult, startBlock: nat, endBlock: nat, launchesRead: nat, inserted: nat,
                     duplicates: int)

  datatype Store = Store(cursor: Option<Cursor>, rows: map<LaunchId, Row>, runs: map<RunId, Run>)

  /** What became of one call: answered, failed before it reached the database, or
      applied with the answer lost on the way back. */
  datatype Fault = Answered | NotApplied | ReplyLost

  function InertRun(result: RunResult, block: nat): Run {
    Run(result, block, block, 0, 0, 0)
  }

  // --- the statements, each one atomic ---------------------------------------

  function Initialised(s: Store, start: nat): Store {
    if s.cursor.Some? then s else s.(cursor := Some(Cursor(start, None, None, None)))
  }

  predicate LeaseFree(c: Cursor, owner: Owner, now: int) {
    c.lease == None || c.lease.value.owner == owner || c.lease.value.expiresAt <= now
  }

  /** Somebody else holds a lease that has not run out. */
  predicate HeldElsewhere(s: Store, owner: Owner, now: int) {
    s.cursor.Some? && s.cursor.value.lease.Some?
    && s.cursor.value.lease.value.owner != owner && now < s.cursor.value.lease.value.expiresAt
  }

  predicate LeaseHeld(s: Store, owner: Owner, now: int) {
    s.cursor.Some? && s.cursor.value.lease.Some?
    && s.cursor.value.lease.value.owner == owner && s.cursor.value.lease.value.expiresAt > now
  }

  predicate Grants(s: Store, owner: Owner, now: int) {
    s.cursor.Some? && LeaseFree(s.cursor.value, owner, now)
  }

  function Leased(s: Store, owner: Owner, now: int, ttl: nat): Store {
    if Grants(s, owner, now) then
      s.(cursor := Some(s.cursor.value.(lease := Some(Lease(owner, now + ttl)))))
    else s
  }

  predicate OwnsLease(s: Store, owner: Owner) {
    s.cursor.Some? && s.cursor.value.lease.Some? && s.cursor.value.lease.value.owner == owner
  }

  function Released(s: Store, owner: Owner): Store {
    if OwnsLease(s, owner) then s.(cursor := Some(s.cursor.value.(lease := None))) else s
  }

  /** Why a commit is refused before its statement is sent: it would not move
      forward, or it carries a launch outside the blocks it moves over. */
  predicate CommitRefused(c: Cursor, launches: seq<Launch>, next: nat) {
    next <= c.block || exists i :: 0 <= i < |launches| && !(c.block < launches[i].block <= next)
  }

  /** `INSERT ... ON CONFLICT DO NOTHING`: a row already stored is left as it is. */
  function InsertLaunches(rows: map<LaunchId, Row>, launches: seq<Launch>): map<LaunchId, Row>
    decreases |launches|
  {
    if launches == [] then rows
    else
      var l := launches[0];
      InsertLaunches(if l.id in rows then rows else rows[l.id := Row(l.block, true)], launches[1..])
  }

  predicate CommitApplies(s: Store, owner: Owner, now: int, next: nat) {
    LeaseHeld(s, owner, now) && s.cursor.value.block < next
  }

  function RecordedOnce(runs: map<RunId, Run>, id: RunId, run: Run): map<RunId, Run> {
    if id in runs then runs else runs[id := run]
  }

  function Committed(s: Store, owner: Owner, now: int, launches: seq<Launch>, next: nat, hash: BlockHash,
                     id: RunId, run: Run): Store
  {
    if !CommitApplies(s, owner, now, next) then s
    else
      var rows := InsertLaunches(s.rows, launches);
      var inserted := |rows| - |s.rows|;
      Store(Some(s.cursor.value.(block := next, hash := Some(hash), operatorState := None)),
            rows,
            RecordedOnce(s.runs, id, run.(inserted := if inserted < 0 then 0 else inserted,
                                          duplicates := |launches| - inserted)))
  }

  function RunRecorded(s: Store, id: RunId, run: Run, state: Option<OperatorState>): Store {
    Store(if state.Some? && s.cursor.Some? then Some(s.cursor.value.(operatorState := state)) else s.cursor,
          s.rows, RecordedOnce(s.runs, id, run))
  }

  /** The two statements of a failed run: the run row, and the operator state stamped
      on the cursor. The second is sent only once the first was answered. */
  function FailedRun(s: Store, id: RunId, run: Run, state: Option<OperatorState>, row: Fault, stamp: Fault): Store {
    if row == NotApplied then s
    else RunRecorded(s, id, run, if row == Answered && stamp != NotApplied then state else None)
  }

  predicate RewindApplies(s: Store, owner: Owner, now: int, to: nat) {
    LeaseHeld(s, owner, now) && to < s.cursor.value.block
  }

  /** Rows above the landing block are marked, never deleted. */
  function TakenBack(rows: map<LaunchId, Row>, to: nat): map<LaunchId, Row> {
    map id | id in rows :: if rows[id].block > to then rows[id].(canonical := false) else rows[id]
  }

  function Rewound(s: Store, owner: Owner, now: int, to: nat, hash: Option<BlockHash>, id: RunId, run: Run): Store {
    if !RewindApplies(s, owner, now, to) then s
    else
      Store(Some(s.cursor.value.(block := to, hash := hash, operatorState := Some(ReorgRewound))),
            TakenBack(s.rows, to), RecordedOnce(s.runs, id, run))
  }

  // --- what the statements keep ------------------------------------------------

  ghost predicate HasId(launches: seq<Launch>, id: LaunchId) {
    exists i :: 0 <= i < |launches| && launches[i].id == id
  }

  /** What was stored stays as it was, and each launch not yet stored is, as canonical
      and at its own block. */
  ghost predicate Stores(rows: map<LaunchId, Row>, after: map<LaunchId, Row>, launches: seq<Launch>) {
    && (forall id :: id in rows ==> id in after && after[id] == rows[id])
    && (forall id :: id in after <==> id in rows || HasId(launches, id))
    && (forall id :: id in after && id !in rows ==>
          after[id].canonical && exists i :: 0 <= i < |launches| && launches[i] == Launch(id, after[id].block))
  }

  /** No row is gone or moved, and those listed are the ones listed before at or below `to`. */
  ghost predicate ListedUpTo(rows: map<LaunchId, Row>, after: map<LaunchId, Row>, to: nat) {
    forall id ::
      && (id in after <==> id in rows)
      && (id in rows ==> after[id].block == rows[id].block
                         && (after[id].canonical <==> rows[id].canonical && rows[id].block <= to))
  }

  lemma {:induction false} InsertLaunchesMeaning(rows: map<LaunchId, Row>, launches: seq<Launch>)
    ensures Stores(rows, InsertLaunches(rows, launches), launches)
    decreases |launches|
  {
    if launches != [] {
      var l := launches[0];
      var mid := if l.id in rows then rows else rows[l.id := Row(l.block, true)];
      InsertLaunchesMeaning(mid, launches[1..]);
      var after := InsertLaunches(rows, launches);
      forall id ensures id in after <==> id in rows || HasId(launches, id) {
        if HasId(launches, id) && id !in mid {
          var i :| 0 <= i < |launches| && launches[i].id == id;
          assert i > 0;
          assert launches[1..][i - 1].id == id;
        }
        if HasId(launches[1..], id) {
          var i :| 0 <= i < |launches[1..]| && launches[1..][i].id == id;
          assert launches[i + 1].id == id;
        }
        assert launches[0].id == l.id;
      }
      forall id | id in after && id !in rows
        ensures after[id].canonical && exists i :: 0 <= i < |launches| && launches[i] == Launch(id, after[id].block)
      {
        if id in mid {
          assert launches[0] == Launch(id, after[id].block);
        } else {
          var i :| 0 <= i < |launches[1..]| && launches[1..][i] == Launch(id, after[id].block);
          assert launches[i + 1] == Launch(id, after[id].block);
        }
      }
    }
  }

  /** A lease of the caller that has not run out. */
  ghost predicate InTime(c: Cursor, owner: Owner, now: int) {
    c.lease.Some? && c.lease.value.owner == owner && now < c.lease.value.expiresAt
  }

  /** A commit moves the cursor forwards under the caller's own live lease, with the
      launches it carries and one run row, or does nothing. */
  lemma CommittedExactlyWhen(s: Store, owner: Owner, now: int, launches: seq<Launch>, next: nat, hash: BlockHash,
                             id: RunId, run: Run)
    requires s.cursor.Some?
    ensures var c, after := s.cursor.value, Committed(s, owner, now, launches, next, hash, id, run);
      if !(InTime(c, owner, now) && c.block < next) then after == s
      else
        && after.cursor == Some(Cursor(next, Some(hash), c.lease, None))
        && Stores(s.rows, after.rows, launches) && |s.rows| <= |after.rows|
        && (id in s.runs ==> after.runs == s.runs)
        && (id !in s.runs ==>
              after.runs == s.runs[id := run.(inserted := |after.rows| - |s.rows|,
                                              duplicates := |launches| + |s.rows| - |after.rows|)])
  {
    InsertLaunchesMeaning(s.rows, launches);
    InsertedGrow(s.rows, launches);
  }

  lemma {:induction false} InsertedGrow(rows: map<LaunchId, Row>, launches: seq<Launch>)
    ensures |rows| <= |InsertLaunches(rows, launches)|
    decreases |launches|
  {
    if launches != [] {
      var l := launches[0];
      InsertedGrow(if l.id in rows then rows else rows[l.id := Row(l.block, true)], launches[1..]);
    }
  }

  /** A rewind moves it backwards under the caller's own live lease, takes back what lies
      above and adds one run row, or does nothing. */
  lemma RewoundExactlyWhen(s: Store, owner: Owner, now: int, to: nat, hash: Option<BlockHash>, id: RunId, run: Run)
    requires s.cursor.Some?
    ensures var c, after := s.cursor.value, Rewound(s, owner, now, to, hash, id, run);
      if !(InTime(c, owner, now) && to < c.block) then after == s
      else
        && after.cursor == Some(Cursor(to, hash, c.lease, Some(ReorgRewound)))
        && ListedUpTo(s.rows, after.rows, to)
        && after.runs == if id in s.runs then s.runs else s.runs[id := run]
  {
  }

  /** What a commit is refused for before it is sent. */
  lemma RefusedExactlyWhen(c: Cursor, launches: seq<Launch>, next: nat)
    ensures CommitRefused(c, launches, next) <==>
      !(c.block < next && forall l :: l in launches ==> c.block < l.block && l.block <= next)
  {
    if forall l :: l in launches ==> c.block < l.block && l.block <= next {
      forall i | 0 <= i < |launches| ensures c.block < launches[i].block <= next { assert launches[i] in launches; }
    }
  }

  /** A launch a commit carries is listed as canonical afterwards exactly when it
      was not already stored as taken back: re-reading a range never restores a
      row a rewind marked. */
  lemma RecommitNeverRestores(rows: map<LaunchId, Row>, launches: seq<Launch>, id: LaunchId)
    requires HasId(launches, id)
    ensures id in InsertLaunches(rows, launches)
    ensures InsertLaunches(rows, launches)[id].canonical <==> (id in rows ==> rows[id].canonical)
  {
    InsertLaunchesMeaning(rows, launches);
  }

  // --- the repository -----------------------------------------------------------

  class DiscoverRepository {
    var cursor: Option<Cursor>
    var rows: map<LaunchId, Row>
    var runs: map<RunId, Run>

    ghost function View(): Store reads this { Store(cursor, rows, runs) }

    constructor ()
      ensures View() == Store(None, map[], map[])
    {
      cursor, rows, runs := None, map[], map[];
    }

    method InitialiseCursor(start: nat, fault: Fault) returns (reply: Option<Cursor>)
      modifies this
      ensures View() == if fault == NotApplied then old(View()) else Initialised(old(View()), start)
      ensures reply == if fault == Answered then cursor else None
      ensures fault == Answered ==> reply.Some?
      // a lane is opened once: where it was opened, with nothing else known
      ensures cursor == (if fault != NotApplied && old(cursor) == None then Some(Cursor(start, None, None, None))
                         else old(cursor)) && rows == old(rows) && runs == old(runs)
    {
      if fault != NotApplied && cursor == None {
        cursor := Some(Cursor(start, None, None, None));
      }
      reply := if fault == Answered then cursor else None;
    }

    /** `Some(None)` is a lease somebody else holds; `None` a call that failed. */
    method AcquireWorkerLease(owner: Owner, now: int, ttl: nat, fault: Fault) returns (reply: Option<Option<Cursor>>)
      modifies this
      ensures View() == if fault == NotApplied then old(View()) else Leased(old(View()), owner, now, ttl)
      ensures reply == if fault != Answered then None
        else Some(if Grants(old(View()), owner, now) then cursor else None)
      // a live lease of somebody else is refused; a free, expired or own one is taken for `ttl` from now
      ensures fault == Answered && old(cursor).Some? ==>
        var held := old(cursor).value.lease;
        if held.Some? && held.value.owner != owner && now < held.value.expiresAt
        then reply == Some(None) && View() == old(View())
        else
          && reply == Some(cursor) && cursor == Some(old(cursor).value.(lease := Some(Lease(owner, now + ttl))))
          && rows == old(rows) && runs == old(runs)
    {
      reply := None;
      if fault != NotApplied {
        var granted := cursor.Some?
          && (cursor.value.lease == None || cursor.value.lease.value.owner == owner
              || cursor.value.lease.value.expiresAt <= now);
        if granted {
          cursor := Some(cursor.value.(lease := Some(Lease(owner, now + ttl))));
        }
        if fault == Answered {
          reply := Some(if granted then cursor else None);
        }
      }
    }

    method ReleaseWorkerLease(owner: Owner, fault: Fault) returns (ok: bool)
      modifies this
      ensures View() == if fault == NotApplied then old(View()) else Released(old(View()), owner)
      ensures ok == (fault == Answered)
      // nothing but the caller's own lease is given up, run out or not
      ensures rows == old(rows) && runs == old(runs) && (old(cursor) == None ==> cursor == None)
      ensures old(cursor).Some? ==>
        var held := old(cursor).value.lease;
        cursor == Some(if fault != NotApplied && held.Some? && held.value.owner == owner
                       then old(cursor).value.(lease := None) else old(cursor).value)
    {
      if fault != NotApplied && cursor.Some? && cursor.value.lease.Some? && cursor.value.lease.value.owner == owner {
        cursor := Some(cursor.value.(lease := None));
      }
      ok := fault == Answered;
    }

    method Insert(before: map<LaunchId, Row>, launches: seq<Launch>) returns (stored: map<LaunchId, Row>, inserted: nat)
      ensures stored == InsertLaunches(before, launches) && Stores(before, stored, launches)
      ensures inserted == |stored| - |before|
    {
      InsertLaunchesMeaning(before, launches);
      stored, inserted := before, 0;
      for i := 0 to |launches|
        invariant InsertLaunches(before, launches) == InsertLaunches(stored, launches[i..])
        invariant inserted == |stored| - |before|
      {
        assert launches[i..][0] == launches[i] && launches[i..][1..] == launches[i + 1..];
        if launches[i].id !in stored {
          stored := stored[launches[i].id := Row(launches[i].block, true)];
          inserted := inserted + 1;
        }
      }
    }

    /** `None` when the call threw, otherwise whether the one statement moved the
        cursor and how many launches it stored. */
    method CommitRange(owner: Owner, now: int, launches: seq<Launch>, next: nat, hash: BlockHash, id: RunId, run: Run,
                       fault: Fault)
      returns (reply: Option<(bool, nat)>)
      modifies this
      ensures old(cursor) == None || CommitRefused(old(cursor.value), launches, next) ==>
        View() == old(View()) && reply == None
      ensures old(cursor).Some? && !CommitRefused(old(cursor.value), launches, next) ==>
                && View() == (if fault == NotApplied then old(View()) else Committed(old(View()), owner, now, launches,
                      next, hash, id, run))
                && (reply.Some? <==> fault == Answered)
                && (reply.Some? ==> reply.value.0 == CommitApplies(old(View()), owner, now, next))
                && (reply.Some? && reply.value.0 ==> reply.value.1 == |rows| - |old(rows)|)
    {
      reply := None;
      if cursor == None || CommitRefused(cursor.value, launches, next) { return; }
      if fault == NotApplied { return; }
      var held := cursor.value.lease.Some? && cursor.value.lease.value.owner == owner
        && cursor.value.lease.value.expiresAt > now;
      if !held || next <= cursor.value.block {
        reply := if fault == Answered then Some((false, 0)) else None;
        return;
      }
      var inserted;
      rows, inserted := Insert(rows, launches);
      cursor := Some(cursor.value.(block := next, hash := Some(hash), operatorState := None));
      if id !in runs {
        runs := runs[id := run.(inserted := inserted, duplicates := |launches| - inserted)];
      }
      reply := if fault == Answered then Some((true, inserted)) else None;
    }

    method RecordFailedRun(id: RunId, run: Run, state: Option<OperatorState>, row: Fault, stamp: Fault)
      returns (ok: bool)
      modifies this
      ensures View() == FailedRun(old(View()), id, run, state, row, stamp)
      ensures ok == (row == Answered && (state == None || stamp == Answered))
      // the run is written once, and the state only after it and only on an open lane
      ensures rows == old(rows) && runs == if row == NotApplied || id in old(runs) then old(runs)
                                           else old(runs)[id := run]
      ensures cursor == if old(cursor).Some? && state.Some? && row == Answered && stamp != NotApplied
        then Some(old(cursor).value.(operatorState := state)) else old(cursor)
    {
      if row != NotApplied && id !in runs { runs := runs[id := run]; }
      if row != Answered { return false; }
      if state.Some? && stamp != NotApplied && cursor.Some? {
        cursor := Some(cursor.value.(operatorState := state));
      }
      ok := state == None || stamp == Answered;
    }

    method RewindForReorg(owner: Owner, now: int, to: nat, hash: Option<BlockHash>, id: RunId, run: Run, fault: Fault)
      returns (reply: Option<bool>)
      modifies this
      ensures View() == if fault == NotApplied then old(View()) else Rewound(old(View()), owner, now, to, hash, id, run)
      ensures reply == if fault == Answered && old(cursor).Some? then Some(RewindApplies(old(View()), owner, now, to))
        else None
    {
      reply := None;
      if cursor == None || fault == NotApplied { return; }
      var held := cursor.value.lease.Some? && cursor.value.lease.value.owner == owner
        && cursor.value.lease.value.expiresAt > now;
      var moved := held && to < cursor.value.block;
      if moved {
        rows := map launch | launch in rows :: if rows[launch].block > to then rows[launch].(canonical := false)
          else rows[launch];
        cursor := Some(cursor.value.(block := to, hash := hash, operatorState := Some(ReorgRewound)));
        if id !in runs { runs := runs[id := run]; }
      }
      reply := if fault == Answered then Some(moved) else None;
    }
  }
}
