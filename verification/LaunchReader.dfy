/** The bounded range read behind one discovery pass: windows of log requests, kept
    only when every one answers, cut between blocks by the launch budget. */
module LaunchReader {
  import opened Common
  import opened Sorting
  import opened DiscoverStore
  import opened DiscoverProtocol

  /** What the decoder makes of one log. A removed log, or one of another event, is
      passed over before decoding. */
  datatype LogKind = PassedOver | Undecodable | Created
  datatype Log = Log(id: LaunchId, block: nat, place: nat, kind: LogKind)
  datatype Page = NoAnswer | NotAnArray | Logs(logs: seq<Log>)

  datatype Call = HeadCall | LogsCall | AnchorCall
  datatype ReadState = Ok | Silent(call: Call) | WrongShape | Mismatch

  datatype Source = Source(head: Option<nat>, pages: (int, int) -> Page, hashOf: int -> Option<BlockHash>)
  datatype Budget = Budget(maxRange: nat, maxLaunches: nat, confirmations: nat, logWindow: int)

  datatype Reading = Reading(launches: seq<Launch>, next: nat, hash: Option<BlockHash>, state: ReadState,
                             budgetExhausted: bool)

  /** The endpoint answers a window with logs of that window, one launch id is one
      log of one block, and a hash is the hash of the block it was asked for. */
  ghost predicate HonestSource(source: Source, blockOf: LaunchId -> nat) {
    && (forall a, b, i :: source.pages(a, b).Logs? && 0 <= i < |source.pages(a, b).logs| ==>
          a <= source.pages(a, b).logs[i].block <= b
          && source.pages(a, b).logs[i].block == blockOf(source.pages(a, b).logs[i].id))
    && (forall b: nat :: source.hashOf(b).Some? ==> source.hashOf(b).value.number == b)
  }

  // --- the request windows --------------------------------------------------------

  /** Consecutive windows, none empty and none wider than `width`, from `from` to `to`. */
  ghost predicate Tiles(windows: seq<(int, int)>, from: int, to: int, width: int) {
    && (from <= to <==> windows != [])
    && (windows != [] ==> windows[0].0 == from && windows[|windows| - 1].1 == to)
    && (forall i :: 0 <= i < |windows| ==> windows[i].0 <= windows[i].1 < windows[i].0 + width)
    && (forall i :: 0 < i < |windows| ==> windows[i].0 == windows[i - 1].1 + 1)
  }

  method LogWindows(from: int, to: int, logWindow: int) returns (windows: seq<(int, int)>)
    ensures Tiles(windows, from, to, Max(1, logWindow))
  {
    var width := Max(1, logWindow);
    windows := [];
    var start := from;
    while start <= to
      invariant windows == [] ==> start == from
      invariant windows != [] ==> from <= to && Tiles(windows, from, Min(start - 1, to), width)
    {
      windows := windows + [(start, Min(start + width - 1, to))];
      start := start + width;
    }
  }

  lemma {:induction false} TilesAreOrdered(windows: seq<(int, int)>, from: int, to: int, width: int, i: nat, j: nat)
    requires Tiles(windows, from, to, width) && i < j < |windows|
    ensures windows[i].1 < windows[j].0
    decreases j
  {
    if i < j - 1 { TilesAreOrdered(windows, from, to, width, i, j - 1); }
  }

  /** Every block of the range lies in exactly one window. */
  lemma {:induction false} TilesCoverOnce(windows: seq<(int, int)>, from: int, to: int, width: int, b: int)
    returns (i: nat)
    requires Tiles(windows, from, to, width) && from <= b <= to
    ensures i < |windows| && windows[i].0 <= b <= windows[i].1
    ensures forall j :: 0 <= j < |windows| && windows[j].0 <= b <= windows[j].1 ==> j == i
  {
    i := 0;
    while windows[i].1 < b
      invariant i < |windows| && windows[i].0 <= b
      decreases |windows| - i
    {
      i := i + 1;
    }
    forall j | 0 <= j < |windows| && windows[j].0 <= b <= windows[j].1 ensures j == i {
      if j < i { TilesAreOrdered(windows, from, to, width, j, i); }
      if i < j { TilesAreOrdered(windows, from, to, width, i, j); }
    }
  }

  // --- what the answered windows say ------------------------------------------------

  ghost predicate AllAnswered(source: Source, windows: seq<(int, int)>) {
    forall w :: 0 <= w < |windows| ==> source.pages(windows[w].0, windows[w].1).Logs?
  }

  /** Every log the windows were answered with, in the order they were asked. */
  function PageLogs(source: Source, windows: seq<(int, int)>): seq<Log> {
    if windows == [] then []
    else
      var last := windows[|windows| - 1];
      var page := source.pages(last.0, last.1);
      PageLogs(source, windows[..|windows| - 1]) + if page.Logs? then page.logs else []
  }

  lemma {:induction false} PageLogsAreHonest(source: Source, windows: seq<(int, int)>, blockOf: LaunchId -> nat,
                                             from: int, to: int)
    requires HonestSource(source, blockOf)
    requires forall w :: 0 <= w < |windows| ==> from <= windows[w].0 && windows[w].1 <= to
    ensures forall j :: 0 <= j < |PageLogs(source, windows)| ==>
              from <= PageLogs(source, windows)[j].block <= to
              && PageLogs(source, windows)[j].block == blockOf(PageLogs(source, windows)[j].id)
  {
    if windows != [] { PageLogsAreHonest(source, windows[..|windows| - 1], blockOf, from, to); }
  }

  /** Asks every window in turn; one that does not answer fails the whole range. */
  method Gather(source: Source, windows: seq<(int, int)>) returns (logs: seq<Log>, state: ReadState)
    ensures state == Ok <==> AllAnswered(source, windows)
    ensures state == Ok ==> logs == PageLogs(source, windows)
    ensures state == Silent(LogsCall) ==>
      exists w :: 0 <= w < |windows| && source.pages(windows[w].0, windows[w].1).NoAnswer?
    ensures state == WrongShape ==>
      exists w :: 0 <= w < |windows| && source.pages(windows[w].0, windows[w].1).NotAnArray?
    ensures state == Ok || state == Silent(LogsCall) || state == WrongShape
  {
    logs, state := [], Ok;
    for n := 0 to |windows|
      invariant state == Ok && AllAnswered(source, windows[..n]) && logs == PageLogs(source, windows[..n])
    {
      var page := source.pages(windows[n].0, windows[n].1);
      if page.NoAnswer? { return [], Silent(LogsCall); }
      if page.NotAnArray? { return [], WrongShape; }
      logs := logs + page.logs;
      assert windows[..n + 1][..n] == windows[..n] && windows[..n + 1][n] == windows[n];
    }
    assert windows[..|windows|] == windows;
  }

  // --- decoding, block by block --------------------------------------------------------

  predicate LogBefore(a: Log, b: Log) { a.block < b.block || (a.block == b.block && a.place <= b.place) }

  ghost predicate CreatedIn(logs: seq<Log>, l: Launch) {
    exists j :: 0 <= j < |logs| && logs[j].kind == Created && logs[j].id == l.id && logs[j].block == l.block
  }

  function Flat(batches: seq<seq<Launch>>): seq<Launch> {
    if batches == [] then [] else Flat(batches[..|batches| - 1]) + batches[|batches| - 1]
  }

  ghost predicate OneBlock(batch: seq<Launch>) {
    batch != [] && forall m :: 0 <= m < |batch| ==> batch[m].block == batch[0].block
  }

  /** One batch a block, in block order. */
  ghost predicate Batches(batches: seq<seq<Launch>>) {
    && (forall k :: 0 <= k < |batches| ==> OneBlock(batches[k]))
    && (forall k, m :: 0 <= k < m < |batches| ==> batches[k][0].block < batches[m][0].block)
  }

  datatype Decoding = Decoding(batches: seq<seq<Launch>>, seen: set<LaunchId>)

  /** Onto the last batch when it is of the same block, a new batch otherwise. */
  function Appended(batches: seq<seq<Launch>>, l: Launch): seq<seq<Launch>> {
    if batches != [] && batches[|batches| - 1] != [] && batches[|batches| - 1][0].block == l.block
    then batches[|batches| - 1 := batches[|batches| - 1] + [l]]
    else batches + [[l]]
  }

  function DecodeOne(d: Decoding, log: Log): Decoding {
    if log.kind == Created && log.id !in d.seen
    then Decoding(Appended(d.batches, Launch(log.id, log.block)), d.seen + {log.id})
    else d
  }

  function DecodeAll(logs: seq<Log>): Decoding {
    if logs == [] then Decoding([], {}) else DecodeOne(DecodeAll(logs[..|logs| - 1]), logs[|logs| - 1])
  }

  /** Groups the created logs of a sorted range by block, each launch id once; an
      undecodable one anywhere stops the read. */
  method Decode(logs: seq<Log>) returns (batches: seq<seq<Launch>>, mismatch: bool)
    ensures mismatch <==> exists j :: 0 <= j < |logs| && logs[j].kind == Undecodable
    ensures !mismatch ==> batches == DecodeAll(logs).batches
  {
    batches, mismatch := [], false;
    var seen: set<LaunchId> := {};
    for n := 0 to |logs|
      invariant forall j :: 0 <= j < n ==> logs[j].kind != Undecodable
      invariant DecodeAll(logs[..n]) == Decoding(batches, seen)
    {
      var log := logs[n];
      assert logs[..n + 1][..n] == logs[..n] && logs[..n + 1][n] == log;
      if log.kind == Undecodable { return batches, true; }
      if log.kind == Created && log.id !in seen {
        batches := Appended(batches, Launch(log.id, log.block));
        seen := seen + {log.id};
      }
    }
    assert logs[..|logs|] == logs;
  }

  ghost predicate BlockSorted(logs: seq<Log>) {
    forall i, j :: 0 <= i < j < |logs| ==> logs[i].block <= logs[j].block
  }

  /** One launch id is one log of one block. */
  ghost predicate OneLogAnId(logs: seq<Log>, blockOf: LaunchId -> nat) {
    forall j :: 0 <= j < |logs| ==> logs[j].block == blockOf(logs[j].id)
  }

  ghost predicate EndsBy(batches: seq<seq<Launch>>, block: nat) {
    batches != [] ==> batches[|batches| - 1] != [] && batches[|batches| - 1][0].block <= block
  }

  /** The batches hold every created log exactly once. */
  ghost predicate Decoded(logs: seq<Log>, blockOf: LaunchId -> nat, d: Decoding) {
    && Batches(d.batches) && Distinct(Flat(d.batches))
    && (forall l :: l in Flat(d.batches) <==> CreatedIn(logs, l))
    && (forall id :: id in d.seen <==> CreatedIn(logs, Launch(id, blockOf(id))))
  }

  lemma AppendedMeaning(batches: seq<seq<Launch>>, l: Launch)
    requires Batches(batches) && EndsBy(batches, l.block)
    ensures Flat(Appended(batches, l)) == Flat(batches) + [l]
    ensures Batches(Appended(batches, l)) && EndsBy(Appended(batches, l), l.block)
  {
    var after := Appended(batches, l);
    if batches != [] && batches[|batches| - 1][0].block == l.block {
      assert after[..|after| - 1] == batches[..|batches| - 1];
    } else {
      assert after[..|after| - 1] == batches;
    }
    forall k, m | 0 <= k < m < |after| ensures after[k][0].block < after[m][0].block {
      if k < |batches| - 1 { assert batches[k][0].block < batches[|batches| - 1][0].block; }
    }
  }

  lemma DecodeOneMeaning(logs: seq<Log>, log: Log, blockOf: LaunchId -> nat, d: Decoding)
    requires Decoded(logs, blockOf, d) && log.block == blockOf(log.id) && EndsBy(d.batches, log.block)
    requires forall l :: CreatedIn(logs, l) ==> l.block == blockOf(l.id)
    ensures Decoded(logs + [log], blockOf, DecodeOne(d, log)) && EndsBy(DecodeOne(d, log).batches, log.block)
  {
    CreatedSnoc(logs, log);
    if log.kind == Created && log.id !in d.seen {
      NewLaunchDecoded(logs, log, blockOf, d);
    }
  }

  lemma NewLaunchDecoded(logs: seq<Log>, log: Log, blockOf: LaunchId -> nat, d: Decoding)
    requires Decoded(logs, blockOf, d) && log.block == blockOf(log.id) && EndsBy(d.batches, log.block)
    requires log.kind == Created && log.id !in d.seen
    requires forall l :: CreatedIn(logs + [log], l) <==> CreatedIn(logs, l) || l == Launch(log.id, log.block)
    ensures Decoded(logs + [log], blockOf, DecodeOne(d, log)) && EndsBy(DecodeOne(d, log).batches, log.block)
  {
    var l := Launch(log.id, log.block);
    AppendedMeaning(d.batches, l);
    assert l !in Flat(d.batches);
  }

  lemma {:induction false} DecodeAllMeaning(logs: seq<Log>, blockOf: LaunchId -> nat)
    requires BlockSorted(logs) && OneLogAnId(logs, blockOf)
    ensures Decoded(logs, blockOf, DecodeAll(logs))
    ensures logs != [] ==> EndsBy(DecodeAll(logs).batches, logs[|logs| - 1].block)
  {
    if logs == [] {
      assert Flat([]) == [];
    } else {
      var front, log := logs[..|logs| - 1], logs[|logs| - 1];
      assert BlockSorted(front) && OneLogAnId(front, blockOf);
      DecodeAllMeaning(front, blockOf);
      assert front + [log] == logs;
      CreatedAreConsistent(front, blockOf);
      EndsByLater(front, log);
      DecodeOneMeaning(front, log, blockOf, DecodeAll(front));
    }
  }

  lemma {:induction false} EndsByLater(front: seq<Log>, log: Log)
    requires BlockSorted(front + [log])
    requires front != [] ==> EndsBy(DecodeAll(front).batches, front[|front| - 1].block)
    ensures EndsBy(DecodeAll(front).batches, log.block)
  {
    if front != [] {
      var all := front + [log];
      assert all[|front| - 1].block <= all[|front|].block;
    }
  }

  lemma CreatedAreConsistent(logs: seq<Log>, blockOf: LaunchId -> nat)
    requires OneLogAnId(logs, blockOf)
    ensures forall l :: CreatedIn(logs, l) ==> l.block == blockOf(l.id)
  {
  }

  lemma CreatedSnoc(logs: seq<Log>, log: Log)
    ensures forall l :: CreatedIn(logs + [log], l) <==>
              CreatedIn(logs, l) || (log.kind == Created && l == Launch(log.id, log.block))
  {
    forall l ensures CreatedIn(logs + [log], l) <==>
              CreatedIn(logs, l) || (log.kind == Created && l == Launch(log.id, log.block))
    {
      if CreatedIn(logs, l) {
        var j :| 0 <= j < |logs| && logs[j].kind == Created && logs[j].id == l.id && logs[j].block == l.block;
        assert (logs + [log])[j] == logs[j];
      }
      if log.kind == Created && l == Launch(log.id, log.block) {
        assert (logs + [log])[|logs|] == log;
      }
    }
  }

  // --- the order launches come in ------------------------------------------------------------

  /** Of two kept launches the earlier one has a log before one of the other's: by block,
      and within a block by place. */
  ghost predicate CameBefore(logs: seq<Log>, a: Launch, b: Launch) {
    exists x, y ::
      && x in logs && y in logs && x.kind == Created && y.kind == Created
      && Launch(x.id, x.block) == a && Launch(y.id, y.block) == b
      && (x.block < y.block || (x.block == y.block && x.place <= y.place))
  }

  ghost predicate InLogOrder(logs: seq<Log>, launches: seq<Launch>) {
    forall a, b :: 0 <= a < b < |launches| ==> CameBefore(logs, launches[a], launches[b])
  }

  lemma {:induction false} DecodedInLogOrder(logs: seq<Log>, blockOf: LaunchId -> nat)
    requires SortedBy(logs, LogBefore) && OneLogAnId(logs, blockOf)
    ensures InLogOrder(logs, Flat(DecodeAll(logs).batches))
  {
    if logs == [] {
      assert Flat([]) == [];
    } else {
      var front, log := logs[..|logs| - 1], logs[|logs| - 1];
      DecodedInLogOrder(front, blockOf);
      LastInLogOrder(front, log, blockOf);
      assert front + [log] == logs;
    }
  }

  lemma LastInLogOrder(front: seq<Log>, log: Log, blockOf: LaunchId -> nat)
    requires SortedBy(front + [log], LogBefore) && OneLogAnId(front + [log], blockOf)
    requires InLogOrder(front, Flat(DecodeAll(front).batches))
    ensures InLogOrder(front + [log], Flat(DecodeAll(front + [log]).batches))
  {
    var logs, d := front + [log], DecodeAll(front);
    var kept, after := Flat(d.batches), Flat(DecodeAll(logs).batches);
    assert logs[..|front|] == front && logs[|front|] == log;
    FrontIsDecoded(front, log, blockOf);
    forall a, b | 0 <= a < b < |after| ensures CameBefore(logs, after[a], after[b]) {
      if b < |kept| {
        assert CameBefore(front, kept[a], kept[b]);
      } else {
        assert kept[a] in kept;
        BeforeTheLast(front, log, kept[a]);
      }
    }
  }

  lemma BeforeTheLast(front: seq<Log>, log: Log, l: Launch)
    requires SortedBy(front + [log], LogBefore) && CreatedIn(front, l) && log.kind == Created
    ensures CameBefore(front + [log], l, Launch(log.id, log.block))
  {
    var logs := front + [log];
    var j :| 0 <= j < |front| && front[j].kind == Created && front[j].id == l.id && front[j].block == l.block;
    assert logs[j] == front[j] && logs[|front|] == log && LogBefore(logs[j], logs[|front|]);
  }

  /** What one more log does to the launches kept. */
  lemma FrontIsDecoded(front: seq<Log>, log: Log, blockOf: LaunchId -> nat)
    requires SortedBy(front + [log], LogBefore) && OneLogAnId(front + [log], blockOf)
    ensures forall l :: l in Flat(DecodeAll(front).batches) <==> CreatedIn(front, l)
    ensures var kept, after := Flat(DecodeAll(front).batches), Flat(DecodeOne(DecodeAll(front), log).batches);
            after == kept || (log.kind == Created && after == kept + [Launch(log.id, log.block)])
  {
    var logs := front + [log];
    assert forall i :: 0 <= i < |front| ==> logs[i] == front[i];
    assert logs[|front|] == log;
    DecodeAllMeaning(front, blockOf);
    EndsByLater(front, log);
    if log.kind == Created && log.id !in DecodeAll(front).seen {
      AppendedMeaning(DecodeAll(front).batches, Launch(log.id, log.block));
    }
  }

  // --- the launch budget -----------------------------------------------------------------

  lemma {:induction false} FlatMembers(batches: seq<seq<Launch>>, l: Launch)
    ensures l in Flat(batches) <==> exists k :: 0 <= k < |batches| && l in batches[k]
  {
    if batches != [] {
      var front := batches[..|batches| - 1];
      FlatMembers(front, l);
      if l in Flat(front) {
        var k :| 0 <= k < |front| && l in front[k];
        assert batches[k] == front[k];
      }
      if exists k :: 0 <= k < |batches| && l in batches[k] {
        var k :| 0 <= k < |batches| && l in batches[k];
        if k < |front| { assert l in front[k]; }
      }
    }
  }

  lemma {:induction false} FlatAppend(a: seq<seq<Launch>>, b: seq<seq<Launch>>)
    ensures Flat(a + b) == Flat(a) + Flat(b)
  {
    if b == [] {
      assert a + b == a;
    } else {
      var front, last := b[..|b| - 1], b[|b| - 1];
      FlatAppend(a, front);
      assert (a + b)[..|a + b| - 1] == a + front;
    }
  }

  /** Batches whose first launch is on the right side of a block are there whole. */
  lemma {:induction false} BatchesAbove(batches: seq<seq<Launch>>, last: int)
    requires AllAbove(batches, last)
    ensures forall l :: l in Flat(batches) ==> last < l.block
  {
    forall l | l in Flat(batches) ensures last < l.block {
      FlatMembers(batches, l);
      var k :| 0 <= k < |batches| && l in batches[k];
      var m :| 0 <= m < |batches[k]| && batches[k][m] == l;
    }
  }

  lemma {:induction false} BatchesBelow(batches: seq<seq<Launch>>, last: int)
    requires AllBelow(batches, last)
    ensures forall l :: l in Flat(batches) ==> l.block <= last
  {
    forall l | l in Flat(batches) ensures l.block <= last {
      FlatMembers(batches, l);
      var k :| 0 <= k < |batches| && l in batches[k];
      var m :| 0 <= m < |batches[k]| && batches[k][m] == l;
    }
  }

  ghost predicate AllBelow(batches: seq<seq<Launch>>, last: int) {
    forall k :: 0 <= k < |batches| ==> OneBlock(batches[k]) && batches[k][0].block <= last
  }

  ghost predicate AllAbove(batches: seq<seq<Launch>>, last: int) {
    forall k :: 0 <= k < |batches| ==> OneBlock(batches[k]) && last < batches[k][0].block
  }

  /** `a` holds the launches of `all` at or below a block. */
  ghost predicate CutAt(a: seq<seq<Launch>>, all: seq<seq<Launch>>, last: int) {
    forall l :: l in Flat(a) <==> l in Flat(all) && l.block <= last
  }

  lemma SplitsAt(batches: seq<seq<Launch>>, i: nat, last: int)
    requires Batches(batches) && i <= |batches|
    requires i > 0 ==> batches[i - 1][0].block <= last
    requires i < |batches| ==> last < batches[i][0].block
    ensures AllBelow(batches[..i], last) && AllAbove(batches[i..], last)
  {
  }

  lemma FlatSplit(a: seq<seq<Launch>>, b: seq<seq<Launch>>, last: int)
    requires AllBelow(a, last) && AllAbove(b, last)
    ensures CutAt(a, a + b, last)
  {
    FlatAppend(a, b);
    BatchesBelow(a, last);
    BatchesAbove(b, last);
  }

  /** The launches of the first `i` blocks are those at or below any block before
      the next batch. */
  lemma FlatPrefix(batches: seq<seq<Launch>>, i: nat, last: int)
    requires Batches(batches) && i <= |batches|
    requires i > 0 ==> batches[i - 1][0].block <= last
    requires i < |batches| ==> last < batches[i][0].block
    ensures CutAt(batches[..i], batches, last)
  {
    SplitsAt(batches, i, last);
    assert batches[..i] + batches[i..] == batches;
    FlatSplit(batches[..i], batches[i..], last);
  }

  lemma FlatNext(batches: seq<seq<Launch>>, i: nat)
    requires i < |batches|
    ensures Flat(batches[..i + 1]) == Flat(batches[..i]) + batches[i]
  {
    assert batches[..i + 1][..i] == batches[..i];
  }

  lemma {:induction false} DistinctPrefix(batches: seq<seq<Launch>>, i: nat)
    requires i <= |batches| && Distinct(Flat(batches))
    ensures Distinct(Flat(batches[..i]))
    decreases |batches| - i
  {
    if i < |batches| {
      DistinctPrefix(batches, i + 1);
      FlatNext(batches, i);
      var a, b := Flat(batches[..i]), batches[i];
      assert forall k :: 0 <= k < |a| ==> (a + b)[k] == a[k];
    } else {
      assert batches[..i] == batches;
    }
  }

  /** The launches the logs create at or below a block. */
  ghost function CreatedBy(logs: seq<Log>, block: int): set<Launch> {
    set j | 0 <= j < |logs| && logs[j].kind == Created && logs[j].block <= block :: Launch(logs[j].id, logs[j].block)
  }

  /** The read stops at `stop`: at the end of its range, or where it has launches and any
      longer range either holds more than the budget or follows a spent one. */
  ghost predicate AsFarAsTheBudget(logs: seq<Log>, maxLaunches: nat, to: int, stop: int) {
    && stop <= to
    && (stop < to ==> CreatedBy(logs, stop) != {} && CreatedBy(logs, stop) != CreatedBy(logs, to))
    && forall b :: stop < b <= to ==> |CreatedBy(logs, b)| > maxLaunches || |CreatedBy(logs, stop)| >= maxLaunches
  }

  lemma CreatedByIsFlat(logs: seq<Log>, batches: seq<seq<Launch>>, i: nat, block: int)
    requires Batches(batches) && i <= |batches| && Distinct(Flat(batches))
    requires forall l :: l in Flat(batches) <==> CreatedIn(logs, l)
    requires i > 0 ==> batches[i - 1][0].block <= block
    requires i < |batches| ==> block < batches[i][0].block
    ensures |CreatedBy(logs, block)| == |Flat(batches[..i])|
    ensures forall l :: l in CreatedBy(logs, block) <==> l in Flat(batches[..i])
  {
    FlatPrefix(batches, i, block);
    DistinctPrefix(batches, i);
    forall l ensures l in CreatedBy(logs, block) <==> l in Flat(batches[..i]) {
      assert l in CreatedBy(logs, block) <==> CreatedIn(logs, l) && l.block <= block;
    }
    SizeOf(Flat(batches[..i]), CreatedBy(logs, block));
  }

  /** How many batches lie at or below a block. */
  lemma {:induction false} BatchesUpTo(batches: seq<seq<Launch>>, block: int) returns (i: nat)
    requires Batches(batches)
    ensures i <= |batches| && (i > 0 ==> batches[i - 1][0].block <= block)
    ensures i < |batches| ==> block < batches[i][0].block
  {
    i := 0;
    while i < |batches| && batches[i][0].block <= block
      invariant i <= |batches| && (i > 0 ==> batches[i - 1][0].block <= block)
    {
      i := i + 1;
    }
  }

  lemma {:induction false} FlatGrows(batches: seq<seq<Launch>>, i: nat, j: nat)
    requires i <= j <= |batches|
    ensures |Flat(batches[..i])| <= |Flat(batches[..j])|
    decreases j
  {
    if i < j {
      FlatGrows(batches, i, j - 1);
      FlatNext(batches, j - 1);
    }
  }

  /** The first `taken` batches and no more, up to block `last`: a batch is left only where
      it would pass the budget, and the block before it is the last unless the budget is spent. */
  ghost predicate TakesWhole(batches: seq<seq<Launch>>, maxLaunches: nat, to: int, taken: nat, last: int)
    requires Batches(batches)
  {
    && taken <= |batches| && last <= to && (batches != [] ==> taken > 0) && (last < to <==> taken < |batches|)
    && (taken > 0 ==> batches[taken - 1][0].block <= last)
    && (taken < |batches| ==>
          && last < batches[taken][0].block && |Flat(batches[..taken + 1])| > maxLaunches
          && (|Flat(batches[..taken])| >= maxLaunches || last + 1 == batches[taken][0].block))
  }

  lemma LongerPassesTheBudget(logs: seq<Log>, batches: seq<seq<Launch>>, maxLaunches: nat, to: int, taken: nat,
                              last: int, b: int)
    requires Batches(batches) && Distinct(Flat(batches)) && forall l :: l in Flat(batches) <==> CreatedIn(logs, l)
    requires TakesWhole(batches, maxLaunches, to, taken, last) && last < b <= to
    ensures |CreatedBy(logs, b)| > maxLaunches || |Flat(batches[..taken])| >= maxLaunches
  {
    var i := BatchesUpTo(batches, b);
    CreatedByIsFlat(logs, batches, i, b);
    if i > taken { FlatGrows(batches, taken + 1, i); }
  }

  lemma SomeLeft(logs: seq<Log>, batches: seq<seq<Launch>>, taken: nat, last: int, to: int)
    requires Batches(batches) && taken < |batches| && last < batches[taken][0].block <= to
    requires forall l :: l in Flat(batches) <==> CreatedIn(logs, l)
    ensures CreatedBy(logs, last) != CreatedBy(logs, to)
  {
    var l := batches[taken][0];
    assert l in batches[taken];
    FlatMembers(batches, l);
    assert l !in CreatedBy(logs, last) && l in CreatedBy(logs, to);
  }

  lemma TakenIsAsFar(logs: seq<Log>, batches: seq<seq<Launch>>, maxLaunches: nat, to: int, taken: nat, last: int)
    requires Batches(batches) && Distinct(Flat(batches)) && forall l :: l in Flat(batches) <==> CreatedIn(logs, l)
    requires forall k :: 0 <= k < |batches| ==> batches[k][0].block <= to
    requires TakesWhole(batches, maxLaunches, to, taken, last)
    ensures AsFarAsTheBudget(logs, maxLaunches, to, last)
  {
    CreatedByIsFlat(logs, batches, taken, last);
    forall b | last < b <= to ensures |CreatedBy(logs, b)| > maxLaunches || |CreatedBy(logs, last)| >= maxLaunches {
      LongerPassesTheBudget(logs, batches, maxLaunches, to, taken, last, b);
    }
    if last < to {
      FirstTaken(batches, taken);
      SomeLeft(logs, batches, taken, last, to);
    }
  }

  lemma FirstTaken(batches: seq<seq<Launch>>, taken: nat)
    requires Batches(batches) && 0 < taken <= |batches|
    ensures Flat(batches[..taken]) != []
  {
    FlatNext(batches, taken - 1);
  }

  /** Takes whole blocks while they fit: how many, and the last block finished. */
  method TakeWhole(batches: seq<seq<Launch>>, maxLaunches: nat, to: int)
    returns (launches: seq<Launch>, last: int, truncated: bool, ghost taken: nat)
    requires Batches(batches) && forall k :: 0 <= k < |batches| ==> batches[k][0].block <= to
    ensures TakesWhole(batches, maxLaunches, to, taken, last) && launches == Flat(batches[..taken])
    ensures batches != [] ==> batches[0][0].block <= last
    ensures truncated <==> last < to
    ensures |launches| <= maxLaunches || taken == 1
  {
    launches, last, truncated, taken := [], to, false, 0;
    for i := 0 to |batches|
      invariant launches == Flat(batches[..i]) && taken == i && last == to && !truncated
      invariant i == 0 ==> launches == []
      invariant i > 0 ==> launches != []
      invariant i > 1 ==> |launches| <= maxLaunches
      invariant i == 1 && |batches| > 1 ==> |launches| < maxLaunches
    {
      FlatNext(batches, i);
      var block := batches[i][0].block;
      if |launches| > 0 && |launches| + |batches[i]| > maxLaunches {
        last, truncated := block - 1, true;
        return;
      }
      launches := launches + batches[i];
      taken := i + 1;
      if |launches| >= maxLaunches && i + 1 < |batches| {
        FlatNext(batches, i + 1);
        last, truncated := block, true;
        return;
      }
    }
    assert batches[..|batches|] == batches;
  }

  // --- the reader -------------------------------------------------------------------------

  /** What a read that made progress kept: exactly what the answered windows said
      about the blocks up to the new cursor, each launch once, nothing undecodable. */
  ghost predicate KeptExactly(r: Reading, cursor: nat, logs: seq<Log>) {
    && ReadContract(cursor, r.launches, r.next) && Distinct(r.launches)
    && (forall j :: 0 <= j < |logs| ==> logs[j].kind != Undecodable)
    && (forall l :: l in r.launches <==> CreatedIn(logs, l) && l.block <= r.next)
    && InLogOrder(logs, r.launches)
    && r.hash.Some? && r.hash.value.number == r.next
  }

  /** From the answered windows to the launches kept and the new cursor. */
  method Keep(source: Source, cursor: nat, cursorHash: Option<BlockHash>, maxLaunches: nat, to: int, confirmed: int,
              logs: seq<Log>, ghost blockOf: LaunchId -> nat) returns (r: Reading, ghost stop: int)
    requires HonestSource(source, blockOf) && OneLogAnId(logs, blockOf)
    requires forall j :: 0 <= j < |logs| ==> cursor < logs[j].block <= to
    ensures SomeUndecodable(logs) ==> r == Reading([], cursor, cursorHash, Mismatch, false)
    ensures !SomeUndecodable(logs) ==> AsFarAsTheBudget(logs, maxLaunches, to, stop)
    ensures !SomeUndecodable(logs) ==>
      if stop <= cursor then r == Reading([], cursor, cursorHash, Ok, true)
      else if source.hashOf(stop) == None then r == Reading([], cursor, cursorHash, Silent(AnchorCall), false)
      else
        && r.state == Ok && r.next == stop && KeptExactly(r, cursor, logs) && r.hash == source.hashOf(stop)
        && (r.budgetExhausted <==> to < confirmed || stop < to)
    ensures |r.launches| <= maxLaunches || OneBlock(r.launches)
  {
    var stay := Reading([], cursor, cursorHash, Ok, false);
    stop := cursor;
    var sorted := Sort(logs, LogBefore);
    SortedRange(logs, sorted, blockOf, cursor, to);
    SortedLogs(logs, sorted);
    var batches: seq<seq<Launch>>, mismatch: bool := Decode(sorted);
    if mismatch { r := stay.(state := Mismatch); return; }
    DecodeAllMeaning(sorted, blockOf);
    BatchesInRange(sorted, batches, cursor, to);
    var launches, last, truncated, taken := TakeWhole(batches, maxLaunches, to);
    stop := last;
    TakenIsAsFar(logs, batches, maxLaunches, to, taken, last);
    if last <= cursor { r := stay.(budgetExhausted := true); return; }
    var anchor := source.hashOf(last);
    if anchor == None { r := stay.(state := Silent(AnchorCall)); return; }
    r := Reading(launches, last, anchor, Ok, to < confirmed || truncated);
    KeptPrefix(logs, batches, taken, r, cursor);
    KeptInOrder(logs, sorted, blockOf, batches, taken);
    if taken == 1 { FirstBatchAlone(batches); }
  }

  lemma KeptInOrder(logs: seq<Log>, sorted: seq<Log>, blockOf: LaunchId -> nat, batches: seq<seq<Launch>>, taken: nat)
    requires sorted == Sort(logs, LogBefore) && OneLogAnId(logs, blockOf)
    requires batches == DecodeAll(sorted).batches && taken <= |batches|
    ensures InLogOrder(logs, Flat(batches[..taken]))
  {
    SortSorted(logs, LogBefore);
    SortedLogs(logs, sorted);
    forall j | 0 <= j < |sorted| ensures sorted[j].block == blockOf(sorted[j].id) { assert sorted[j] in logs; }
    DecodedInLogOrder(sorted, blockOf);
    var kept, all := Flat(batches[..taken]), Flat(batches);
    assert batches == batches[..taken] + batches[taken..];
    FlatAppend(batches[..taken], batches[taken..]);
    forall a, b | 0 <= a < b < |kept| ensures CameBefore(logs, kept[a], kept[b]) {
      assert CameBefore(sorted, all[a], all[b]);
    }
  }

  lemma SortedRange(logs: seq<Log>, sorted: seq<Log>, blockOf: LaunchId -> nat, cursor: nat, to: int)
    requires sorted == Sort(logs, LogBefore) && OneLogAnId(logs, blockOf)
    requires forall j :: 0 <= j < |logs| ==> cursor < logs[j].block <= to
    ensures BlockSorted(sorted) && OneLogAnId(sorted, blockOf)
    ensures forall j :: 0 <= j < |sorted| ==> cursor < sorted[j].block <= to
  {
    SortSorted(logs, LogBefore);
    SortedLogs(logs, sorted);
    forall j | 0 <= j < |sorted| ensures cursor < sorted[j].block <= to && sorted[j].block == blockOf(sorted[j].id) {
      assert sorted[j] in logs;
    }
  }

  lemma FirstBatchAlone(batches: seq<seq<Launch>>)
    requires batches != []
    ensures Flat(batches[..1]) == batches[0]
  {
    assert batches[..1] == [batches[0]] && Flat([batches[0]][..0]) == [];
  }

  lemma KeptPrefix(logs: seq<Log>, batches: seq<seq<Launch>>, taken: nat, r: Reading, cursor: nat)
    requires Batches(batches) && Distinct(Flat(batches)) && forall l :: l in Flat(batches) <==> CreatedIn(logs, l)
    requires forall l :: l in Flat(batches) ==> cursor < l.block
    requires taken <= |batches| && r.launches == Flat(batches[..taken]) && cursor < r.next
    requires taken > 0 ==> batches[taken - 1][0].block <= r.next
    requires taken < |batches| ==> r.next < batches[taken][0].block
    ensures ReadContract(cursor, r.launches, r.next) && Distinct(r.launches)
    ensures forall l :: l in r.launches <==> CreatedIn(logs, l) && l.block <= r.next
  {
    FlatPrefix(batches, taken, r.next);
    DistinctPrefix(batches, taken);
    forall i | 0 <= i < |r.launches| ensures cursor < r.launches[i].block <= r.next {
      assert r.launches[i] in Flat(batches);
    }
  }

  lemma BatchesInRange(sorted: seq<Log>, batches: seq<seq<Launch>>, cursor: nat, to: int)
    requires Batches(batches) && forall l :: l in Flat(batches) <==> CreatedIn(sorted, l)
    requires forall j :: 0 <= j < |sorted| ==> cursor < sorted[j].block <= to
    ensures forall l :: l in Flat(batches) ==> cursor < l.block <= to
    ensures forall k :: 0 <= k < |batches| ==> cursor < batches[k][0].block <= to
  {
    forall k | 0 <= k < |batches| ensures cursor < batches[k][0].block <= to {
      assert batches[k][0] in batches[k];
      FlatMembers(batches, batches[k][0]);
    }
  }

  /** What one bounded read comes to. */
  ghost predicate Reads(source: Source, cursor: nat, cursorHash: Option<BlockHash>, budget: Budget, r: Reading,
                        windows: seq<(int, int)>, to: int, stop: int)
  {
    // without a head it is refused; with no confirmed block ahead it stands still
    if source.head == None then r == Reading([], cursor, cursorHash, Silent(HeadCall), false)
    else
      var confirmed := source.head.value - budget.confirmations;
      if confirmed <= cursor then r == Reading([], cursor, cursorHash, Ok, false)
      else
        // the range is as wide as it may be, and asked for whole
        && to == Min(confirmed, cursor + budget.maxRange)
        && Tiles(windows, cursor + 1, to, Max(1, budget.logWindow))
        // a window that does not answer, or a log that cannot be decoded, refuses all of it
        && (!AllAnswered(source, windows) ==>
              r == Reading([], cursor, cursorHash, r.state, false) && r.state in {Silent(LogsCall), WrongShape})
        && (AllAnswered(source, windows) && SomeUndecodable(PageLogs(source, windows)) ==>
              r == Reading([], cursor, cursorHash, Mismatch, false))
        // else it goes as far as the budget does, if the block it stops at has a hash
        && (AllAnswered(source, windows) && !SomeUndecodable(PageLogs(source, windows)) ==>
              && AsFarAsTheBudget(PageLogs(source, windows), budget.maxLaunches, to, stop)
              && if stop <= cursor then r == Reading([], cursor, cursorHash, Ok, true)
                 else if source.hashOf(stop) == None
                 then r == Reading([], cursor, cursorHash, Silent(AnchorCall), false)
                 else
                   && r.state == Ok && r.next == stop && KeptExactly(r, cursor, PageLogs(source, windows))
                   && r.hash == source.hashOf(stop) && (r.budgetExhausted <==> stop < confirmed))
  }

  ghost predicate SomeUndecodable(logs: seq<Log>) { exists j :: 0 <= j < |logs| && logs[j].kind == Undecodable }

  /** Any refusal leaves the cursor where it was and keeps nothing; progress means every
      window answered, and what is kept is exactly what they said up to the new cursor. */
  lemma ReadsMeaning(source: Source, cursor: nat, cursorHash: Option<BlockHash>, budget: Budget, r: Reading,
                     windows: seq<(int, int)>, to: int, stop: int)
    requires Reads(source, cursor, cursorHash, budget, r, windows, to, stop)
    ensures r.next == cursor ==> r.launches == [] && r.hash == cursorHash
    ensures r.state != Ok ==> r.next == cursor
    ensures r.next != cursor ==>
              && AllAnswered(source, windows) && cursor < r.next <= to
              && KeptExactly(r, cursor, PageLogs(source, windows))
  {
  }

  /** One bounded pass over the blocks behind the cursor. */
  method ReadLaunches(source: Source, cursor: nat, cursorHash: Option<BlockHash>, budget: Budget,
                      ghost blockOf: LaunchId -> nat)
    returns (r: Reading, ghost windows: seq<(int, int)>, ghost to: int, ghost stop: int)
    requires HonestSource(source, blockOf)
    ensures Reads(source, cursor, cursorHash, budget, r, windows, to, stop)
    // the budget only ever stops between blocks
    ensures |r.launches| <= budget.maxLaunches || OneBlock(r.launches)
  {
    var stay := Reading([], cursor, cursorHash, Ok, false);
    windows, to, stop := [], 0, cursor;
    if source.head == None { r := stay.(state := Silent(HeadCall)); return; }
    var confirmed := source.head.value - budget.confirmations;
    var from := cursor + 1;
    if confirmed < from { r := stay; return; }
    var last := Min(confirmed, from + budget.maxRange - 1);
    to := last;
    var asked := LogWindows(from, last, budget.logWindow);
    windows := asked;
    var logs, state := Gather(source, asked);
    if state != Ok { r := stay.(state := state); return; }
    TilesStayInside(asked, from, to, Max(1, budget.logWindow));
    PageLogsAreHonest(source, asked, blockOf, from, to);
    r, stop := Keep(source, cursor, cursorHash, budget.maxLaunches, last, confirmed, logs, blockOf);
  }

  lemma TilesStayInside(windows: seq<(int, int)>, from: int, to: int, width: int)
    requires Tiles(windows, from, to, width)
    ensures forall w :: 0 <= w < |windows| ==> from <= windows[w].0 && windows[w].1 <= to
  {
    forall w | 0 <= w < |windows| ensures from <= windows[w].0 && windows[w].1 <= to {
      if w > 0 { TilesAreOrdered(windows, from, to, width, 0, w); }
      if w < |windows| - 1 { TilesAreOrdered(windows, from, to, width, w, |windows| - 1); }
    }
  }

  lemma SortedLogs(logs: seq<Log>, sorted: seq<Log>)
    requires sorted == Sort(logs, LogBefore)
    ensures forall log :: log in sorted <==> log in logs
    ensures forall l :: CreatedIn(sorted, l) <==> CreatedIn(logs, l)
    ensures (forall j :: 0 <= j < |sorted| ==> sorted[j].kind != Undecodable) <==>
      (forall j :: 0 <= j < |logs| ==> logs[j].kind != Undecodable)
  {
    SameMembers(logs, sorted);
    forall l ensures CreatedIn(sorted, l) <==> CreatedIn(logs, l) {
      CreatedTransfers(sorted, logs, l);
      CreatedTransfers(logs, sorted, l);
    }
    forall j | 0 <= j < |sorted| ensures sorted[j] in logs {}
    forall j | 0 <= j < |logs| ensures logs[j] in sorted {}
  }

  lemma SameMembers(logs: seq<Log>, sorted: seq<Log>)
    requires sorted == Sort(logs, LogBefore)
    ensures forall log :: log in sorted <==> log in logs
  {
    forall log ensures log in sorted <==> log in logs { SortMembers(logs, LogBefore, log); }
  }

  lemma CreatedTransfers(a: seq<Log>, b: seq<Log>, l: Launch)
    requires forall log :: log in a ==> log in b
    ensures CreatedIn(a, l) ==> CreatedIn(b, l)
  {
    if CreatedIn(a, l) {
      var j :| 0 <= j < |a| && a[j].kind == Created && a[j].id == l.id && a[j].block == l.block;
      assert a[j] in b;
    }
  }
}
