/** The search for one token's creation log, backwards from the head in windows that
    shrink when the endpoint refuses them. */
module BackwardScan {
  import opened Common

  type Log = nat

  /** A range the endpoint refuses, or its answer; an answer that is not a list counts
      as no logs. */
  datatype Reply = Refuses | Answers(logs: seq<Log>)

  /** One request that was answered, and how many had been refused: before any for its
      block, and by the time it was answered. */
  datatype Asked = Asked(begin: int, end: int, found: bool, before: nat, refusals: nat)

  /** The width asked for after so many refusals: a tenth each time. */
  function Tenths(width: nat, refusals: nat): nat { if refusals == 0 then width else Tenths(width, refusals - 1) / 10 }

  /** Where the window ending at `end` begins after so many refusals. */
  function Lowest(end: int, from: int, width: nat, refusals: nat): int { Max(end - Tenths(width, refusals) + 1, from) }

  /** Answered windows, newest first, each meeting the one before it and asked for no wider. */
  ghost predicate Chained(windows: seq<Asked>, to: int) {
    && (windows != [] ==> windows[0].end == to && windows[0].before == 0)
    && (forall i :: 0 <= i < |windows| ==> windows[i].begin <= windows[i].end)
    && (forall i, j :: 0 <= i < j < |windows| && j == i + 1 ==>
          windows[j].end == windows[i].begin - 1 && windows[i].refusals == windows[j].before <= windows[j].refusals)
  }

  /** The highest block no window has read. */
  function Unread(windows: seq<Asked>, to: int): int { if windows == [] then to else windows[|windows| - 1].begin - 1 }

  function Narrowed(windows: seq<Asked>): nat { if windows == [] then 0 else windows[|windows| - 1].refusals }

  ghost predicate InWindow(w: Asked, block: int) { w.begin <= block <= w.end }

  lemma {:induction false} LaterIsLower(windows: seq<Asked>, to: int, i: nat, j: nat)
    requires Chained(windows, to) && i < j < |windows|
    ensures windows[j].end < windows[i].begin
    decreases j
  {
    if i < j - 1 { LaterIsLower(windows, to, i, j - 1); }
  }

  /** The windows cover every block from the last one's beginning up to `to`, each
      exactly once. */
  lemma {:induction false} CoveredOnce(windows: seq<Asked>, to: int, block: int) returns (i: nat)
    requires Chained(windows, to) && windows != [] && windows[|windows| - 1].begin <= block <= to
    ensures i < |windows| && InWindow(windows[i], block)
    ensures forall j :: 0 <= j < |windows| && InWindow(windows[j], block) ==> j == i
  {
    i := 0;
    while block < windows[i].begin
      invariant i < |windows| && block <= windows[i].end
      decreases |windows| - i
    {
      i := i + 1;
    }
    forall j | 0 <= j < |windows| && InWindow(windows[j], block) ensures j == i {
      if j < i { LaterIsLower(windows, to, j, i); }
      if i < j { LaterIsLower(windows, to, i, j); }
    }
  }

  datatype Outcome = Found(log: Log) | NotFound | Failed

  ghost predicate Answered(endpoint: (int, int) -> Reply, w: Asked, from: int, width: nat) {
    && w.begin == Lowest(w.end, from, width, w.refusals) && endpoint(w.begin, w.end).Answers?
    && (w.found <==> endpoint(w.begin, w.end).logs != []) && Refused(endpoint, w.end, from, width, w.before, w.refusals)
  }

  /** The window ending at `end` was refused in each of these widths. */
  ghost predicate Refused(endpoint: (int, int) -> Reply, end: int, from: int, width: nat, before: nat, refusals: nat) {
    forall k :: before <= k < refusals ==> endpoint(Lowest(end, from, width, k), end).Refuses?
  }

  ghost predicate FoundIn(endpoint: (int, int) -> Reply, w: Asked, log: Log) {
    var reply := endpoint(w.begin, w.end);
    reply.Answers? && reply.logs != [] && log == reply.logs[0]
  }

  /** After so many refusals a window ending at `end`, asked for in at most ten blocks, was
      refused too. */
  ghost predicate GaveUpAt(endpoint: (int, int) -> Reply, from: int, end: int, width: nat, refusals: nat) {
    && Tenths(width, refusals) <= 10 && from <= end
    && endpoint(Lowest(end, from, width, refusals), end).Refuses?
  }

  /** The last refusal, and so each before it, was of a window wider than ten blocks. */
  ghost predicate WideUntil(width: nat, refusals: nat) { refusals > 0 ==> Tenths(width, refusals - 1) > 10 }

  ghost predicate AllAnswered(endpoint: (int, int) -> Reply, windows: seq<Asked>, from: int, width: nat) {
    forall i :: 0 <= i < |windows| ==> Answered(endpoint, windows[i], from, width)
  }

  ghost predicate NoneFound(windows: seq<Asked>) { forall i :: 0 <= i < |windows| ==> !windows[i].found }

  /** Every window answered so far, down from `to`, none of them with a log. */
  ghost predicate NothingYet(endpoint: (int, int) -> Reply, windows: seq<Asked>, refusals: nat, from: int, to: int,
                             width: nat) {
    && Chained(windows, to) && AllAnswered(endpoint, windows, from, width) && NoneFound(windows)
    && Narrowed(windows) <= refusals
  }

  lemma ChainedNext(windows: seq<Asked>, w: Asked, to: int)
    requires Chained(windows, to) && w.begin <= w.end && w.before <= w.refusals
    requires w.end == Unread(windows, to) && w.before == Narrowed(windows)
    ensures Chained(windows + [w], to) && Unread(windows + [w], to) == w.begin - 1
    ensures Narrowed(windows + [w]) == w.refusals
  {
  }

  lemma AnsweredNext(endpoint: (int, int) -> Reply, windows: seq<Asked>, w: Asked, from: int, width: nat)
    requires AllAnswered(endpoint, windows, from, width) && Answered(endpoint, w, from, width)
    ensures AllAnswered(endpoint, windows + [w], from, width)
  {
    var more := windows + [w];
    forall i | 0 <= i < |more| ensures Answered(endpoint, more[i], from, width) {
      if i < |windows| { assert Answered(endpoint, windows[i], from, width); }
    }
  }

  lemma OneMore(endpoint: (int, int) -> Reply, windows: seq<Asked>, w: Asked, from: int, to: int, width: nat)
    requires NothingYet(endpoint, windows, w.refusals, from, to, width)
    requires Answered(endpoint, w, from, width) && w.begin <= w.end
    requires w.end == Unread(windows, to) && w.before == Narrowed(windows)
    ensures forall i :: 0 <= i < |windows| ==> !(windows + [w])[i].found
    ensures Unread(windows + [w], to) == w.begin - 1 && Narrowed(windows + [w]) == w.refusals
    ensures Chained(windows + [w], to) && AllAnswered(endpoint, windows + [w], from, width)
    ensures !w.found ==> NothingYet(endpoint, windows + [w], w.refusals, from, to, width)
  {
    ChainedNext(windows, w, to);
    AnsweredNext(endpoint, windows, w, from, width);
  }

  lemma OneRefusal(endpoint: (int, int) -> Reply, end: int, from: int, width: nat, before: nat, refusals: nat)
    requires Refused(endpoint, end, from, width, before, refusals)
    requires endpoint(Lowest(end, from, width, refusals), end).Refuses?
    ensures Refused(endpoint, end, from, width, before, refusals + 1)
  {
  }

  /** Reads from `to` downwards. A refused window is asked for again in a tenth of its
      width from the same block, never passed over: the loop ends because each turn
      either leaves fewer blocks or a narrower window. */
  method Scan(endpoint: (int, int) -> Reply, from: int, to: int, width: nat)
    returns (outcome: Outcome, scanned: nat, ghost windows: seq<Asked>, ghost refusals: nat)
    requires width > 0
    // what was answered tiles down from `to` without a gap, and is what was counted
    ensures Chained(windows, to) && AllAnswered(endpoint, windows, from, width)
    ensures scanned == to - Unread(windows, to)
    // nothing before the last window held a log; the last one decides
    ensures forall i :: 0 <= i < |windows| - 1 ==> !windows[i].found
    ensures outcome.Found? <==> windows != [] && windows[|windows| - 1].found
    ensures outcome.Found? ==> FoundIn(endpoint, windows[|windows| - 1], outcome.log)
    // no log found means the whole range was read, or there was none to read
    ensures outcome.NotFound? ==> scanned == Max(0, to - from + 1)
    // the first refusal of a window of at most ten blocks, and nothing else, gives up, with the
    // blocks from there on unread
    ensures outcome.Failed? ==> GaveUpAt(endpoint, from, Unread(windows, to), width, refusals)
    ensures WideUntil(width, refusals) && Narrowed(windows) <= refusals
    ensures Refused(endpoint, Unread(windows, to), from, width, Narrowed(windows), refusals)
  {
    outcome, scanned, windows, refusals := NotFound, 0, [], 0;
    var start, size := to, width;
    while start >= from
      invariant 0 < size == Tenths(width, refusals) && scanned == to - start
      invariant WideUntil(width, refusals) && NothingYet(endpoint, windows, refusals, from, to, width)
      invariant start == Unread(windows, to) && Refused(endpoint, start, from, width, Narrowed(windows), refusals)
      invariant outcome == NotFound && (from <= to ==> start >= from)
      decreases start - from, size
    {
      var begin := Max(start - size + 1, from);
      var reply := endpoint(begin, start);
      if reply.Refuses? {
        if size > 10 {
          OneRefusal(endpoint, start, from, width, Narrowed(windows), refusals);
          size := size / 10;
          refusals := refusals + 1;
          continue;
        }
        outcome := Failed;
        return;
      }
      ghost var w := Asked(begin, start, reply.logs != [], Narrowed(windows), refusals);
      OneMore(endpoint, windows, w, from, to, width);
      scanned := scanned + (start - begin + 1);
      windows := windows + [w];
      if reply.logs != [] { outcome := Found(reply.logs[0]); return; }
      if begin == from { return; }
      start := start - size;
    }
  }
}
