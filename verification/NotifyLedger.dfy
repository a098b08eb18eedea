/** What one channel has recorded, and how a phase sends its groups. The history of
    every push is kept beside the tables as a ghost: no step decides anything by it. */
module NotifyLedger {
  import opened Common
  import opened PushGroups
  import opened NotifyPlan
  import opened ClockPlans

  datatype Phase = Loan | Weekly(week: nat) | Reopen(round: nat, kind: ReopenKind) | Reward | Events

  /** One push a wallet took: was it counted for its day, and marked as sent for its
      week or round, before anything failed. */
  datatype Send = Send(day: int, wallet: Wallet, phase: Phase, counted: bool, marked: bool)

  /** How the client answers one request: the wallets that took it, a refused
      payload, or anything else. */
  datatype Answer = Delivered(sent: seq<Wallet>) | BadRequest | Refused

  /** Answers by request number within a phase. `recordFault` is the number of rows
      written before a recording call throws, if it does. */
  datatype Client = Client(send: (nat, Group) -> Answer, recordFault: nat -> Option<nat>)

  ghost predicate HonestClient(client: Client) {
    forall n, g :: client.send(n, g).Delivered? ==>
      Distinct(client.send(n, g).sent) && forall w :: w in client.send(n, g).sent ==> w in g.wallets
  }

  predicate Failing(client: Client, n: nat, g: Group) {
    client.send(n, g).Refused? || (client.send(n, g).Delivered? && client.send(n, g).sent != []
                                   && client.recordFault(n).Some?)
  }

  // --- the history -----------------------------------------------------------------

  ghost function Counted(h: seq<Send>, day: int, w: Wallet): nat {
    if h == [] then 0
    else
      Counted(h[..|h| - 1], day, w)
      + if h[|h| - 1].day == day && h[|h| - 1].wallet == w && h[|h| - 1].counted then 1 else 0
  }

  ghost predicate WasMarked(h: seq<Send>, p: Phase, w: Wallet) {
    exists i :: 0 <= i < |h| && h[i].phase == p && h[i].wallet == w && h[i].marked
  }

  predicate OnceOnly(p: Phase) { p.Weekly? || p.Reopen? }

  /** A push outside the loan phase goes to a wallet only while what is recorded for
      its day is below the cap. */
  ghost predicate CapKept(h: seq<Send>, cap: nat) {
    forall i :: 0 <= i < |h| && !h[i].phase.Loan? ==> Counted(h[..i], h[i].day, h[i].wallet) < cap
  }

  /** A weekly or reopen push follows no earlier one of the same week, or round and
      kind, that was marked. */
  ghost predicate SentOnce(h: seq<Send>) {
    forall i, j ::
      0 <= i < j < |h| && h[i].phase == h[j].phase && OnceOnly(h[j].phase) && h[i].wallet == h[j].wallet ==>
        !h[i].marked
  }

  ghost function CountedCapped(h: seq<Send>, day: int, w: Wallet): nat {
    if h == [] then 0
    else
      var s := h[|h| - 1];
      CountedCapped(h[..|h| - 1], day, w)
        + if s.day == day && s.wallet == w && s.counted && !s.phase.Loan? then 1 else 0
  }

  lemma {:induction false} CappedAreCounted(h: seq<Send>, day: int, w: Wallet)
    ensures CountedCapped(h, day, w) <= Counted(h, day, w)
  {
    if h != [] { CappedAreCounted(h[..|h| - 1], day, w); }
  }

  /** However loans and the other phases interleave, the recorded pushes of one
      wallet and day that are not loans never exceed the cap. */
  lemma {:induction false} RecordedStayWithinTheCap(h: seq<Send>, cap: nat, day: int, w: Wallet)
    requires CapKept(h, cap)
    ensures CountedCapped(h, day, w) <= cap
  {
    if h != [] {
      var front, s := h[..|h| - 1], h[|h| - 1];
      forall i | 0 <= i < |front| && !front[i].phase.Loan?
        ensures Counted(front[..i], front[i].day, front[i].wallet) < cap {
        assert h[..i] == front[..i] && h[i] == front[i];
      }
      RecordedStayWithinTheCap(front, cap, day, w);
      CappedAreCounted(front, day, w);
      if !s.phase.Loan? { assert Counted(h[..|h| - 1], s.day, s.wallet) < cap; }
    }
  }

  // --- one batch's pushes on top of a history -------------------------------------------

  ghost function Entries(day: int, phase: Phase, sent: seq<Wallet>, counted: nat, marked: nat): (r: seq<Send>)
    ensures |r| == |sent|
  {
    seq(|sent|, i requires 0 <= i < |sent| => Send(day, sent[i], phase, i < counted, i < marked))
  }

  lemma {:induction false} CountedEntries(h: seq<Send>, day: int, phase: Phase, sent: seq<Wallet>, counted: nat,
                                          marked: nat, d: int, w: Wallet)
    requires Distinct(sent) && counted <= |sent|
    ensures Counted(h + Entries(day, phase, sent, counted, marked), d, w) ==
            Counted(h, d, w) + if d == day && w in sent[..counted] then 1 else 0
    decreases |sent|
  {
    var all := h + Entries(day, phase, sent, counted, marked);
    if sent == [] {
      assert all == h;
    } else {
      var front, last := sent[..|sent| - 1], sent[|sent| - 1];
      var c := if counted == |sent| then |sent| - 1 else counted;
      CountedEntries(h, day, phase, front, c, marked, d, w);
      assert all[..|all| - 1] == h + Entries(day, phase, front, c, marked);
      assert all[|all| - 1] == Send(day, last, phase, |sent| - 1 < counted, |sent| - 1 < marked);
      if counted == |sent| {
        assert sent[..counted] == front[..c] + [last];
        assert last !in front;
      } else {
        assert sent[..counted] == front[..c];
      }
    }
  }

  lemma MarkedEntries(h: seq<Send>, day: int, phase: Phase, sent: seq<Wallet>, counted: nat, marked: nat, p: Phase,
                      w: Wallet)
    requires marked <= |sent|
    ensures WasMarked(h + Entries(day, phase, sent, counted, marked), p, w) <==>
      WasMarked(h, p, w) || (p == phase && w in sent[..marked])
  {
    var e := Entries(day, phase, sent, counted, marked);
    var all := h + e;
    if WasMarked(h, p, w) {
      var i :| 0 <= i < |h| && h[i].phase == p && h[i].wallet == w && h[i].marked;
      assert all[i] == h[i];
    }
    if p == phase && w in sent[..marked] {
      var i :| 0 <= i < marked && sent[i] == w;
      assert all[|h| + i] == e[i];
    }
    if WasMarked(all, p, w) {
      var i :| 0 <= i < |all| && all[i].phase == p && all[i].wallet == w && all[i].marked;
      if i < |h| { assert h[i] == all[i]; } else { assert e[i - |h|] == all[i] && sent[..marked][i - |h|] == w; }
    }
  }

  lemma SentOnceEntries(h: seq<Send>, day: int, phase: Phase, sent: seq<Wallet>, counted: nat, marked: nat)
    requires SentOnce(h) && Distinct(sent)
    requires OnceOnly(phase) ==> forall w :: w in sent ==> !WasMarked(h, phase, w)
    ensures SentOnce(h + Entries(day, phase, sent, counted, marked))
  {
    var e := Entries(day, phase, sent, counted, marked);
    var all := h + e;
    forall i, j | 0 <= i < j < |all| && all[i].phase == all[j].phase && OnceOnly(all[j].phase)
      && all[i].wallet == all[j].wallet
      ensures !all[i].marked
    {
      if j < |h| {
        assert all[i] == h[i] && all[j] == h[j];
      } else {
        assert all[j] == e[j - |h|] && all[j].wallet in sent;
        if i < |h| { assert all[i] == h[i] && !WasMarked(h, phase, h[i].wallet); }
      }
    }
  }

  lemma CapKeptEntries(h: seq<Send>, cap: nat, day: int, phase: Phase, sent: seq<Wallet>, counted: nat, marked: nat)
    requires CapKept(h, cap) && Distinct(sent) && counted <= |sent|
    requires !phase.Loan? ==> forall w :: w in sent ==> Counted(h, day, w) < cap
    ensures CapKept(h + Entries(day, phase, sent, counted, marked), cap)
  {
    var e := Entries(day, phase, sent, counted, marked);
    var all := h + e;
    forall i | 0 <= i < |all| && !all[i].phase.Loan? ensures Counted(all[..i], all[i].day, all[i].wallet) < cap {
      if i < |h| {
        assert all[..i] == h[..i] && all[i] == h[i];
      } else {
        var k := i - |h|;
        var c := Min(counted, k);
        assert all[i] == e[k];
        assert all[..i] == h + Entries(day, phase, sent[..k], c, marked);
        CountedEntries(h, day, phase, sent[..k], c, marked, day, sent[k]);
        assert sent[k] !in sent[..k][..c];
        assert sent[k] in sent;
      }
    }
  }

  /** How many of a batch are counted, and how many marked, before a write fails. */
  function CountedBy(fault: Option<nat>, size: nat): nat { if fault == None then size else Min(fault.value, size) }

  function MarkedBy(phase: Phase, fault: Option<nat>, size: nat): nat {
    if !OnceOnly(phase) then 0 else if fault == None then size else Min(Max(fault.value - size, 0), size)
  }

  /** One row a wallet is counted, and where it is marked at all one more: a recording
      that fails has written just the rows before the failure, the counts first. */
  lemma CountsAreWrittenFirst(phase: Phase, fault: Option<nat>, size: nat)
    ensures var counted, marked := CountedBy(fault, size), MarkedBy(phase, fault, size);
            var rows := if OnceOnly(phase) then 2 * size else size;
      && counted + marked == (if fault == None then rows else Min(fault.value, rows))
      && counted <= size && (marked > 0 ==> counted == size) && (!OnceOnly(phase) ==> marked == 0)
  {
  }

  /** What one answered request adds to the history. */
  ghost function PushesOf(client: Client, n: nat, g: Group, phase: Phase, day: int): seq<Send> {
    var answer := client.send(n, g);
    if !answer.Delivered? then []
    else Entries(day, phase, answer.sent, CountedBy(client.recordFault(n), |answer.sent|),
                 MarkedBy(phase, client.recordFault(n), |answer.sent|))
  }

  ghost function PushLog(client: Client, phase: Phase, groups: seq<Group>, day: int): seq<Send> {
    if groups == [] then []
    else
      var n := |groups| - 1;
      PushLog(client, phase, groups[..n], day) + PushesOf(client, n, groups[n], phase, day)
  }

  /** How many groups are tried from `n` on: all, or up to the first that fails. */
  ghost function Tried(client: Client, groups: seq<Group>, n: nat): (r: nat)
    requires n <= |groups|
    ensures n <= r <= |groups|
    decreases |groups| - n
  {
    if n == |groups| then n else if Failing(client, n, groups[n]) then n + 1 else Tried(client, groups, n + 1)
  }

  // --- the tables ----------------------------------------------------------------------------

  function DailyCount(daily: map<(int, Wallet), nat>, day: int, w: Wallet): nat {
    if (day, w) in daily then daily[(day, w)] else 0
  }

  type WeeklyTable = set<(nat, Wallet)>
  type ReopenTable = set<(nat, ReopenKind, Wallet)>

  predicate MarkedIn(weekly: WeeklyTable, reopened: ReopenTable, p: Phase, w: Wallet) {
    match p
    case Weekly(week) => (week, w) in weekly
    case Reopen(round, kind) => (round, kind, w) in reopened
    case _ => false
  }

  /** The tables say what the history says. */
  ghost predicate TablesTied(daily: map<(int, Wallet), nat>, weekly: WeeklyTable, reopened: ReopenTable, h: seq<Send>,
                             horizon: int)
  {
    && (forall d: int, w: Wallet :: d >= horizon ==> DailyCount(daily, d, w) == Counted(h, d, w))
    && (forall p: Phase, w: Wallet :: MarkedIn(weekly, reopened, p, w) <==> WasMarked(h, p, w))
    && SentOnce(h)
  }

  ghost predicate CountedOn(before: map<(int, Wallet), nat>, after: map<(int, Wallet), nat>, day: int,
                            wallets: seq<Wallet>)
  {
    forall d: int, w: Wallet ::
      DailyCount(after, d, w) == DailyCount(before, d, w) + if d == day && w in wallets then 1 else 0
  }

  ghost predicate MarkedOn(weekly: WeeklyTable, reopened: ReopenTable, weekly': WeeklyTable, reopened': ReopenTable,
                           phase: Phase, wallets: seq<Wallet>)
  {
    forall p: Phase, w: Wallet ::
      MarkedIn(weekly', reopened', p, w) <==>
        MarkedIn(weekly, reopened, p, w) || (OnceOnly(phase) && p == phase && w in wallets)
  }

  lemma TiedAfter(daily: map<(int, Wallet), nat>, weekly: WeeklyTable, reopened: ReopenTable, h: seq<Send>,
                  horizon: int, daily': map<(int, Wallet), nat>, weekly': WeeklyTable, reopened': ReopenTable,
                  day: int, phase: Phase, sent: seq<Wallet>, counted: nat, marked: nat)
    requires TablesTied(daily, weekly, reopened, h, horizon) && Distinct(sent) && counted <= |sent| && marked <= |sent|
    requires OnceOnly(phase) ==> forall w :: w in sent ==> !MarkedIn(weekly, reopened, phase, w)
    requires !OnceOnly(phase) ==> marked == 0
    requires CountedOn(daily, daily', day, sent[..counted])
      && MarkedOn(weekly, reopened, weekly', reopened', phase, sent[..marked])
    ensures TablesTied(daily', weekly', reopened', h + Entries(day, phase, sent, counted, marked), horizon)
  {
    var h' := h + Entries(day, phase, sent, counted, marked);
    forall d: int, w: Wallet | d >= horizon ensures DailyCount(daily', d, w) == Counted(h', d, w) {
      CountedEntries(h, day, phase, sent, counted, marked, d, w);
    }
    forall p: Phase, w: Wallet ensures MarkedIn(weekly', reopened', p, w) <==> WasMarked(h', p, w) {
      MarkedEntries(h, day, phase, sent, counted, marked, p, w);
    }
    SentOnceEntries(h, day, phase, sent, counted, marked);
  }

  class NotifyRepository {
    var daily: map<(int, Wallet), nat>
    var weekly: WeeklyTable
    var reopened: ReopenTable
    var rwaCursor: Option<nat>
    var radarCursor: Option<nat>
    ghost var history: seq<Send>
    /** Counts of days before it have been pruned. */
    ghost var horizon: int

    ghost predicate Tied()
      reads this`daily, this`weekly, this`reopened, this`history, this`horizon
    {
      TablesTied(daily, weekly, reopened, history, horizon)
    }

    constructor ()
      ensures Tied() && history == [] && rwaCursor == None && radarCursor == None
    {
      daily, weekly, reopened, rwaCursor, radarCursor, history, horizon := map[], {}, {}, None, None, [], 0;
    }

    method SentOn(day: int, wallets: seq<Wallet>) returns (counts: map<Wallet, nat>)
      ensures forall w :: w in wallets ==> SentToday(counts, w) == DailyCount(daily, day, w)
    {
      counts := map w | w in wallets && (day, w) in daily :: daily[(day, w)];
    }

    method PruneDaily(before: int)
      requires Tied()
      modifies this`daily, this`horizon
      ensures Tied() && horizon == Max(old(horizon), before)
      ensures forall k :: k in daily <==> k in old(daily) && k.0 >= before
    {
      daily := map k | k in daily && k.0 >= before :: daily[k];
      horizon := Max(horizon, before);
    }

    method CountSent(day: int, wallets: seq<Wallet>)
      requires Distinct(wallets)
      modifies this`daily
      ensures CountedOn(old(daily), daily, day, wallets)
    {
      for i := 0 to |wallets|
        invariant CountedOn(old(daily), daily, day, wallets[..i])
      {
        assert wallets[..i + 1] == wallets[..i] + [wallets[i]];
        daily := daily[(day, wallets[i]) := DailyCount(daily, day, wallets[i]) + 1];
      }
      assert wallets[..|wallets|] == wallets;
    }

    method MarkSent(phase: Phase, wallets: seq<Wallet>)
      modifies this`weekly, this`reopened
      ensures MarkedOn(old(weekly), old(reopened), weekly, reopened, phase, wallets)
    {
      match phase
      case Weekly(week) => weekly := weekly + set w | w in wallets :: (week, w);
      case Reopen(round, kind) => reopened := reopened + set w | w in wallets :: (round, kind, w);
      case _ =>
    }

    /** Counts every wallet, then marks every wallet, until a write fails. */
    method Record(day: int, phase: Phase, sent: seq<Wallet>, fault: Option<nat>)
      returns (ok: bool, ghost counted: nat, ghost marked: nat)
      requires Tied() && Distinct(sent) && day >= horizon
      requires OnceOnly(phase) ==> forall w :: w in sent ==> !MarkedIn(weekly, reopened, phase, w)
      modifies this`daily, this`weekly, this`reopened, this`history
      ensures Tied() && ok == (fault == None)
      ensures counted <= |sent| && marked <= |sent|
        && history == old(history) + Entries(day, phase, sent, counted, marked)
      ensures counted == CountedBy(fault, |sent|) && marked == MarkedBy(phase, fault, |sent|)
      ensures CountedOn(old(daily), daily, day, sent[..counted])
      ensures MarkedOn(old(weekly), old(reopened), weekly, reopened, phase, sent[..marked])
    {
      var toCount := CountedBy(fault, |sent|);
      var toMark := MarkedBy(phase, fault, |sent|);
      CountSent(day, sent[..toCount]);
      MarkSent(phase, sent[..toMark]);
      ok, counted, marked := fault == None, toCount, toMark;
      history := history + Entries(day, phase, sent, counted, marked);
      TiedAfter(old(daily), old(weekly), old(reopened), old(history), horizon, daily, weekly, reopened, day, phase,
                sent, counted, marked);
    }
  }
}
