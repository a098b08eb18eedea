/** One pass of one channel: loans, the weekly summary, the reopen notices, the
    rewards, and then the rows behind the two cursors. */
module NotifyPass {
  import opened Common
  import opened Sorting
  import opened Notices
  import opened PushGroups
  import opened NotifyPlan
  import opened ClockPlans
  import opened NotifyLedger

  // --- sending a phase's groups -------------------------------------------------------

  /** In how many groups a wallet stands. */
  ghost function Turns(groups: seq<Group>, w: Wallet): nat {
    if groups == [] then 0 else (if w in groups[0].wallets then 1 else 0) + Turns(groups[1..], w)
  }

  /** Every wallet addressed has that many pushes left today. */
  ghost predicate RoomFor(daily: map<(int, Wallet), nat>, day: int, groups: seq<Group>, cap: nat) {
    forall w: Wallet :: Turns(groups, w) > 0 ==> DailyCount(daily, day, w) + Turns(groups, w) <= cap
  }

  /** A once-only phase addresses nobody already marked, and nobody twice. */
  ghost predicate Unmarked(weekly: WeeklyTable, reopened: ReopenTable, phase: Phase, groups: seq<Group>) {
    OnceOnly(phase) ==> forall w: Wallet :: Turns(groups, w) > 0 ==>
      !MarkedIn(weekly, reopened, phase, w) && Turns(groups, w) == 1
  }

  lemma TurnsNext(groups: seq<Group>, n: nat, w: Wallet)
    requires n < |groups|
    ensures Turns(groups[n..], w) == Turns(groups[n + 1..], w) + if w in groups[n].wallets then 1 else 0
  {
    assert groups[n..][1..] == groups[n + 1..];
  }

  lemma {:induction false} MemberHasATurn(groups: seq<Group>, n: nat, w: Wallet)
    requires n < |groups| && w in groups[n].wallets
    ensures Turns(groups, w) > 0
  {
    if n > 0 { MemberHasATurn(groups[1..], n - 1, w); }
  }

  /** What one phase may have done to the books by the time it stands before group `n`. */
  ghost predicate InStep(repository: NotifyRepository, client: Client, before: seq<Send>, phase: Phase,
                         groups: seq<Group>, n: nat, day: int)
    requires n <= |groups|
    reads repository
  {
    && repository.Tied() && repository.history == before + PushLog(client, phase, groups[..n], day)
    && Unmarked(repository.weekly, repository.reopened, phase, groups[n..])
  }

  ghost predicate WithinCap(repository: NotifyRepository, phase: Phase, groups: seq<Group>, day: int, cap: nat)
    reads repository
  {
    CapKept(repository.history, cap) && (phase.Loan? || RoomFor(repository.daily, day, groups, cap))
  }

  lemma RecordedKeepsTheCap(h: seq<Send>, daily: map<(int, Wallet), nat>, daily': map<(int, Wallet), nat>,
                            phase: Phase, groups: seq<Group>, n: nat,
                            day: int, sent: seq<Wallet>, counted: nat, marked: nat, cap: nat)
    requires n < |groups| && Distinct(sent) && counted <= |sent| && forall w :: w in sent ==> w in groups[n].wallets
    requires forall w: Wallet :: DailyCount(daily, day, w) == Counted(h, day, w)
    requires CountedOn(daily, daily', day, sent[..counted])
    requires CapKept(h, cap) && (phase.Loan? || RoomFor(daily, day, groups[n..], cap))
    ensures CapKept(h + Entries(day, phase, sent, counted, marked), cap)
      && (phase.Loan? || RoomFor(daily', day, groups[n + 1..], cap))
  {
    forall w | w in sent && !phase.Loan? ensures Counted(h, day, w) < cap {
      TurnsNext(groups, n, w);
    }
    CapKeptEntries(h, cap, day, phase, sent, counted, marked);
    if !phase.Loan? {
      forall w: Wallet | Turns(groups[n + 1..], w) > 0
        ensures DailyCount(daily', day, w) + Turns(groups[n + 1..], w) <= cap {
        TurnsNext(groups, n, w);
        assert w in sent[..counted] ==> w in sent;
      }
    }
  }

  lemma RecordedStaysUnmarked(weekly: WeeklyTable, reopened: ReopenTable, weekly': WeeklyTable, reopened': ReopenTable,
                              phase: Phase, groups: seq<Group>, n: nat, sent: seq<Wallet>)
    requires n < |groups| && forall w :: w in sent ==> w in groups[n].wallets
    requires Unmarked(weekly, reopened, phase, groups[n..])
      && MarkedOn(weekly, reopened, weekly', reopened', phase, sent)
    ensures Unmarked(weekly', reopened', phase, groups[n + 1..])
  {
    if OnceOnly(phase) {
      forall w: Wallet | Turns(groups[n + 1..], w) > 0
        ensures !MarkedIn(weekly', reopened', phase, w) && Turns(groups[n + 1..], w) == 1
      {
        TurnsNext(groups, n, w);
      }
    }
  }

  lemma LogNext(client: Client, phase: Phase, groups: seq<Group>, n: nat, day: int)
    requires n < |groups|
    ensures PushLog(client, phase, groups[..n + 1], day) ==
      PushLog(client, phase, groups[..n], day) + PushesOf(client, n, groups[n], phase, day)
  {
    assert groups[..n + 1][..n] == groups[..n] && groups[..n + 1][n] == groups[n];
  }

  /** Records what one answer says was taken. */
  method TakeAnswer(repository: NotifyRepository, client: Client, phase: Phase, sent: seq<Wallet>, day: int,
                    ghost before: seq<Send>, groups: seq<Group>, n: nat, ghost cap: nat)
    returns (ok: bool)
    requires HonestClient(client) && n < |groups| && client.send(n, groups[n]) == Delivered(sent)
    requires InStep(repository, client, before, phase, groups, n, day) && day >= repository.horizon
    modifies repository`daily, repository`weekly, repository`reopened, repository`history
    ensures InStep(repository, client, before, phase, groups, n + 1, day)
    ensures |repository.history| == |old(repository.history)| + |sent| && ok == !Failing(client, n, groups[n])
    ensures old(WithinCap(repository, phase, groups[n..], day, cap)) ==>
      WithinCap(repository, phase, groups[n + 1..], day, cap)
  {
    forall w | w in sent ensures Turns(groups[n..], w) > 0 { TurnsNext(groups, n, w); }
    ghost var fits := WithinCap(repository, phase, groups[n..], day, cap);
    LogNext(client, phase, groups, n, day);
    if sent == [] {
      PassedOver(repository, client, before, phase, groups, n, day, cap);
      return true;
    }
    ghost var counted, marked;
    ok, counted, marked := repository.Record(day, phase, sent, client.recordFault(n));
    if fits {
      RecordedKeepsTheCap(old(repository.history), old(repository.daily), repository.daily, phase, groups, n, day,
                          sent, counted, marked, cap);
    }
    RecordedStaysUnmarked(old(repository.weekly), old(repository.reopened), repository.weekly, repository.reopened,
                          phase, groups, n, sent[..marked]);
  }

  lemma PassedOver(repository: NotifyRepository, client: Client, before: seq<Send>, phase: Phase, groups: seq<Group>,
                   n: nat, day: int, cap: nat)
    requires n < |groups| && InStep(repository, client, before, phase, groups, n, day)
    requires PushesOf(client, n, groups[n], phase, day) == []
    ensures InStep(repository, client, before, phase, groups, n + 1, day)
    ensures WithinCap(repository, phase, groups[n..], day, cap) ==>
      WithinCap(repository, phase, groups[n + 1..], day, cap)
  {
    LogNext(client, phase, groups, n, day);
    RecordedStaysUnmarked(repository.weekly, repository.reopened, repository.weekly, repository.reopened, phase,
                          groups, n, []);
    forall w: Wallet ensures Turns(groups[n..], w) >= Turns(groups[n + 1..], w) { TurnsNext(groups, n, w); }
  }

  /** Every group up to the first that fails was tried, and exactly what its answer says
      was added to the history. */
  ghost predicate Ran(h: seq<Send>, h': seq<Send>, client: Client, phase: Phase, groups: seq<Group>, day: int,
                      stopped: bool)
  {
    var tried := Tried(client, groups, 0);
    && h' == h + PushLog(client, phase, groups[..tried], day)
    && (stopped <==> tried > 0 && Failing(client, tried - 1, groups[tried - 1]))
  }

  /** One request: what it was answered is recorded, or stops the phase. */
  method SendGroup(repository: NotifyRepository, client: Client, phase: Phase, day: int, ghost before: seq<Send>,
                   groups: seq<Group>, n: nat, ghost cap: nat)
    returns (sent: nat, stopped: bool)
    requires HonestClient(client) && n < |groups|
    requires InStep(repository, client, before, phase, groups, n, day) && day >= repository.horizon
    modifies repository`daily, repository`weekly, repository`reopened, repository`history
    ensures InStep(repository, client, before, phase, groups, n + 1, day)
    ensures |repository.history| == |old(repository.history)| + sent && stopped == Failing(client, n, groups[n])
    ensures old(WithinCap(repository, phase, groups[n..], day, cap)) ==>
      WithinCap(repository, phase, groups[n + 1..], day, cap)
  {
    var answer := client.send(n, groups[n]);
    if !answer.Delivered? {
      PassedOver(repository, client, before, phase, groups, n, day, cap);
      return 0, answer.Refused?;
    }
    var ok := TakeAnswer(repository, client, phase, answer.sent, day, before, groups, n, cap);
    return |answer.sent|, !ok;
  }

  /** Sends group after group. A refused payload is passed over; any other failure,
      the recording included, stops the pass where it is. */
  method SendPhase(repository: NotifyRepository, client: Client, phase: Phase, groups: seq<Group>, day: int,
                   ghost cap: nat)
    returns (sent: nat, stopped: bool)
    requires HonestClient(client) && repository.Tied() && day >= repository.horizon
    requires Unmarked(repository.weekly, repository.reopened, phase, groups)
    modifies repository`daily, repository`weekly, repository`reopened, repository`history
    ensures repository.Tied() && Ran(old(repository.history), repository.history, client, phase, groups, day, stopped)
    ensures sent == |repository.history| - |old(repository.history)|
    ensures old(WithinCap(repository, phase, groups, day, cap)) ==> CapKept(repository.history, cap)
  {
    sent, stopped := 0, false;
    ghost var before := repository.history;
    ghost var fits := WithinCap(repository, phase, groups, day, cap);
    assert groups[0..] == groups && groups[..0] == [] && before + [] == before;
    for n := 0 to |groups|
      invariant InStep(repository, client, before, phase, groups, n, day) && sent == |repository.history| - |before|
      invariant fits ==> WithinCap(repository, phase, groups[n..], day, cap)
      invariant !stopped && Tried(client, groups, 0) == Tried(client, groups, n)
        && (n > 0 ==> !Failing(client, n - 1, groups[n - 1]))
    {
      var taken;
      taken, stopped := SendGroup(repository, client, phase, day, before, groups, n, cap);
      sent := sent + taken;
      if stopped { return; }
    }
    assert groups[..|groups|] == groups;
  }

  // --- a plan's groups have room ---------------------------------------------------------

  lemma {:induction false} TurnsOfMember(groups: seq<Group>, w: Wallet)
    ensures Turns(groups, w) > 0 <==> exists i :: 0 <= i < |groups| && w in groups[i].wallets
  {
    if groups != [] {
      TurnsOfMember(groups[1..], w);
      if i :| 0 <= i < |groups| && w in groups[i].wallets { MemberHasATurn(groups, i, w); }
      if Turns(groups[1..], w) > 0 {
        var i :| 0 <= i < |groups[1..]| && w in groups[1..][i].wallets;
        assert w in groups[i + 1].wallets;
      }
    }
  }

  lemma {:induction false} DisjointTurns(groups: seq<Group>, w: Wallet)
    requires Disjoint(groups)
    ensures Turns(groups, w) <= 1
  {
    if groups != [] {
      var tail := groups[1..];
      assert forall i :: 0 <= i < |tail| ==> tail[i] == groups[i + 1];
      DisjointTurns(tail, w);
      TurnsOfMember(tail, w);
    }
  }

  /** Groups that carry nothing but planned pushes, each wallet in one of them. */
  ghost predicate PlannedFrom(groups: seq<Group>, pairs: seq<Assigned>) {
    Disjoint(groups) && multiset(Carried(groups)) <= multiset(pairs)
  }

  lemma PlannedWallet(groups: seq<Group>, pairs: seq<Assigned>, w: Wallet) returns (a: Assigned)
    requires PlannedFrom(groups, pairs) && Turns(groups, w) > 0
    ensures a in pairs && a.wallet == w && Turns(groups, w) == 1
  {
    DisjointTurns(groups, w);
    TurnsOfMember(groups, w);
    var i :| 0 <= i < |groups| && w in groups[i].wallets;
    InCarried(groups, i, w);
    var k :| 0 <= k < |Carried(groups)| && Carried(groups)[k].wallet == w;
    a := Carried(groups)[k];
    assert a in multiset(Carried(groups));
    assert a in multiset(pairs);
  }

  /** Every planned wallet is one of `wallets`, and was below the cap when asked. */
  ghost predicate BelowCap(pairs: seq<Assigned>, wallets: seq<Wallet>, daily: map<(int, Wallet), nat>, day: int,
                           cap: nat)
  {
    forall a :: a in pairs ==> a.wallet in wallets && DailyCount(daily, day, a.wallet) < cap
  }

  lemma PlansHaveRoom(groups: seq<Group>, pairs: seq<Assigned>, wallets: seq<Wallet>, daily: map<(int, Wallet), nat>,
                      day: int, cap: nat)
    requires PlannedFrom(groups, pairs) && BelowCap(pairs, wallets, daily, day, cap)
    ensures RoomFor(daily, day, groups, cap)
    ensures forall w: Wallet :: Turns(groups, w) > 0 ==> w in wallets && Turns(groups, w) == 1
  {
    forall w: Wallet | Turns(groups, w) > 0
      ensures DailyCount(daily, day, w) + Turns(groups, w) <= cap && w in wallets && Turns(groups, w) == 1
    {
      var a := PlannedWallet(groups, pairs, w);
    }
  }

  lemma KeptIsPlannedFrom(pairs: seq<Assigned>, kept: seq<Group>, dropped: seq<Group>, max: nat)
    requires Planned(pairs, kept, dropped, max)
    ensures PlannedFrom(kept, pairs)
  {
    var all := kept + dropped;
    forall i | 0 <= i < |kept| ensures Distinct(kept[i].wallets) { assert all[i] == kept[i]; }
    forall i, j, w | 0 <= i < j < |kept| && w in kept[i].wallets ensures w !in kept[j].wallets {
      assert all[i] == kept[i] && all[j] == kept[j];
    }
  }

  // --- inputs of one pass -------------------------------------------------------------------

  function Filter(s: seq<Wallet>, keep: Wallet -> bool): (r: seq<Wallet>)
    ensures forall w :: w in r <==> w in s && keep(w)
    ensures Distinct(s) ==> Distinct(r)
  {
    if s == [] then []
    else
      var front, last := Filter(s[..|s| - 1], keep), s[|s| - 1];
      assert forall w :: w in s <==> w == last || w in s[..|s| - 1];
      if keep(last) then front + [last] else front
  }

  /** The week that closed, when the summary is due and can be read. `holdings` is
      missing when a balance could not be read. */
  datatype WeeklyFacts = WeeklyFacts(week: nat, holdings: Option<map<Wallet, set<Token>>>,
                                     held: set<Token> -> Option<Push>, market: Option<Push>)

  /** `scored` are the players with a score to tell. */
  datatype ReopenFacts = ReopenFacts(id: nat, round: Round, players: set<Wallet>, scored: set<Wallet>,
                                     returning: set<Wallet>, pushOf: (ReopenKind, Wallet) -> Option<Push>)

  /** Results are for those with a score; both invitations for those not playing, the
      last call only for those that have played before. */
  ghost predicate Hears(facts: ReopenFacts, kind: ReopenKind, w: Wallet) {
    && (kind.Results? ==> w in facts.scored)
    && (!kind.Results? ==> w !in facts.players)
    && (kind.LastCall? ==> w in facts.returning)
  }

  function Audience(facts: ReopenFacts, kind: ReopenKind, enabled: seq<Wallet>): (r: seq<Wallet>)
    ensures Distinct(enabled) ==> Distinct(r)
    ensures forall w :: w in r <==> w in enabled && Hears(facts, kind, w)
  {
    match kind
    case Results => Filter(enabled, (w: Wallet) => w in facts.scored)
    case LastCall => Filter(enabled, (w: Wallet) => w in facts.returning && w !in facts.players)
    case Open => Filter(enabled, (w: Wallet) => w !in facts.players)
  }

  /** The opted-in list and the client as one phase finds them; no list when the
      provider does not answer. */
  datatype Channel = Channel(enabled: Option<seq<Wallet>>, client: Client)

  ghost predicate HonestChannel(c: Channel) {
    HonestClient(c.client) && (c.enabled.Some? ==> Distinct(c.enabled.value))
  }

  datatype Limits = Limits(dailyCap: nat, maxRequests: nat, perSource: nat)

  // --- the clock-driven phases ---------------------------------------------------------------

  function Groups(singles: seq<Single>): seq<Group> {
    seq(|singles|, i requires 0 <= i < |singles| => singles[i].group)
  }

  lemma {:induction false} TurnsAppend(a: seq<Group>, b: seq<Group>, w: Wallet)
    ensures Turns(a + b, w) == Turns(a, w) + Turns(b, w)
  {
    if a == [] {
      assert a + b == b;
    } else {
      TurnsAppend(a[1..], b, w);
      assert (a + b)[1..] == a[1..] + b;
    }
  }

  ghost predicate Lone(singles: seq<Single>) { forall i :: 0 <= i < |singles| ==> |singles[i].group.wallets| == 1 }

  lemma OneTurn(g: Group, w: Wallet)
    requires |g.wallets| == 1
    ensures Turns([g], w) == if g.wallets == [w] then 1 else 0
  {
    assert [g][1..] == [];
    assert g.wallets == [g.wallets[0]];
  }

  lemma {:induction false} SinglesAreTurns(singles: seq<Single>, w: Wallet)
    requires Lone(singles)
    ensures Turns(Groups(singles), w) == SinglesOf(singles, w)
  {
    if singles == [] {
      assert Groups([]) == [];
    } else {
      var front, last := singles[..|singles| - 1], singles[|singles| - 1];
      SinglesAreTurns(front, w);
      assert Groups(singles) == Groups(front) + [last.group];
      TurnsAppend(Groups(front), [last.group], w);
      OneTurn(last.group, w);
    }
  }

  /** A phase with its groups: sent, unless the pass is dry. */
  ghost predicate Sends(h: seq<Send>, h': seq<Send>, client: Client, phase: Phase, groups: seq<Group>, day: int,
                        dry: bool, stopped: bool)
  {
    if dry then h' == h && !stopped else Ran(h, h', client, phase, groups, day, stopped)
  }

  ghost predicate LoanPlan(singles: seq<Single>, due: seq<Due>, enabled: seq<Wallet>) {
    LetsThrough(singles, due, Inside(set w | w in enabled)) && SinglesFrom(due, singles)
  }

  /** What the loan phase did, from the history before it to the history after. */
  ghost predicate LoansRan(h: seq<Send>, h': seq<Send>, channel: Channel, due: seq<Due>, day: int, dry: bool,
                           stopped: bool)
  {
    if due == [] then h' == h && !stopped
    else if channel.enabled == None then h' == h && stopped
    else exists singles ::
      LoanPlan(singles, due, channel.enabled.value)
      && Sends(h, h', channel.client, Loan, Groups(singles), day, dry, stopped)
  }

  method LoanPhase(repository: NotifyRepository, channel: Channel, due: seq<Due>, day: int, dry: bool, ghost cap: nat)
    returns (sent: nat, stopped: bool)
    requires HonestChannel(channel) && repository.Tied() && day >= repository.horizon
    modifies repository`daily, repository`weekly, repository`reopened, repository`history
    ensures repository.Tied() && LoansRan(old(repository.history), repository.history, channel, due, day, dry, stopped)
    ensures old(CapKept(repository.history, cap)) ==> CapKept(repository.history, cap)
    ensures sent == |repository.history| - |old(repository.history)|
  {
    sent, stopped := 0, false;
    if due == [] { return; }
    if channel.enabled == None { stopped := true; return; }
    var groups, notEnabled := PlanLoans(due, set w | w in channel.enabled.value);
    assert LoanPlan(groups, due, channel.enabled.value);
    if !dry { sent, stopped := SendPhase(repository, channel.client, Loan, Groups(groups), day, cap); }
  }

  /** The counts a plan is made with are those of the history. */
  ghost predicate CountsOf(counts: map<Wallet, nat>, wallets: seq<Wallet>, h: seq<Send>, day: int) {
    forall w :: w in wallets ==> SentToday(counts, w) == Counted(h, day, w)
  }

  /** The opted-in wallets of an audience that were not told this yet. */
  ghost predicate Pending(pending: seq<Wallet>, audience: seq<Wallet>, h: seq<Send>, phase: Phase) {
    Distinct(pending) && forall w :: w in pending <==> w in audience && !WasMarked(h, phase, w)
  }

  ghost predicate WeeklyPlan(groups: seq<Group>, dropped: seq<Group>, pairs: seq<Assigned>, counts: map<Wallet, nat>,
                             pending: seq<Wallet>, facts: WeeklyFacts, limits: Limits)
    requires facts.holdings.Some?
  {
    && Addressed(pending, WeeklyPush(facts.holdings.value, facts.held, facts.market), counts, limits.dailyCap, pairs)
    && Planned(pairs, groups, dropped, limits.maxRequests)
  }

  ghost predicate WeeklySent(h: seq<Send>, h': seq<Send>, channel: Channel, facts: WeeklyFacts, day: int, dry: bool,
                             limits: Limits, stopped: bool, pending: seq<Wallet>)
  {
    if pending == [] || facts.holdings == None then h' == h && !stopped
    else exists groups, dropped, pairs, counts ::
      CountsOf(counts, pending, h, day) && WeeklyPlan(groups, dropped, pairs, counts, pending, facts, limits)
      && Sends(h, h', channel.client, Weekly(facts.week), groups, day, dry, stopped)
  }

  ghost predicate WeeklyRan(h: seq<Send>, h': seq<Send>, channel: Channel, weekly: Option<WeeklyFacts>, day: int,
                            dry: bool, limits: Limits, stopped: bool)
  {
    if weekly == None then h' == h && !stopped
    else if channel.enabled == None then h' == h && stopped
    else exists pending :: Pending(pending, channel.enabled.value, h, Weekly(weekly.value.week))
                           && WeeklySent(h, h', channel, weekly.value, day, dry, limits, stopped, pending)
  }

  method PlanWeek(pending: seq<Wallet>, facts: WeeklyFacts, counts: map<Wallet, nat>,
                  ghost daily: map<(int, Wallet), nat>, ghost day: int,
                  limits: Limits, messageLe: (string, string) -> bool)
    returns (groups: seq<Group>, dropped: seq<Group>, pairs: seq<Assigned>)
    requires Distinct(pending) && facts.holdings.Some? && TotalPreorder(messageLe)
    requires forall w :: w in pending ==> SentToday(counts, w) == DailyCount(daily, day, w)
    ensures WeeklyPlan(groups, dropped, pairs, counts, pending, facts, limits)
      && RoomFor(daily, day, groups, limits.dailyCap)
    ensures forall w: Wallet :: Turns(groups, w) > 0 ==> w in pending && Turns(groups, w) == 1
  {
    var capped;
    groups, capped, dropped, pairs :=
      PlanWeekly(pending, WeeklyPush(facts.holdings.value, facts.held, facts.market), counts, limits.dailyCap,
                 limits.maxRequests, messageLe);
    KeptIsPlannedFrom(pairs, groups, dropped, limits.maxRequests);
    PlansHaveRoom(groups, pairs, pending, daily, day, limits.dailyCap);
  }

  /** The summary goes to opted-in wallets not marked for the week, below the cap, each
      its own version; an unread balance leaves it for another pass. */
  method WeeklyPhase(repository: NotifyRepository, channel: Channel, weekly: Option<WeeklyFacts>, day: int, dry: bool,
                     limits: Limits, messageLe: (string, string) -> bool)
    returns (sent: nat, stopped: bool)
    requires HonestChannel(channel) && repository.Tied() && day >= repository.horizon && TotalPreorder(messageLe)
    modifies repository`daily, repository`weekly, repository`reopened, repository`history
    ensures repository.Tied() && WeeklyRan(old(repository.history), repository.history, channel, weekly, day, dry,
                                           limits, stopped)
    ensures old(CapKept(repository.history, limits.dailyCap)) ==> CapKept(repository.history, limits.dailyCap)
    ensures sent == |repository.history| - |old(repository.history)|
  {
    sent, stopped := 0, false;
    if weekly == None { return; }
    var facts := weekly.value;
    if channel.enabled == None { stopped := true; return; }
    var already := repository.weekly;
    var pending := Filter(channel.enabled.value, (w: Wallet) => (facts.week, w) !in already);
    assert Pending(pending, channel.enabled.value, repository.history, Weekly(facts.week)) by {
      assert forall w: Wallet :: (facts.week, w) in already <==>
        MarkedIn(repository.weekly, repository.reopened, Weekly(facts.week), w);
    }
    if pending == [] || facts.holdings == None { return; }
    var counts := repository.SentOn(day, pending);
    var groups, dropped, pairs := PlanWeek(pending, facts, counts, repository.daily, day, limits, messageLe);
    assert CountsOf(counts, pending, repository.history, day)
      && WeeklyPlan(groups, dropped, pairs, counts, pending, facts, limits);
    if !dry {
      sent, stopped := SendPhase(repository, channel.client, Weekly(facts.week), groups, day, limits.dailyCap);
    }
  }

  ghost predicate ReopenPlan(groups: seq<Group>, pairs: seq<Assigned>, counts: map<Wallet, nat>, pending: seq<Wallet>,
                             facts: ReopenFacts, kind: ReopenKind, limits: Limits)
  {
    && Addressed(pending, (w: Wallet) => facts.pushOf(kind, w), counts, limits.dailyCap, pairs)
    && multiset(Carried(groups)) == multiset(pairs) && Sized(groups) && Disjoint(groups)
  }

  ghost predicate ReopenSent(h: seq<Send>, h': seq<Send>, channel: Channel, facts: ReopenFacts, kind: ReopenKind,
                             day: int, dry: bool, limits: Limits, stopped: bool, pending: seq<Wallet>)
  {
    if pending == [] then h' == h && !stopped
    else exists groups, pairs, counts ::
      CountsOf(counts, pending, h, day) && ReopenPlan(groups, pairs, counts, pending, facts, kind, limits)
      && Sends(h, h', channel.client, Reopen(facts.id, kind), groups, day, dry, stopped)
  }

  ghost predicate ReopenRan(h: seq<Send>, h': seq<Send>, channel: Channel, reopen: Option<ReopenFacts>, at: int,
                            day: int, dry: bool, limits: Limits, stopped: bool)
  {
    if reopen == None || ReopenDue(reopen.value.round, at) == None then h' == h && !stopped
    else if channel.enabled == None then h' == h && stopped
    else
      var kind := ReopenDue(reopen.value.round, at).value;
      exists pending :: Pending(pending, Audience(reopen.value, kind, channel.enabled.value), h,
                                Reopen(reopen.value.id, kind))
                        && ReopenSent(h, h', channel, reopen.value, kind, day, dry, limits, stopped, pending)
  }

  method ReopenPhase(repository: NotifyRepository, channel: Channel, reopen: Option<ReopenFacts>, at: int, day: int,
                     dry: bool, limits: Limits)
    returns (sent: nat, stopped: bool)
    requires HonestChannel(channel) && repository.Tied() && day >= repository.horizon
    modifies repository`daily, repository`weekly, repository`reopened, repository`history
    ensures repository.Tied() && ReopenRan(old(repository.history), repository.history, channel, reopen, at, day, dry,
                                           limits, stopped)
    ensures old(CapKept(repository.history, limits.dailyCap)) ==> CapKept(repository.history, limits.dailyCap)
    ensures sent == |repository.history| - |old(repository.history)|
  {
    sent, stopped := 0, false;
    if reopen == None { return; }
    var facts := reopen.value;
    var due := ReopenDue(facts.round, at);
    if due == None { return; }
    var kind := due.value;
    if channel.enabled == None { stopped := true; return; }
    var already := repository.reopened;
    var audience := Audience(facts, kind, channel.enabled.value);
    var pending := Filter(audience, (w: Wallet) => (facts.id, kind, w) !in already);
    assert Pending(pending, audience, repository.history, Reopen(facts.id, kind)) by {
      assert forall w: Wallet :: (facts.id, kind, w) in already <==>
        MarkedIn(repository.weekly, repository.reopened, Reopen(facts.id, kind), w);
    }
    if pending == [] { return; }
    var counts := repository.SentOn(day, pending);
    var groups, capped, pairs := PlanReopen(pending, (w: Wallet) => facts.pushOf(kind, w), counts, limits.dailyCap);
    PlansHaveRoom(groups, pairs, pending, repository.daily, day, limits.dailyCap);
    assert CountsOf(counts, pending, repository.history, day)
      && ReopenPlan(groups, pairs, counts, pending, facts, kind, limits);
    if !dry {
      sent, stopped := SendPhase(repository, channel.client, Reopen(facts.id, kind), groups, day, limits.dailyCap);
    }
  }

  /** The store keeps one untold reward a wallet. */
  ghost predicate OneRowAWallet(due: seq<Due>) { forall w: Wallet :: RowsOf(due, w) <= 1 }

  ghost predicate RewardPlan(singles: seq<Single>, due: seq<Due>, enabled: seq<Wallet>, counts: map<Wallet, nat>,
                             cap: nat)
  {
    LetsThrough(singles, due, Admits((set w | w in enabled), counts, cap)) && SinglesFrom(due, singles)
  }

  ghost predicate RewardsRan(h: seq<Send>, h': seq<Send>, channel: Channel, due: seq<Due>, day: int, dry: bool,
                             limits: Limits, stopped: bool)
  {
    if due == [] then h' == h && !stopped
    else if channel.enabled == None then h' == h && stopped
    else exists singles, counts ::
      CountsOf(counts, channel.enabled.value, h, day)
        && RewardPlan(singles, due, channel.enabled.value, counts, limits.dailyCap)
      && Sends(h, h', channel.client, Reward, Groups(singles), day, dry, stopped)
  }

  method RewardPhase(repository: NotifyRepository, channel: Channel, due: seq<Due>, day: int, dry: bool, limits: Limits)
    returns (sent: nat, stopped: bool)
    requires HonestChannel(channel) && repository.Tied() && day >= repository.horizon
    modifies repository`daily, repository`weekly, repository`reopened, repository`history
    ensures repository.Tied() && RewardsRan(old(repository.history), repository.history, channel, due, day, dry,
                                            limits, stopped)
    ensures old(CapKept(repository.history, limits.dailyCap)) && OneRowAWallet(due) ==>
      CapKept(repository.history, limits.dailyCap)
    ensures sent == |repository.history| - |old(repository.history)|
  {
    sent, stopped := 0, false;
    if due == [] { return; }
    if channel.enabled == None { stopped := true; return; }
    var enabled := channel.enabled.value;
    var counts := repository.SentOn(day, enabled);
    var singles, capped, notEnabled := PlanRewards(due, (set w | w in enabled), counts, limits.dailyCap);
    assert CountsOf(counts, enabled, repository.history, day)
      && RewardPlan(singles, due, enabled, counts, limits.dailyCap);
    if OneRowAWallet(due) { RewardsHaveRoom(singles, due, enabled, counts, repository.daily, day, limits.dailyCap); }
    if !dry { sent, stopped := SendPhase(repository, channel.client, Reward, Groups(singles), day, limits.dailyCap); }
  }

  lemma RewardsHaveRoom(singles: seq<Single>, due: seq<Due>, enabled: seq<Wallet>, counts: map<Wallet, nat>,
                        daily: map<(int, Wallet), nat>, day: int, cap: nat)
    requires RewardPlan(singles, due, enabled, counts, cap) && OneRowAWallet(due)
    requires forall w :: w in enabled ==> SentToday(counts, w) == DailyCount(daily, day, w)
    ensures RoomFor(daily, day, Groups(singles), cap)
  {
    forall w: Wallet | Turns(Groups(singles), w) > 0
      ensures DailyCount(daily, day, w) + Turns(Groups(singles), w) <= cap {
      SinglesAreTurns(singles, w);
    }
  }

  // --- the rows behind the cursors ------------------------------------------------------------

  /** Both row logs in the order the cursors walk them; they only ever grow. */
  datatype Feed = Feed(rwa: seq<Signal>, radar: seq<RadarEvent>)

  /** The rows after the cursor, oldest first, without a gap: as many as one read gives. */
  function Ahead<T>(log: seq<T>, cursor: nat, limit: nat): (r: seq<T>)
    requires cursor <= |log|
    ensures r <= log[cursor..] && |r| <= 500 && (r == [] <==> cursor == |log|)
    ensures |r| < |log| - cursor ==> |r| == if limit == 0 then 1 else if limit < 500 then limit else 500
  {
    log[cursor..Min(cursor + Max(1, Min(500, limit)), |log|)]
  }

  ghost predicate InFeed(repository: NotifyRepository, feed: Feed) reads repository {
    && (repository.rwaCursor.Some? ==> repository.rwaCursor.value <= |feed.rwa|)
    && (repository.radarCursor.Some? ==> repository.radarCursor.value <= |feed.radar|)
  }

  datatype Outcome = Off | Stopped | Threw | Dry | Opened | Idle | Told

  /** How far one pass may move one cursor, given how it ended. */
  ghost predicate CursorMoved(before: Option<nat>, after: Option<nat>, length: nat, read: nat, outcome: Outcome) {
    match outcome
    case Off => after == before
    case Stopped => after == before
    case Dry => after == before
    case Opened => after == if before.Some? then before else Some(length)
    case Threw => before.Some? && (after == before || after == Some(before.value + read))
    case _ => before.Some? && after == Some(before.value + read)
  }

  /** Rows of kinds nobody is ever told about go to no audience. */
  lemma {:induction false} NothingSendableNothingHanded(input: Input, n: nat)
    requires n <= |Rows(input)| && input.events == [] && forall i :: 0 <= i < |input.signals| ==>
      !Broadcast(input.signals[i].kind) && !ForWatchers(input.signals[i].kind)
    ensures Count(Rows(input)[..n], IsStale) + Count(Rows(input)[..n], IsUnsent) == n
  {
    var rows := Rows(input);
    if n > 0 {
      NothingSendableNothingHanded(input, n - 1);
      RowsNext(rows, n - 1);
      assert rows[n - 1] == OfSignal(input, input.signals[n - 1]);
    }
  }

  /** What the row phase worked from, when it got as far as a plan. */
  datatype Work = NoWork | Work(input: Input, plan: Plan)

  /** The planner was given what was read, the pass's limits, the watchers when anybody is
      told of such rows, and the balances when a holder might be told something else. */
  ghost predicate AsRead(input: Input, signals: seq<Signal>, events: seq<RadarEvent>, rows: RowContext, limits: Limits)
  {
    && input.signals == signals && input.events == events && input.oldest == rows.oldest
    && input.dailyCap == limits.dailyCap && input.maxRequests == limits.maxRequests
    && (!Unsendable(signals, events) ==> input.watchers == rows.watchers)
    && (input.holdings == rows.holdings || input.holdings == None)
    && (input.enabled != [] && (exists s :: s in signals && ForHolders(s.kind)) ==> input.holdings == rows.holdings)
  }

  ghost predicate Worked(work: Work, signals: seq<Signal>, events: seq<RadarEvent>, rows: RowContext, limits: Limits) {
    work.Work? ==> AsRead(work.input, signals, events, rows, limits) && PlansWell(work.input, work.plan)
  }

  /** How a row phase ends. A pass that finds a cursor missing opens it and reads nothing;
      one that stopped nowhere is dry, or moves its cursors unless a write fails, and was
      for something when it or a phase before it had a push to send. */
  ghost predicate Ended(ready: bool, work: Work, signals: seq<Signal>, events: seq<RadarEvent>, dry: bool,
                        phasesSent: int, writes: nat, outcome: Outcome)
  {
    if !ready then outcome == (if dry then Dry else Opened) && signals == [] && events == []
    else outcome != Stopped ==>
      outcome == if dry && (signals != [] || events != []) then Dry
                 else if writes < WritesFor(|signals|, |events|) then Threw
                 else if phasesSent > 0 || HadGroups(work, signals, events) then Told else Idle
  }

  ghost predicate HadGroups(work: Work, signals: seq<Signal>, events: seq<RadarEvent>) {
    !Unsendable(signals, events) && work.Work? && work.plan.groups != []
  }

  ghost predicate CountsRows(rows: seq<Disposition>, plan: Plan) {
    plan.stale == Count(rows, IsStale) && plan.unsent == Count(rows, IsUnsent)
  }

  ghost predicate ReachesWell(input: Input, ds: seq<Delivery>, plan: Plan, pairs: seq<Assigned>, dropped: seq<Group>) {
    && OwnSummaries(input, ds, pairs)
    && Planned(pairs, plan.groups, dropped, input.maxRequests) && plan.dropped == |dropped|
  }

  /** A plan as the planner promises it. */
  ghost predicate PlansWell(input: Input, plan: Plan) {
    && CountsRows(Rows(input), plan)
    && exists pairs, dropped :: ReachesWell(input, AllDeliveries(Rows(input)), plan, pairs, dropped)
  }

  function WritesFor(signals: nat, events: nat): nat {
    (if signals > 0 then 1 else 0) + if events > 0 then 1 else 0
  }

  /** Moves each cursor to the last row read, the signals' first; `writes` of the
      two updates go through. */
  method Advance(repository: NotifyRepository, signals: nat, events: nat, writes: nat) returns (ok: bool)
    requires repository.rwaCursor.Some? && repository.radarCursor.Some?
    modifies repository`rwaCursor, repository`radarCursor
    ensures CursorMoved(old(repository.rwaCursor), repository.rwaCursor, 0, signals, if ok then Told else Threw)
    ensures CursorMoved(old(repository.radarCursor), repository.radarCursor, 0, events, if ok then Told else Threw)
    ensures ok <==> writes >= WritesFor(signals, events)
    ensures repository.rwaCursor ==
      if signals > 0 && writes > 0 then Some(old(repository.rwaCursor.value) + signals) else old(repository.rwaCursor)
  {
    var left := writes;
    if signals > 0 {
      if left == 0 { return false; }
      repository.rwaCursor := Some(repository.rwaCursor.value + signals);
      left := left - 1;
    }
    if events > 0 {
      if left == 0 { return false; }
      repository.radarCursor := Some(repository.radarCursor.value + events);
    }
    ok := true;
  }

  lemma OwnSummariesBelowCap(input: Input, ds: seq<Delivery>, pairs: seq<Assigned>, daily: map<(int, Wallet), nat>,
                             day: int)
    requires OwnSummaries(input, ds, pairs)
    requires forall w :: w in input.enabled ==> SentToday(input.sentToday, w) == DailyCount(daily, day, w)
    ensures BelowCap(pairs, input.enabled, daily, day, input.dailyCap)
  {
    forall a | a in pairs ensures a.wallet in input.enabled && DailyCount(daily, day, a.wallet) < input.dailyCap {
      var i :| 0 <= i < |pairs| && pairs[i] == a;
      assert pairs[i].wallet == a.wallet;
      assert Eligible(input, ds, a.wallet);
    }
  }

  datatype RowContext = RowContext(feed: Feed, watchers: seq<Watch>, holdings: Option<map<Wallet, set<Token>>>,
                                   oldest: int, writes: nat)

  /** The planner's plan, which leaves room in the day's counts it was made with. */
  method PlanRows(input: Input, ghost daily: map<(int, Wallet), nat>, ghost day: int,
                  messageLe: (string, string) -> bool) returns (plan: Plan)
    requires Distinct(input.enabled) && TotalPreorder(messageLe)
    requires forall w :: w in input.enabled ==> SentToday(input.sentToday, w) == DailyCount(daily, day, w)
    ensures PlansWell(input, plan) && RoomFor(daily, day, plan.groups, input.dailyCap)
  {
    var dropped, pairs;
    plan, dropped, pairs := PlanEvents(input, messageLe);
    KeptIsPlannedFrom(pairs, plan.groups, dropped, input.maxRequests);
    OwnSummariesBelowCap(input, AllDeliveries(Rows(input)), pairs, daily, day);
    assert ReachesWell(input, AllDeliveries(Rows(input)), plan, pairs, dropped);
    PlansHaveRoom(plan.groups, pairs, input.enabled, daily, day, input.dailyCap);
  }

  /** Rows nobody is ever told of. */
  ghost predicate Unsendable(signals: seq<Signal>, events: seq<RadarEvent>) {
    events == [] && forall i :: 0 <= i < |signals| ==> !Broadcast(signals[i].kind) && !ForWatchers(signals[i].kind)
  }

  /** What the row phase did, from the history before it to the history after: nothing
      for rows nobody is told about, or when the provider does not say who listens. */
  ghost predicate RowsRan(h: seq<Send>, h': seq<Send>, channel: Channel, signals: seq<Signal>, events: seq<RadarEvent>,
                          work: Work, day: int, dry: bool, stopped: bool)
  {
    if Unsendable(signals, events) then h' == h && !stopped
    else if work.NoWork? then h' == h && stopped && channel.enabled == None
    else
      && channel.enabled == Some(work.input.enabled) && CountsOf(work.input.sentToday, work.input.enabled, h, day)
      && Sends(h, h', channel.client, Events, work.plan.groups, day, dry, stopped)
  }

  method NobodyIsTold(signals: seq<Signal>, events: seq<RadarEvent>) returns (silent: bool)
    ensures silent <==> Unsendable(signals, events)
  {
    silent := events == []
      && forall i :: 0 <= i < |signals| ==> !Broadcast(signals[i].kind) && !ForWatchers(signals[i].kind);
  }

  /** Balances are read only where a holder might be told something else. */
  method AsksHoldings(signals: seq<Signal>, enabled: seq<Wallet>) returns (asked: bool)
    ensures asked <==> enabled != [] && exists s :: s in signals && ForHolders(s.kind)
  {
    asked := enabled != [] && exists i :: 0 <= i < |signals| && ForHolders(signals[i].kind);
  }

  /** Plans and sends what was read; the cursors are left to the caller. Nobody is asked
      about rows no one is told of. */
  method SendRows(repository: NotifyRepository, channel: Channel, rows: RowContext, signals: seq<Signal>,
                  events: seq<RadarEvent>, day: int, dry: bool, limits: Limits, messageLe: (string, string) -> bool)
    returns (stopped: bool, groups: nat, ghost work: Work)
    requires HonestChannel(channel) && repository.Tied() && day >= repository.horizon && TotalPreorder(messageLe)
    modifies repository`daily, repository`weekly, repository`reopened, repository`history
    ensures repository.Tied()
    ensures old(CapKept(repository.history, limits.dailyCap)) ==> CapKept(repository.history, limits.dailyCap)
    ensures Worked(work, signals, events, rows, limits)
    ensures RowsRan(old(repository.history), repository.history, channel, signals, events, work, day, dry, stopped)
    ensures !stopped ==> (groups > 0 <==> HadGroups(work, signals, events))
  {
    stopped, groups, work := false, 0, NoWork;
    var silent := NobodyIsTold(signals, events);
    if !silent && channel.enabled == None { stopped := true; return; }
    var enabled := if silent then [] else channel.enabled.value;
    var counts := repository.SentOn(day, enabled);
    var asked := AsksHoldings(signals, enabled);
    var input := Input(signals, events, if silent then [] else rows.watchers, enabled, counts,
                       if asked then rows.holdings else None, rows.oldest, limits.dailyCap, limits.maxRequests);
    var plan := PlanRows(input, repository.daily, day, messageLe);
    work := Work(input, plan);
    if !silent {
      groups := |plan.groups|;
      if !dry {
        var sent;
        sent, stopped := SendPhase(repository, channel.client, Events, plan.groups, day, limits.dailyCap);
      }
    }
  }

  lemma {:induction false} NothingFailed(client: Client, groups: seq<Group>, n: nat)
    requires n <= |groups|
    requires var tried := Tried(client, groups, n); tried > n ==> !Failing(client, tried - 1, groups[tried - 1])
    ensures forall i :: n <= i < |groups| ==> !Failing(client, i, groups[i])
    ensures Tried(client, groups, n) == |groups|
    decreases |groups| - n
  {
    if n < |groups| && !Failing(client, n, groups[n]) { NothingFailed(client, groups, n + 1); }
  }

  /** A phase stops exactly when one of its groups was refused for anything but its
      payload, or was taken by somebody and could not be recorded. */
  lemma StopsExactlyWhen(h: seq<Send>, h': seq<Send>, client: Client, phase: Phase, groups: seq<Group>, day: int,
                         stopped: bool)
    requires Ran(h, h', client, phase, groups, day, stopped)
    ensures stopped <==> exists i ::
              && 0 <= i < |groups| && !client.send(i, groups[i]).BadRequest?
              && (client.send(i, groups[i]).Delivered? ==>
                    client.send(i, groups[i]).sent != [] && client.recordFault(i).Some?)
  {
    if !stopped { NothingFailed(client, groups, 0); }
  }

  /** What a row phase that was neither dry nor stopped has done before it moves a
      cursor: every kept group was tried and none met a failure other than a refused
      payload, or there was nothing to tell. */
  lemma CursorsWaitForEveryGroup(h: seq<Send>, h': seq<Send>, channel: Channel, signals: seq<Signal>,
                                 events: seq<RadarEvent>, work: Work, day: int)
    requires RowsRan(h, h', channel, signals, events, work, day, false, false) && !Unsendable(signals, events)
    ensures work.Work? && h' == h + PushLog(channel.client, Events, work.plan.groups, day)
    ensures forall i :: 0 <= i < |work.plan.groups| ==> !Failing(channel.client, i, work.plan.groups[i])
  {
    NothingFailed(channel.client, work.plan.groups, 0);
    assert work.plan.groups[..|work.plan.groups|] == work.plan.groups;
  }

  /** Opens a missing cursor at the newest row. */
  method OpenCursors(repository: NotifyRepository, feed: Feed) returns (openedNow: bool)
    modifies repository`rwaCursor, repository`radarCursor
    ensures openedNow <==> old(repository.rwaCursor) == None || old(repository.radarCursor) == None
    ensures CursorMoved(old(repository.rwaCursor), repository.rwaCursor, |feed.rwa|, 0, Opened)
    ensures CursorMoved(old(repository.radarCursor), repository.radarCursor, |feed.radar|, 0, Opened)
  {
    openedNow := false;
    if repository.rwaCursor == None {
      repository.rwaCursor := Some(|feed.rwa|);
      openedNow := true;
    }
    if repository.radarCursor == None {
      repository.radarCursor := Some(|feed.radar|);
      openedNow := true;
    }
  }

  /** Moves the cursors over what was dealt with, in a pass that is not dry and was not
      stopped, and says how the pass ended. */
  method Conclude(repository: NotifyRepository, stopped: bool, dry: bool, signals: nat, events: nat, writes: nat,
                  told: bool) returns (outcome: Outcome)
    requires repository.rwaCursor.Some? && repository.radarCursor.Some?
    modifies repository`rwaCursor, repository`radarCursor
    ensures CursorMoved(old(repository.rwaCursor), repository.rwaCursor, 0, signals, outcome)
    ensures CursorMoved(old(repository.radarCursor), repository.radarCursor, 0, events, outcome)
    ensures outcome == Stopped <==> stopped
    ensures outcome == Dry <==> !stopped && dry
    ensures !stopped && !dry ==>
      outcome == if writes < WritesFor(signals, events) then Threw else if told then Told else Idle
  {
    if stopped { return Stopped; }
    if dry { return Dry; }
    var ok := Advance(repository, signals, events, writes);
    outcome := if !ok then Threw else if told then Told else Idle;
  }

  /** Something was read: deal with it, then conclude. */
  method WorkRows(repository: NotifyRepository, channel: Channel, rows: RowContext, signals: seq<Signal>,
                  events: seq<RadarEvent>,
                  day: int, dry: bool, limits: Limits, phasesSent: nat, messageLe: (string, string) -> bool)
    returns (outcome: Outcome, ghost work: Work)
    requires HonestChannel(channel) && repository.Tied() && day >= repository.horizon && TotalPreorder(messageLe)
    requires repository.rwaCursor.Some? && repository.radarCursor.Some? && (signals != [] || events != [])
    modifies repository`daily, repository`weekly, repository`reopened, repository`history, repository`rwaCursor,
      repository`radarCursor
    ensures repository.Tied()
    ensures old(CapKept(repository.history, limits.dailyCap)) ==> CapKept(repository.history, limits.dailyCap)
    ensures CursorMoved(old(repository.rwaCursor), repository.rwaCursor, 0, |signals|, outcome)
    ensures CursorMoved(old(repository.radarCursor), repository.radarCursor, 0, |events|, outcome)
    ensures Worked(work, signals, events, rows, limits)
    ensures Ended(true, work, signals, events, dry, phasesSent, rows.writes, outcome)
    ensures RowsRan(old(repository.history), repository.history, channel, signals, events, work, day, dry,
                    outcome == Stopped)
  {
    var stopped, groups;
    stopped, groups, work := SendRows(repository, channel, rows, signals, events, day, dry, limits, messageLe);
    outcome := Conclude(repository, stopped, dry, |signals|, |events|, rows.writes, phasesSent > 0 || groups > 0);
  }

  lemma OnlyOpenedByLength(before: Option<nat>, after: Option<nat>, length: nat, read: nat, outcome: Outcome)
    requires CursorMoved(before, after, 0, read, outcome) && outcome != Opened
    ensures CursorMoved(before, after, length, read, outcome)
  {
  }

  /** With both cursors open: the rows behind them, or a quiet pass that prunes. */
  method ReadRows(repository: NotifyRepository, channel: Channel, rows: RowContext, day: int, dry: bool,
                  limits: Limits, phasesSent: nat, messageLe: (string, string) -> bool)
    returns (outcome: Outcome, ghost work: Work, ghost signals: seq<Signal>, ghost events: seq<RadarEvent>)
    requires HonestChannel(channel) && repository.Tied() && day >= repository.horizon && TotalPreorder(messageLe)
    requires InFeed(repository, rows.feed) && repository.rwaCursor.Some? && repository.radarCursor.Some?
    modifies repository
    ensures repository.Tied()
    ensures old(CapKept(repository.history, limits.dailyCap)) ==> CapKept(repository.history, limits.dailyCap)
    ensures signals == Ahead(rows.feed.rwa, old(repository.rwaCursor).value, limits.perSource)
      && events == Ahead(rows.feed.radar, old(repository.radarCursor).value, limits.perSource)
    ensures CursorMoved(old(repository.rwaCursor), repository.rwaCursor, |rows.feed.rwa|, |signals|, outcome)
    ensures CursorMoved(old(repository.radarCursor), repository.radarCursor, |rows.feed.radar|, |events|, outcome)
    ensures Worked(work, signals, events, rows, limits)
    ensures Ended(true, work, signals, events, dry, phasesSent, rows.writes, outcome)
    ensures RowsRan(old(repository.history), repository.history, channel, signals, events, work, day, dry,
                    outcome == Stopped)
    ensures outcome !in {Off, Opened}
    ensures old(repository.horizon) <= repository.horizon <= Max(old(repository.horizon), day - 7)
    ensures dry ==>
      && repository.history == old(repository.history)
      && repository.rwaCursor == old(repository.rwaCursor) && repository.radarCursor == old(repository.radarCursor)
  {
    work := NoWork;
    var read := Ahead(rows.feed.rwa, repository.rwaCursor.value, limits.perSource);
    var readEvents := Ahead(rows.feed.radar, repository.radarCursor.value, limits.perSource);
    signals, events := read, readEvents;
    if read == [] && readEvents == [] {
      if !dry { repository.PruneDaily(day - 7); }
      outcome := if phasesSent > 0 then Told else Idle;
      return;
    }
    outcome, work := WorkRows(repository, channel, rows, read, readEvents, day, dry, limits, phasesSent, messageLe);
    OnlyOpenedByLength(old(repository.rwaCursor), repository.rwaCursor, |rows.feed.rwa|, |signals|, outcome);
    OnlyOpenedByLength(old(repository.radarCursor), repository.radarCursor, |rows.feed.radar|, |events|, outcome);
  }

  /** The rows behind the cursors. A cursor moves only in a pass that is not dry and
      tried every kept group without a failure, or had nothing to tell; it then moves
      over exactly the rows read. */
  method RowPhase(repository: NotifyRepository, channel: Channel, rows: RowContext, day: int, dry: bool,
                  limits: Limits, phasesSent: nat, messageLe: (string, string) -> bool)
    returns (outcome: Outcome, ghost work: Work, ghost signals: seq<Signal>, ghost events: seq<RadarEvent>)
    requires HonestChannel(channel) && repository.Tied() && day >= repository.horizon && TotalPreorder(messageLe)
    requires InFeed(repository, rows.feed)
    modifies repository
    ensures repository.Tied()
    ensures old(CapKept(repository.history, limits.dailyCap)) ==> CapKept(repository.history, limits.dailyCap)
    ensures CursorMoved(old(repository.rwaCursor), repository.rwaCursor, |rows.feed.rwa|, |signals|, outcome)
    ensures CursorMoved(old(repository.radarCursor), repository.radarCursor, |rows.feed.radar|, |events|, outcome)
    ensures old(repository.rwaCursor).Some? && old(repository.radarCursor).Some? ==>
      && signals == Ahead(rows.feed.rwa, old(repository.rwaCursor).value, limits.perSource)
      && events == Ahead(rows.feed.radar, old(repository.radarCursor).value, limits.perSource)
    ensures Worked(work, signals, events, rows, limits)
    ensures Ended(old(repository.rwaCursor).Some? && old(repository.radarCursor).Some?, work, signals, events, dry,
                  phasesSent, rows.writes, outcome)
    ensures RowsRan(old(repository.history), repository.history, channel, signals, events, work, day, dry,
                    outcome == Stopped)
    ensures outcome != Off
    ensures old(repository.horizon) <= repository.horizon <= Max(old(repository.horizon), day - 7)
    ensures dry ==>
      && repository.history == old(repository.history)
      && repository.rwaCursor == old(repository.rwaCursor) && repository.radarCursor == old(repository.radarCursor)
  {
    work, signals, events := NoWork, [], [];
    if dry && (repository.rwaCursor == None || repository.radarCursor == None) { outcome := Dry; return; }
    var openedNow := OpenCursors(repository, rows.feed);
    if openedNow { outcome := Opened; return; }
    assert repository.rwaCursor == old(repository.rwaCursor) && repository.radarCursor == old(repository.radarCursor);
    outcome, work, signals, events := ReadRows(repository, channel, rows, day, dry, limits, phasesSent, messageLe);
  }

  // --- one pass -----------------------------------------------------------------------------------

  datatype Turn = Turn(hasClient: bool, dry: bool, at: int, day: int, limits: Limits,
                       loans: seq<Due>, weekly: Option<WeeklyFacts>, reopen: Option<ReopenFacts>,
                       rewards: seq<Due>, rows: RowContext,
                       loanChannel: Channel, weeklyChannel: Channel, reopenChannel: Channel,
                       rewardChannel: Channel, rowChannel: Channel)

  ghost predicate HonestTurn(t: Turn) {
    HonestChannel(t.loanChannel) && HonestChannel(t.weeklyChannel) && HonestChannel(t.reopenChannel)
    && HonestChannel(t.rewardChannel) && HonestChannel(t.rowChannel)
  }

  /** The history after each clock-driven phase, and whether one of the first three
      stopped the pass. */
  datatype Trail = Trail(loans: seq<Send>, loansStop: bool, weekly: seq<Send>, weeklyStop: bool, reopen: seq<Send>,
                         reopenStop: bool)

  /** The phases ran one after the other, each on the history the one before it left,
      until one stopped the pass. */
  ghost predicate ClockRan(t: Turn, h: seq<Send>, h': seq<Send>, trail: Trail, stopped: bool) {
    && LoansRan(h, trail.loans, t.loanChannel, t.loans, t.day, t.dry, trail.loansStop)
    && if trail.loansStop then stopped && h' == trail.loans
       else
         && WeeklyRan(trail.loans, trail.weekly, t.weeklyChannel, t.weekly, t.day, t.dry, t.limits, trail.weeklyStop)
         && if trail.weeklyStop then stopped && h' == trail.weekly
            else
              && ReopenRan(trail.weekly, trail.reopen, t.reopenChannel, t.reopen, t.at, t.day, t.dry, t.limits,
                           trail.reopenStop)
              && if trail.reopenStop then stopped && h' == trail.reopen
                 else RewardsRan(trail.reopen, h', t.rewardChannel, t.rewards, t.day, t.dry, t.limits, stopped)
  }

  /** The clock-driven phases in order; the first that stops ends the pass. */
  method ClockPhases(repository: NotifyRepository, t: Turn, messageLe: (string, string) -> bool)
    returns (sent: nat, stopped: bool, ghost trail: Trail)
    requires HonestTurn(t) && repository.Tied() && t.day >= repository.horizon && TotalPreorder(messageLe)
    modifies repository`daily, repository`weekly, repository`reopened, repository`history
    ensures repository.Tied() && ClockRan(t, old(repository.history), repository.history, trail, stopped)
    ensures old(CapKept(repository.history, t.limits.dailyCap)) && OneRowAWallet(t.rewards) ==>
      CapKept(repository.history, t.limits.dailyCap)
    ensures sent == |repository.history| - |old(repository.history)|
  {
    var loans, weekly, reopen, rewards;
    trail := Trail([], false, [], false, [], false);
    loans, stopped := LoanPhase(repository, t.loanChannel, t.loans, t.day, t.dry, t.limits.dailyCap);
    sent := loans;
    trail := trail.(loans := repository.history, loansStop := stopped);
    if stopped { return; }
    weekly, stopped := WeeklyPhase(repository, t.weeklyChannel, t.weekly, t.day, t.dry, t.limits, messageLe);
    sent := sent + weekly;
    trail := trail.(weekly := repository.history, weeklyStop := stopped);
    if stopped { return; }
    reopen, stopped := ReopenPhase(repository, t.reopenChannel, t.reopen, t.at, t.day, t.dry, t.limits);
    sent := sent + reopen;
    trail := trail.(reopen := repository.history, reopenStop := stopped);
    if stopped { return; }
    rewards, stopped := RewardPhase(repository, t.rewardChannel, t.rewards, t.day, t.dry, t.limits);
    sent := sent + rewards;
  }

  /** What a pass leaves to the next: the history and both cursors. */
  datatype Books = Books(history: seq<Send>, rwa: Option<nat>, radar: Option<nat>)

  ghost function BooksOf(repository: NotifyRepository): Books reads repository {
    Books(repository.history, repository.rwaCursor, repository.radarCursor)
  }

  ghost predicate WithinFeed(books: Books, feed: Feed) {
    && (books.rwa.Some? ==> books.rwa.value <= |feed.rwa|)
    && (books.radar.Some? ==> books.radar.value <= |feed.radar|)
  }

  /** How one pass went: `clock` says whether a clock-driven phase stopped it, `middle`
      is the history those phases left, and the rest is what the row phase read and
      worked from. */
  datatype Passing = Passing(outcome: Outcome, clock: bool, trail: Trail, middle: seq<Send>,
                             work: Work, signals: seq<Signal>, events: seq<RadarEvent>)

  /** What a pass read and where it left the cursors. */
  ghost predicate Walked(t: Turn, a: Books, b: Books, p: Passing) {
    && WithinFeed(a, t.rows.feed)
    && (p.outcome == Off <==> !t.hasClient)
    && (t.hasClient && p.clock ==> p.outcome == Stopped)
    && (t.hasClient && !p.clock && a.rwa.Some? && a.radar.Some? ==>
          && p.signals == Ahead(t.rows.feed.rwa, a.rwa.value, t.limits.perSource)
          && p.events == Ahead(t.rows.feed.radar, a.radar.value, t.limits.perSource))
    && CursorMoved(a.rwa, b.rwa, |t.rows.feed.rwa|, |p.signals|, p.outcome)
    && CursorMoved(a.radar, b.radar, |t.rows.feed.radar|, |p.events|, p.outcome)
    && (t.dry ==> b.rwa == a.rwa && b.radar == a.radar)
  }

  /** One pass from the books it found to the books it left: off without a client;
      otherwise the clock-driven phases, and the rows unless one of those stopped it. */
  ghost predicate PassRan(t: Turn, a: Books, b: Books, p: Passing) {
    && Walked(t, a, b, p) && Worked(p.work, p.signals, p.events, t.rows, t.limits)
    && (t.hasClient && !p.clock ==>
          Ended(a.rwa.Some? && a.radar.Some?, p.work, p.signals, p.events, t.dry, |p.middle| - |a.history|,
                t.rows.writes, p.outcome))
    && if !t.hasClient then b.history == a.history
       else
         && ClockRan(t, a.history, p.middle, p.trail, p.clock)
         && if p.clock then b.history == p.middle
            else RowsRan(p.middle, b.history, t.rowChannel, p.signals, p.events, p.work, t.day, t.dry,
                         p.outcome == Stopped)
  }

  /** One pass: the clock-driven phases and then the rows, each adding to the history
      exactly what its plan and the answers to it say. It keeps the books tied to what
      was pushed, keeps the daily cap as long as no wallet has two rewards due at once,
      moves a cursor only over rows it dealt with, and prunes no count younger than a week. */
  method RunPass(repository: NotifyRepository, t: Turn, messageLe: (string, string) -> bool)
    returns (outcome: Outcome, ghost p: Passing)
    requires HonestTurn(t) && repository.Tied() && t.day >= repository.horizon && TotalPreorder(messageLe)
    requires WithinFeed(BooksOf(repository), t.rows.feed)
    modifies repository
    ensures repository.Tied()
    ensures old(CapKept(repository.history, t.limits.dailyCap)) && OneRowAWallet(t.rewards) ==>
      CapKept(repository.history, t.limits.dailyCap)
    ensures p.outcome == outcome && PassRan(t, old(BooksOf(repository)), BooksOf(repository), p)
    ensures old(repository.horizon) <= repository.horizon <= Max(old(repository.horizon), t.day - 7)
  {
    outcome, p := Off, Passing(Off, false, Trail([], false, [], false, [], false), repository.history, NoWork, [], []);
    if !t.hasClient { return; }
    var sent, stopped;
    ghost var trail;
    sent, stopped, trail := ClockPhases(repository, t, messageLe);
    p := Passing(Stopped, stopped, trail, repository.history, NoWork, [], []);
    if stopped { outcome := Stopped; return; }
    ghost var work, signals, events;
    outcome, work, signals, events := RowPhase(repository, t.rowChannel, t.rows, t.day, t.dry, t.limits, sent,
                                               messageLe);
    p := p.(outcome := outcome, work := work, signals := signals, events := events);
  }

  // --- any number of passes ------------------------------------------------------------------------

  /** The clock never falls back by more than the week of counts that is kept, the row
      logs only grow, one cap applies throughout, and no wallet has two rewards due. */
  ghost predicate GoodTurns(turns: seq<Turn>, cap: nat, horizon: int) {
    && (forall i :: 0 <= i < |turns| ==>
          HonestTurn(turns[i]) && OneRowAWallet(turns[i].rewards) && turns[i].limits.dailyCap == cap
            && turns[i].day >= horizon)
    && (forall i, j :: 0 <= i < j < |turns| ==> turns[j].day >= turns[i].day - 7)
    && Growing(turns)
  }

  ghost predicate Growing(turns: seq<Turn>) {
    forall i, j :: 0 <= i < j < |turns| ==>
      turns[i].rows.feed.rwa <= turns[j].rows.feed.rwa && turns[i].rows.feed.radar <= turns[j].rows.feed.radar
  }

  /** Pass after pass, each from the books the one before it left. */
  ghost predicate RunRan(turns: seq<Turn>, books: seq<Books>, passes: seq<Passing>) {
    && |books| == |turns| + 1 && |passes| == |turns|
    && forall i :: 0 <= i < |turns| ==> RanAt(turns, books, passes, i)
  }

  ghost predicate RanAt(turns: seq<Turn>, books: seq<Books>, passes: seq<Passing>, i: nat)
    requires i < |turns| && |books| == |turns| + 1 && |passes| == |turns|
  {
    PassRan(turns[i], books[i], books[i + 1], passes[i])
  }

  lemma StaysWithinFeed(t: Turn, a: Books, b: Books, p: Passing)
    requires Walked(t, a, b, p)
    ensures WithinFeed(b, t.rows.feed)
  {
  }

  /** Any sequence of passes over one channel. Throughout: pushes outside the loan phase
      stay within the cap, and no weekly or reopen push follows one marked for the same
      week, or round and kind. */
  method RunPasses(repository: NotifyRepository, turns: seq<Turn>, messageLe: (string, string) -> bool, ghost cap: nat)
    returns (ghost books: seq<Books>, ghost passes: seq<Passing>)
    requires repository.Tied() && CapKept(repository.history, cap) && TotalPreorder(messageLe)
    requires GoodTurns(turns, cap, repository.horizon)
    requires turns != [] ==> WithinFeed(BooksOf(repository), turns[0].rows.feed)
    modifies repository
    ensures RunRan(turns, books, passes) && books[0] == old(BooksOf(repository))
      && books[|turns|] == BooksOf(repository)
    ensures repository.Tied() && SentOnce(repository.history) && CapKept(repository.history, cap)
    ensures forall day, w: Wallet :: CountedCapped(repository.history, day, w) <= cap
  {
    books, passes := [BooksOf(repository)], [];
    for n := 0 to |turns|
      invariant repository.Tied() && CapKept(repository.history, cap)
      invariant RunRan(turns[..n], books, passes) && books[0] == old(BooksOf(repository))
        && books[n] == BooksOf(repository)
      invariant n < |turns| ==> WithinFeed(BooksOf(repository), turns[n].rows.feed)
      invariant forall j :: n <= j < |turns| ==> turns[j].day >= repository.horizon
    {
      ghost var before := BooksOf(repository);
      var outcome;
      ghost var p;
      outcome, p := RunPass(repository, turns[n], messageLe);
      StaysWithinFeed(turns[n], before, BooksOf(repository), p);
      RunRanNext(turns, n, books, passes, BooksOf(repository), p);
      books, passes := books + [BooksOf(repository)], passes + [p];
    }
    assert turns[..|turns|] == turns;
    forall day, w: Wallet ensures CountedCapped(repository.history, day, w) <= cap {
      RecordedStayWithinTheCap(repository.history, cap, day, w);
    }
  }

  lemma SameRanAt(turns: seq<Turn>, books: seq<Books>, passes: seq<Passing>, i: nat,
                  turns': seq<Turn>, books': seq<Books>, passes': seq<Passing>)
    requires |books| == |turns| + 1 && |passes| == |turns| && |books'| == |turns'| + 1 && |passes'| == |turns'|
    requires i < |turns| && i < |turns'| && turns[i] == turns'[i] && passes[i] == passes'[i]
    requires books[i] == books'[i] && books[i + 1] == books'[i + 1]
    ensures RanAt(turns, books, passes, i) == RanAt(turns', books', passes', i)
  {
  }

  lemma RunRanNext(turns: seq<Turn>, n: nat, books: seq<Books>, passes: seq<Passing>, b: Books, p: Passing)
    requires n < |turns| && RunRan(turns[..n], books, passes) && PassRan(turns[n], books[n], b, p)
    ensures RunRan(turns[..n + 1], books + [b], passes + [p])
  {
    var turns', books', passes' := turns[..n + 1], books + [b], passes + [p];
    forall i | 0 <= i < n + 1 ensures RanAt(turns', books', passes', i) {
      if i < n { SameRanAt(turns[..n], books, passes, i, turns', books', passes'); }
    }
  }

  // --- no row is skipped ---------------------------------------------------------------------------

  /** Where a cursor stood before and after each pass of a run, what was read, and
      how the pass ended. */
  datatype Move = Move(before: Option<nat>, after: Option<nat>, length: nat, read: nat, outcome: Outcome)

  ghost function RwaMoves(turns: seq<Turn>, books: seq<Books>, passes: seq<Passing>): seq<Move>
    requires |books| == |turns| + 1 && |passes| == |turns|
  {
    seq(|turns|, i requires 0 <= i < |turns| =>
      Move(books[i].rwa, books[i + 1].rwa, |turns[i].rows.feed.rwa|, |passes[i].signals|, passes[i].outcome))
  }

  ghost function RadarMoves(turns: seq<Turn>, books: seq<Books>, passes: seq<Passing>): seq<Move>
    requires |books| == |turns| + 1 && |passes| == |turns|
  {
    seq(|turns|, i requires 0 <= i < |turns| =>
      Move(books[i].radar, books[i + 1].radar, |turns[i].rows.feed.radar|, |passes[i].events|, passes[i].outcome))
  }

  ghost predicate Allowed(m: Move) { CursorMoved(m.before, m.after, m.length, m.read, m.outcome) }

  ghost predicate Chained(moves: seq<Move>) {
    && (forall i :: 0 <= i < |moves| ==> Allowed(moves[i]))
    && (forall i :: 0 < i < |moves| ==> moves[i].before == moves[i - 1].after)
  }

  /** Where the cursor stood when it was opened, or where the run found it. */
  ghost function Opening(moves: seq<Move>): Option<nat> {
    if moves == [] then None
    else
      var front, last := Opening(moves[..|moves| - 1]), moves[|moves| - 1];
      if front.Some? then front else if last.before.Some? then last.before else last.after
  }

  /** Row `row` was among the rows pass `m` read and moved over. */
  ghost predicate Passed(m: Move, row: nat) {
    m.before.Some? && m.after.Some? && m.before.value <= row < m.after.value && m.after.value == m.before.value + m.read
  }

  /** Over any chain of passes a cursor, once open, only moves forward, and every row
      it has moved over was read by exactly one pass that moved it. */
  lemma {:induction false} NoRowIsSkipped(moves: seq<Move>, row: nat)
    requires Chained(moves) && moves != []
    ensures var end := moves[|moves| - 1].after; var opening := Opening(moves);
      && (opening.Some? <==> end.Some?)
      && (end.Some? ==> opening.value <= end.value)
      && (end.Some? && opening.value <= row < end.value <==> exists i :: 0 <= i < |moves| && Passed(moves[i], row))
      && (forall i :: 0 <= i < |moves| && moves[i].after.Some? ==> end.Some? && moves[i].after.value <= end.value)
    ensures forall i, j :: 0 <= i < j < |moves| && Passed(moves[i], row) ==> !Passed(moves[j], row)
    decreases |moves|
  {
    var last := moves[|moves| - 1];
    var front := moves[..|moves| - 1];
    LastMove(last, row);
    if front == [] {
      assert Opening(front) == None;
    } else {
      NoRowIsSkipped(front, row);
      assert last.before == front[|front| - 1].after;
    }
    if i :| 0 <= i < |front| && Passed(front[i], row) { assert moves[i] == front[i]; }
    if i :| 0 <= i < |moves| && Passed(moves[i], row) { assert i < |front| ==> front[i] == moves[i]; }
    forall i | 0 <= i < |moves| && moves[i].after.Some?
      ensures last.after.Some? && moves[i].after.value <= last.after.value {
      if i < |front| { assert front[i] == moves[i]; }
    }
    forall i, j | 0 <= i < j < |moves| && Passed(moves[i], row) ensures !Passed(moves[j], row) {
      assert front[i] == moves[i];
      if j < |front| { assert front[j] == moves[j]; }
    }
  }

  lemma LastMove(m: Move, row: nat)
    requires Allowed(m)
    ensures m.before.Some? ==> m.after.Some? && m.before.value <= m.after.value
    ensures Passed(m, row) <==> m.before.Some? && m.before.value <= row < m.after.value
  {
  }

  /** The row phase of a pass finished: nobody is told of rows like those it read, or it
      planned from exactly them, tried every kept group, met no failure but refused
      payloads, and everything the answers said was taken is in the history. */
  ghost predicate DealtWith(t: Turn, b: Books, p: Passing) {
    && t.hasClient && !t.dry && !p.clock && p.outcome != Stopped
    && (!Unsendable(p.signals, p.events) ==>
          && p.work.Work? && AsRead(p.work.input, p.signals, p.events, t.rows, t.limits)
          && PlansWell(p.work.input, p.work.plan)
          && b.history == p.middle + PushLog(t.rowChannel.client, Events, p.work.plan.groups, t.day)
          && forall i :: 0 <= i < |p.work.plan.groups| ==> !Failing(t.rowChannel.client, i, p.work.plan.groups[i]))
  }

  lemma MovingPassDealtWith(t: Turn, a: Books, b: Books, p: Passing)
    requires PassRan(t, a, b, p) && ((a.rwa.Some? && b.rwa != a.rwa) || (a.radar.Some? && b.radar != a.radar))
    ensures a.rwa.Some? && a.radar.Some? && DealtWith(t, b, p)
  {
    if !Unsendable(p.signals, p.events) {
      CursorsWaitForEveryGroup(p.middle, b.history, t.rowChannel, p.signals, p.events, p.work, t.day);
    }
  }

  lemma MovedOverSignal(t: Turn, a: Books, b: Books, p: Passing, row: nat)
    requires PassRan(t, a, b, p) && a.rwa.Some? && b.rwa.Some? && a.rwa.value <= row < b.rwa.value
    ensures DealtWith(t, b, p) && row < |t.rows.feed.rwa|
    ensures row - a.rwa.value < |p.signals| && p.signals[row - a.rwa.value] == t.rows.feed.rwa[row]
  {
    MovingPassDealtWith(t, a, b, p);
  }

  lemma MovedOverEvent(t: Turn, a: Books, b: Books, p: Passing, row: nat)
    requires PassRan(t, a, b, p) && a.radar.Some? && b.radar.Some? && a.radar.value <= row < b.radar.value
    ensures DealtWith(t, b, p) && row < |t.rows.feed.radar|
    ensures row - a.radar.value < |p.events| && p.events[row - a.radar.value] == t.rows.feed.radar[row]
  {
    MovingPassDealtWith(t, a, b, p);
  }

  lemma GrownFeed(turns: seq<Turn>, i: nat)
    requires Growing(turns) && i < |turns|
    ensures turns[i].rows.feed.rwa <= turns[|turns| - 1].rows.feed.rwa
    ensures turns[i].rows.feed.radar <= turns[|turns| - 1].rows.feed.radar
  {
  }

  /** The row lies between where the cursor was opened and where it stands. */
  ghost predicate Behind(moves: seq<Move>, row: nat) {
    && moves != [] && Opening(moves).Some? && Opening(moves).value <= row
    && moves[|moves| - 1].after.Some? && row < moves[|moves| - 1].after.value
  }

  /** Of the passes of a chain the one that passed a row is the only one. */
  lemma OnlyPass(moves: seq<Move>, row: nat) returns (i: nat)
    requires Chained(moves) && Behind(moves, row)
    ensures i < |moves| && forall j :: 0 <= j < |moves| ==> (Passed(moves[j], row) <==> j == i)
  {
    NoRowIsSkipped(moves, row);
    i :| 0 <= i < |moves| && Passed(moves[i], row);
  }

  lemma MovedAt(turns: seq<Turn>, books: seq<Books>, passes: seq<Passing>, i: nat)
    requires RunRan(turns, books, passes) && i < |turns|
    ensures Allowed(RwaMoves(turns, books, passes)[i]) && Allowed(RadarMoves(turns, books, passes)[i])
  {
    assert RanAt(turns, books, passes, i);
    assert Walked(turns[i], books[i], books[i + 1], passes[i]);
  }

  lemma MovesAreChained(turns: seq<Turn>, books: seq<Books>, passes: seq<Passing>)
    requires RunRan(turns, books, passes)
    ensures Chained(RwaMoves(turns, books, passes)) && Chained(RadarMoves(turns, books, passes))
  {
    var rwa, radar := RwaMoves(turns, books, passes), RadarMoves(turns, books, passes);
    forall i | 0 <= i < |turns| ensures Allowed(rwa[i]) && Allowed(radar[i]) { MovedAt(turns, books, passes, i); }
    forall i | 0 < i < |turns| ensures rwa[i].before == rwa[i - 1].after && radar[i].before == radar[i - 1].after {
    }
  }

  /** Pass `i` read signal `row`, moved over it, and had dealt with it. */
  ghost predicate HandledSignal(turns: seq<Turn>, books: seq<Books>, passes: seq<Passing>, i: nat, row: nat)
    requires |books| == |turns| + 1 && |passes| == |turns| && i < |turns|
  {
    && books[i].rwa.Some? && books[i].rwa.value <= row < books[i].rwa.value + |passes[i].signals|
    && row < |turns[|turns| - 1].rows.feed.rwa|
    && passes[i].signals[row - books[i].rwa.value] == turns[|turns| - 1].rows.feed.rwa[row]
    && DealtWith(turns[i], books[i + 1], passes[i])
  }

  lemma SignalPassedAt(turns: seq<Turn>, books: seq<Books>, passes: seq<Passing>, i: nat, row: nat)
    requires |books| == |turns| + 1 && |passes| == |turns| && i < |turns|
    requires Passed(RwaMoves(turns, books, passes)[i], row)
    ensures books[i].rwa.Some? && books[i + 1].rwa.Some? && books[i].rwa.value <= row < books[i + 1].rwa.value
  {
  }

  lemma SignalHandledAt(turns: seq<Turn>, books: seq<Books>, passes: seq<Passing>, i: nat, row: nat)
    requires |books| == |turns| + 1 && |passes| == |turns| && i < |turns|
    requires RanAt(turns, books, passes, i) && Growing(turns)
    requires books[i].rwa.Some? && books[i + 1].rwa.Some? && books[i].rwa.value <= row < books[i + 1].rwa.value
    ensures HandledSignal(turns, books, passes, i, row)
  {
    MovedOverSignal(turns[i], books[i], books[i + 1], passes[i], row);
    GrownFeed(turns, i);
  }

  lemma SignalIsHandled(turns: seq<Turn>, books: seq<Books>, passes: seq<Passing>, i: nat, row: nat)
    requires RunRan(turns, books, passes) && Growing(turns) && i < |turns|
    requires Passed(RwaMoves(turns, books, passes)[i], row)
    ensures HandledSignal(turns, books, passes, i, row)
  {
    SignalPassedAt(turns, books, passes, i, row);
    SignalHandledAt(turns, books, passes, i, row);
  }

  /** Over any sequence of passes: every signal between where the cursor was opened and
      where it stands was moved over by exactly one pass, and that pass had dealt with it. */
  lemma {:induction false} EverySignalIsHandledOnce(turns: seq<Turn>, books: seq<Books>, passes: seq<Passing>, row: nat)
    returns (i: nat)
    requires RunRan(turns, books, passes) && Growing(turns) && Behind(RwaMoves(turns, books, passes), row)
    ensures i < |turns| && HandledSignal(turns, books, passes, i, row)
    ensures var moves := RwaMoves(turns, books, passes);
      forall j :: 0 <= j < |turns| ==> (Passed(moves[j], row) <==> j == i)
  {
    MovesAreChained(turns, books, passes);
    i := OnlyPass(RwaMoves(turns, books, passes), row);
    SignalIsHandled(turns, books, passes, i, row);
  }

  ghost predicate HandledEvent(turns: seq<Turn>, books: seq<Books>, passes: seq<Passing>, i: nat, row: nat)
    requires |books| == |turns| + 1 && |passes| == |turns| && i < |turns|
  {
    && books[i].radar.Some? && books[i].radar.value <= row < books[i].radar.value + |passes[i].events|
    && row < |turns[|turns| - 1].rows.feed.radar|
    && passes[i].events[row - books[i].radar.value] == turns[|turns| - 1].rows.feed.radar[row]
    && DealtWith(turns[i], books[i + 1], passes[i])
  }

  lemma EventPassedAt(turns: seq<Turn>, books: seq<Books>, passes: seq<Passing>, i: nat, row: nat)
    requires |books| == |turns| + 1 && |passes| == |turns| && i < |turns|
    requires Passed(RadarMoves(turns, books, passes)[i], row)
    ensures books[i].radar.Some? && books[i + 1].radar.Some? && books[i].radar.value <= row < books[i + 1].radar.value
  {
  }

  lemma EventHandledAt(turns: seq<Turn>, books: seq<Books>, passes: seq<Passing>, i: nat, row: nat)
    requires |books| == |turns| + 1 && |passes| == |turns| && i < |turns|
    requires RanAt(turns, books, passes, i) && Growing(turns)
    requires books[i].radar.Some? && books[i + 1].radar.Some? && books[i].radar.value <= row < books[i + 1].radar.value
    ensures HandledEvent(turns, books, passes, i, row)
  {
    MovedOverEvent(turns[i], books[i], books[i + 1], passes[i], row);
    GrownFeed(turns, i);
  }

  lemma EventIsHandled(turns: seq<Turn>, books: seq<Books>, passes: seq<Passing>, i: nat, row: nat)
    requires RunRan(turns, books, passes) && Growing(turns) && i < |turns|
    requires Passed(RadarMoves(turns, books, passes)[i], row)
    ensures HandledEvent(turns, books, passes, i, row)
  {
    EventPassedAt(turns, books, passes, i, row);
    EventHandledAt(turns, books, passes, i, row);
  }

  /** The same of the other log. */
  lemma {:induction false} EveryEventIsHandledOnce(turns: seq<Turn>, books: seq<Books>, passes: seq<Passing>, row: nat)
    returns (i: nat)
    requires RunRan(turns, books, passes) && Growing(turns) && Behind(RadarMoves(turns, books, passes), row)
    ensures i < |turns| && HandledEvent(turns, books, passes, i, row)
    ensures var moves := RadarMoves(turns, books, passes);
      forall j :: 0 <= j < |turns| ==> (Passed(moves[j], row) <==> j == i)
  {
    MovesAreChained(turns, books, passes);
    i := OnlyPass(RadarMoves(turns, books, passes), row);
    EventIsHandled(turns, books, passes, i, row);
  }

  // --- what a stopped pass repeats ------------------------------------------------------------------

  /** A pass stopped among its rows leaves them to the next: that pass reads the same rows
      again, before any newer ones. */
  lemma StoppedRowsAreReadAgain(t: Turn, a: Books, b: Books, p: Passing, t': Turn, c: Books, p': Passing)
    requires Walked(t, a, b, p) && Walked(t', b, c, p') && a.rwa.Some? && a.radar.Some?
    requires t.hasClient && !p.clock && p.outcome == Stopped && t'.hasClient && !p'.clock
    requires t.rows.feed.rwa <= t'.rows.feed.rwa && t.rows.feed.radar <= t'.rows.feed.radar
    requires t'.limits.perSource == t.limits.perSource
    ensures p.signals <= p'.signals && p.events <= p'.events
  {
  }

  lemma RowsIgnoreCounts(input: Input, sentToday: map<Wallet, nat>)
    ensures Rows(input.(sentToday := sentToday)) == Rows(input)
  {
    var input' := input.(sentToday := sentToday);
    forall i | 0 <= i < |input.signals|
      ensures OfSignal(input', input.signals[i]) == OfSignal(input, input.signals[i]) {
    }
    forall i | 0 <= i < |input.events| ensures OfEvent(input', input.events[i]) == OfEvent(input, input.events[i]) {
    }
  }

  /** Planning the same rows again, with nothing changed but the counts, a wallet the first
      plan addressed is addressed again, in the same words, exactly when it is still below
      its cap: nothing but the cap keeps a pass after a stopped one from repeating itself. */
  lemma ToldAgainExactlyWhen(input: Input, pairs: seq<Assigned>, sentToday: map<Wallet, nat>,
                             again: seq<Assigned>, k: nat)
    requires OwnSummaries(input, AllDeliveries(Rows(input)), pairs) && k < |pairs|
    requires var input' := input.(sentToday := sentToday); OwnSummaries(input', AllDeliveries(Rows(input')), again)
    ensures pairs[k] in again <==> SentToday(sentToday, pairs[k].wallet) < input.dailyCap
  {
    var input' := input.(sentToday := sentToday);
    var ds := AllDeliveries(Rows(input));
    var w := pairs[k].wallet;
    RowsIgnoreCounts(input, sentToday);
    assert Eligible(input, ds, w);
    if SentToday(sentToday, w) < input.dailyCap {
      assert Eligible(input', ds, w);
      var j :| 0 <= j < |again| && again[j].wallet == w;
      assert again[j] == pairs[k];
    }
    if pairs[k] in again {
      var j :| 0 <= j < |again| && again[j] == pairs[k];
      assert again[j].wallet == w;
      assert Eligible(input', ds, w);
    }
  }
}
