/** The planners the clock drives: the weekly summary, the reopen notices, the reward
    notices and the loan notices. What a wallet would be told is an input. */
module ClockPlans {
  import opened Common
  import opened Sorting
  import opened Notices
  import opened PushGroups
  import opened NotifyPlan

  /** One push each to the wallets below the cap that have something to be told. */
  ghost predicate Addressed(wallets: seq<Wallet>, pushOf: Wallet -> Option<Push>, sentToday: map<Wallet, nat>,
                            cap: nat, pairs: seq<Assigned>)
  {
    && OnePushAWallet(pairs)
    && (forall a :: a in pairs <==>
        a.wallet in wallets && SentToday(sentToday, a.wallet) < cap && pushOf(a.wallet) == Some(a.push))
  }

  ghost predicate AtCap(wallets: seq<Wallet>, sentToday: map<Wallet, nat>, cap: nat, w: Wallet) {
    w in wallets && SentToday(sentToday, w) >= cap
  }

  lemma AddressedNext(wallets: seq<Wallet>, n: nat, pushOf: Wallet -> Option<Push>, sentToday: map<Wallet, nat>,
                      cap: nat, pairs: seq<Assigned>)
    requires n < |wallets| && Distinct(wallets) && Addressed(wallets[..n], pushOf, sentToday, cap, pairs)
    ensures SentToday(sentToday, wallets[n]) >= cap || pushOf(wallets[n]) == None ==>
              Addressed(wallets[..n + 1], pushOf, sentToday, cap, pairs)
    ensures SentToday(sentToday, wallets[n]) < cap && pushOf(wallets[n]).Some? ==>
              Addressed(wallets[..n + 1], pushOf, sentToday, cap,
                        pairs + [Assigned(wallets[n], pushOf(wallets[n]).value)])
  {
    assert forall w :: w in wallets[..n + 1] <==> w in wallets[..n] || w == wallets[n];
    assert wallets[n] !in wallets[..n];
    assert forall i :: 0 <= i < |pairs| ==> pairs[i] in pairs;
    var next := Assigned(wallets[n], if pushOf(wallets[n]).Some? then pushOf(wallets[n]).value else Push("", "", ""));
    assert forall a :: a in pairs + [next] <==> a in pairs || a == next;
  }

  method Address(wallets: seq<Wallet>, pushOf: Wallet -> Option<Push>, sentToday: map<Wallet, nat>, cap: nat)
    returns (pairs: seq<Assigned>, capped: nat)
    requires Distinct(wallets)
    ensures Addressed(wallets, pushOf, sentToday, cap, pairs)
    ensures capped == |set w | w in wallets && AtCap(wallets, sentToday, cap, w)|
  {
    var sorted := Sort(wallets, Lower);
    SortedWallets(wallets);
    pairs, capped := [], 0;
    ghost var over: seq<Wallet> := [];
    for n := 0 to |sorted|
      invariant Addressed(sorted[..n], pushOf, sentToday, cap, pairs)
      invariant capped == |over| && Distinct(over)
      invariant forall w :: w in over <==> w in sorted[..n] && SentToday(sentToday, w) >= cap
    {
      var w := sorted[n];
      AddressedNext(sorted, n, pushOf, sentToday, cap, pairs);
      assert forall x :: x in sorted[..n + 1] <==> x in sorted[..n] || x == w;
      assert w !in sorted[..n];
      if SentToday(sentToday, w) >= cap {
        capped := capped + 1;
        over := over + [w];
      } else if pushOf(w).Some? {
        pairs := pairs + [Assigned(w, pushOf(w).value)];
      }
    }
    assert sorted[..|sorted|] == sorted;
    SizeOf(over, set w | w in wallets && AtCap(wallets, sentToday, cap, w));
  }

  // --- the weekly summary ----------------------------------------------------------

  /** A holder hears of the stocks it holds, when one of them is in the week; anybody
      else, and a holder of none of them, hears of the market. */
  function WeeklyPush(holdings: map<Wallet, set<Token>>, held: set<Token> -> Option<Push>,
                      market: Option<Push>): Wallet -> Option<Push>
  {
    (w: Wallet) => if w in holdings && holdings[w] != {} && held(holdings[w]).Some? then held(holdings[w]) else market
  }

  lemma WeeklyTells(holdings: map<Wallet, set<Token>>, held: set<Token> -> Option<Push>, market: Option<Push>,
                    w: Wallet)
    ensures w in holdings && holdings[w] != {} && held(holdings[w]).Some? ==>
              WeeklyPush(holdings, held, market)(w) == held(holdings[w])
    ensures w !in holdings || holdings[w] == {} || held(holdings[w]) == None ==>
              WeeklyPush(holdings, held, market)(w) == market
  {
  }

  method PlanWeekly(wallets: seq<Wallet>, pushOf: Wallet -> Option<Push>, sentToday: map<Wallet, nat>, cap: nat,
                    max: nat, messageLe: (string, string) -> bool)
    returns (groups: seq<Group>, capped: nat, dropped: seq<Group>, pairs: seq<Assigned>)
    requires Distinct(wallets) && TotalPreorder(messageLe)
    ensures Addressed(wallets, pushOf, sentToday, cap, pairs) && Planned(pairs, groups, dropped, max)
    ensures FewestRequests(pairs, |groups| + |dropped|)
    ensures BySize(groups + dropped) && TiesByMessage(groups + dropped, messageLe)
    ensures capped == |set w | w in wallets && AtCap(wallets, sentToday, cap, w)|
  {
    pairs, capped := Address(wallets, pushOf, sentToday, cap);
    groups, dropped := PlanRequests(pairs, max, messageLe);
  }

  // --- the reopen notices -------------------------------------------------------------

  /** Every batch is sent: this planner has no request budget. */
  method PlanReopen(wallets: seq<Wallet>, pushOf: Wallet -> Option<Push>, sentToday: map<Wallet, nat>, cap: nat)
    returns (groups: seq<Group>, capped: nat, pairs: seq<Assigned>)
    requires Distinct(wallets)
    ensures Addressed(wallets, pushOf, sentToday, cap, pairs)
    ensures multiset(Carried(groups)) == multiset(pairs) && Sized(groups) && Disjoint(groups)
    ensures FewestRequests(pairs, |groups|)
    ensures capped == |set w | w in wallets && AtCap(wallets, sentToday, cap, w)|
  {
    pairs, capped := Address(wallets, pushOf, sentToday, cap);
    var byMessage := GroupByMessage(pairs);
    groups := Slice(byMessage);
    OnePushPermutes(Carried(groups), pairs);
    OnePushMakesDisjoint(groups);
  }

  datatype ReopenKind = Results | Open | LastCall
  datatype Round = Round(opensAt: int, locksAt: int, settledAt: Option<int>)

  const HOUR := 3600000

  /** Which of a round's notices is due, if any. */
  function ReopenDue(r: Round, at: int): Option<ReopenKind> {
    if r.settledAt.Some? then
      if r.settledAt.value <= at < r.settledAt.value + 24 * HOUR then Some(Results) else None
    else if r.opensAt + 14 * HOUR <= at < r.locksAt - 3 * HOUR then Some(Open)
    else if r.locksAt - 3 * HOUR <= at < r.locksAt - HOUR / 4 then Some(LastCall)
    else None
  }

  /** When each is due: results for a day from the settling, before it the invitation
      from fourteen hours after the opening and, from three hours before the lock to a
      quarter of an hour before it, the last call. */
  lemma ReopenDueExactlyWhen(r: Round, at: int)
    ensures ReopenDue(r, at) == Some(Results) <==> r.settledAt.Some? && 0 <= at - r.settledAt.value < 86400000
    ensures ReopenDue(r, at) == Some(LastCall) <==>
              r.settledAt == None && 900000 < r.locksAt - at <= 10800000
    ensures ReopenDue(r, at) == Some(Open) <==>
              r.settledAt == None && at - r.opensAt >= 50400000 && r.locksAt - at > 10800000
  {
  }

  function Rank(kind: ReopenKind): nat {
    match kind
    case Open => 0
    case LastCall => 1
    case Results => 2
  }

  /** A round as it is read later: its times are fixed, and once settled it stays so. */
  predicate ReadLater(r: Round, later: Round) {
    later.opensAt == r.opensAt && later.locksAt == r.locksAt && (r.settledAt.Some? ==> later.settledAt == r.settledAt)
  }

  /** Whenever the round is looked at, its notices fall due in one order: invitations
      before last calls before results, the first two clear of the lock. */
  lemma ReopenNoticesAreOrdered(r: Round, a: int, later: Round, b: int)
    requires a <= b && ReadLater(r, later) && ReopenDue(r, a).Some? && ReopenDue(later, b).Some?
    ensures Rank(ReopenDue(r, a).value) <= Rank(ReopenDue(later, b).value)
    ensures ReopenDue(r, a) != Some(Results) ==> a + HOUR / 4 < r.locksAt
  {
  }

  // --- one push a row -------------------------------------------------------------------

  datatype Due = Due(wallet: Wallet, market: nat, episode: nat, push: Push)
  datatype Single = Single(group: Group, market: nat, episode: nat)

  function ByWallet(a: Due, b: Due): bool { a.wallet <= b.wallet }
  function ByWalletAndMarket(a: Due, b: Due): bool {
    a.wallet < b.wallet || (a.wallet == b.wallet && a.market <= b.market)
  }

  function CountDue(due: seq<Due>, which: Wallet -> bool): nat {
    if due == [] then 0 else CountDue(due[..|due| - 1], which) + if which(due[|due| - 1].wallet) then 1 else 0
  }

  function Is(w: Wallet): Wallet -> bool { (x: Wallet) => x == w }

  function RowsOf(due: seq<Due>, w: Wallet): nat { CountDue(due, Is(w)) }

  function SinglesOf(groups: seq<Single>, w: Wallet): nat {
    if groups == [] then 0
    else
      SinglesOf(groups[..|groups| - 1], w)
      + if groups[|groups| - 1].group.wallets == [w] then 1 else 0
  }

  lemma {:induction false} DuePermutes(a: seq<Due>, b: seq<Due>, which: Wallet -> bool)
    requires multiset(a) == multiset(b)
    ensures CountDue(a, which) == CountDue(b, which)
    decreases |a|
  {
    if a == [] {
      assert |multiset(b)| == 0;
    } else {
      var front, last := a[..|a| - 1], a[|a| - 1];
      assert a == front + [last];
      assert multiset(a) == multiset(front) + multiset{last};
      assert last in multiset(b);
      var i :| 0 <= i < |b| && b[i] == last;
      var rest := b[..i] + b[i + 1..];
      MultisetRemove(b, i);
      assert multiset(rest) == multiset(front);
      DuePermutes(front, rest, which);
      DueRemove(b, i, which);
    }
  }

  lemma {:induction false} DueRemove(b: seq<Due>, i: nat, which: Wallet -> bool)
    requires i < |b|
    ensures CountDue(b, which) == CountDue(b[..i] + b[i + 1..], which) + if which(b[i].wallet) then 1 else 0
    decreases |b|
  {
    if i < |b| - 1 {
      DueRemove(b[..|b| - 1], i, which);
      var r := b[..i] + b[i + 1..];
      assert r[..|r| - 1] == b[..|b| - 1][..i] + b[..|b| - 1][i + 1..];
      assert b[..|b| - 1][i] == b[i];
    } else {
      assert b[..i] + b[i + 1..] == b[..|b| - 1];
    }
  }

  function ClippedPush(p: Push): Push { Push(Clip(p.title, TITLE_MAX), Clip(p.message, MESSAGE_MAX), p.path) }

  ghost predicate OfSomeRow(due: seq<Due>, single: Single) { exists d :: d in due && single == SingleOf(d) }

  ghost predicate SinglesFrom(due: seq<Due>, groups: seq<Single>) {
    forall i :: 0 <= i < |groups| ==> OfSomeRow(due, groups[i])
  }

  /** A wallet that is let through has a push for every one of its rows, no other has any. */
  ghost predicate LetsThrough(groups: seq<Single>, rows: seq<Due>, admits: Wallet -> bool) {
    forall w: Wallet :: SinglesOf(groups, w) == if admits(w) then RowsOf(rows, w) else 0
  }

  function SingleOf(d: Due): Single { Single(Group(ClippedPush(d.push), [d.wallet]), d.market, d.episode) }

  lemma RowsNextOf(rows: seq<Due>, n: nat, w: Wallet)
    requires n < |rows|
    ensures RowsOf(rows[..n + 1], w) == RowsOf(rows[..n], w) + if rows[n].wallet == w then 1 else 0
  {
    CountNext(rows, n, Is(w));
  }

  lemma CountNext(rows: seq<Due>, n: nat, which: Wallet -> bool)
    requires n < |rows|
    ensures CountDue(rows[..n + 1], which) == CountDue(rows[..n], which) + if which(rows[n].wallet) then 1 else 0
  {
    assert rows[..n + 1][..n] == rows[..n] && rows[..n + 1][n] == rows[n];
  }

  lemma SinglesNextOf(groups: seq<Single>, d: Due, w: Wallet)
    ensures SinglesOf(groups + [SingleOf(d)], w) == SinglesOf(groups, w) + if d.wallet == w then 1 else 0
  {
    assert (groups + [SingleOf(d)])[..|groups|] == groups;
    assert [d.wallet] == [w] <==> [d.wallet][0] == [w][0];
  }

  lemma LetsThroughNext(groups: seq<Single>, rows: seq<Due>, n: nat, admits: Wallet -> bool)
    requires n < |rows| && LetsThrough(groups, rows[..n], admits) && SinglesFrom(rows, groups)
    ensures admits(rows[n].wallet) ==>
      LetsThrough(groups + [SingleOf(rows[n])], rows[..n + 1], admits)
        && SinglesFrom(rows, groups + [SingleOf(rows[n])])
    ensures !admits(rows[n].wallet) ==> LetsThrough(groups, rows[..n + 1], admits)
  {
    forall w: Wallet ensures RowsOf(rows[..n + 1], w) == RowsOf(rows[..n], w) + if rows[n].wallet == w then 1 else 0 {
      RowsNextOf(rows, n, w);
    }
    forall w: Wallet
      ensures SinglesOf(groups + [SingleOf(rows[n])], w) == SinglesOf(groups, w)
        + if rows[n].wallet == w then 1 else 0 {
      SinglesNextOf(groups, rows[n], w);
    }
    assert rows[n] in rows;
    assert OfSomeRow(rows, SingleOf(rows[n]));
  }

  /** The wallet a single is for. */
  function Owner(single: Single): Wallet { if single.group.wallets == [] then 0 else single.group.wallets[0] }

  ghost predicate InWalletOrder(groups: seq<Single>) {
    forall i, j :: 0 <= i < j < |groups| ==> Owner(groups[i]) <= Owner(groups[j])
  }

  ghost predicate InMarketOrder(groups: seq<Single>) {
    forall i, j :: 0 <= i < j < |groups| && Owner(groups[i]) == Owner(groups[j]) ==>
      groups[i].market <= groups[j].market
  }

  ghost predicate OfOneBefore(order: seq<Due>, n: nat, single: Single)
    requires n <= |order|
  {
    exists k :: 0 <= k < n && single == SingleOf(order[k])
  }

  /** Every group so far is for one of the first `n` rows. */
  ghost predicate FromFront(order: seq<Due>, n: nat, groups: seq<Single>)
    requires n <= |order|
  {
    forall i :: 0 <= i < |groups| ==> OfOneBefore(order, n, groups[i])
  }

  lemma StandsBefore(order: seq<Due>, n: nat, single: Single)
    requires n < |order| && OfOneBefore(order, n, single)
    ensures OfOneBefore(order, n + 1, single)
    ensures SortedBy(order, ByWallet) ==> Owner(single) <= order[n].wallet
    ensures SortedBy(order, ByWalletAndMarket) ==>
              Owner(single) < order[n].wallet || (Owner(single) == order[n].wallet && single.market <= order[n].market)
  {
    var k :| 0 <= k < n && single == SingleOf(order[k]);
    if SortedBy(order, ByWallet) { assert ByWallet(order[k], order[n]); }
    if SortedBy(order, ByWalletAndMarket) { assert ByWalletAndMarket(order[k], order[n]); }
  }

  lemma OneMoreFromFront(order: seq<Due>, n: nat, groups: seq<Single>)
    requires n < |order| && FromFront(order, n, groups)
    ensures FromFront(order, n + 1, groups) && FromFront(order, n + 1, groups + [SingleOf(order[n])])
  {
    forall i | 0 <= i < |groups| ensures OfOneBefore(order, n + 1, groups[i]) { StandsBefore(order, n, groups[i]); }
    assert OfOneBefore(order, n + 1, SingleOf(order[n]));
  }

  lemma OneMoreInOrder(order: seq<Due>, n: nat, groups: seq<Single>)
    requires n < |order| && FromFront(order, n, groups) && InWalletOrder(groups)
    ensures SortedBy(order, ByWallet) || SortedBy(order, ByWalletAndMarket) ==>
              InWalletOrder(groups + [SingleOf(order[n])])
    ensures SortedBy(order, ByWalletAndMarket) && InMarketOrder(groups) ==>
              InMarketOrder(groups + [SingleOf(order[n])])
  {
    forall i | 0 <= i < |groups|
      ensures SortedBy(order, ByWallet) ==> Owner(groups[i]) <= order[n].wallet
      ensures SortedBy(order, ByWalletAndMarket) ==>
                Owner(groups[i]) < order[n].wallet
                || (Owner(groups[i]) == order[n].wallet && groups[i].market <= order[n].market)
    {
      StandsBefore(order, n, groups[i]);
    }
  }

  lemma LetsThroughPermutes(groups: seq<Single>, a: seq<Due>, b: seq<Due>, admits: Wallet -> bool)
    requires LetsThrough(groups, a, admits) && SinglesFrom(a, groups) && multiset(a) == multiset(b)
    ensures LetsThrough(groups, b, admits) && SinglesFrom(b, groups)
  {
    forall w: Wallet ensures RowsOf(a, w) == RowsOf(b, w) { DuePermutes(a, b, Is(w)); }
    forall i | 0 <= i < |groups| ensures OfSomeRow(b, groups[i]) {
      assert OfSomeRow(a, groups[i]);
      var d: Due :| d in a && groups[i] == SingleOf(d);
      assert d in multiset(a);
      assert d in b;
    }
  }

  function Outside(enabled: set<Wallet>): Wallet -> bool { (w: Wallet) => w !in enabled }

  function Inside(enabled: set<Wallet>): Wallet -> bool { (w: Wallet) => w in enabled }

  function Admits(enabled: set<Wallet>, sentToday: map<Wallet, nat>, cap: nat): Wallet -> bool {
    (w: Wallet) => w in enabled && SentToday(sentToday, w) < cap
  }

  /** A push for each row of an opted-in wallet the cap leaves room for. The count is
      looked up once a row and not carried along. */
  method PlanRewards(due: seq<Due>, enabled: set<Wallet>, sentToday: map<Wallet, nat>, cap: nat)
    returns (groups: seq<Single>, capped: nat, notEnabled: nat)
    ensures |groups| + capped + notEnabled == |due| && SinglesFrom(due, groups)
    ensures LetsThrough(groups, due, Admits(enabled, sentToday, cap)) && notEnabled == CountDue(due, Outside(enabled))
    ensures InWalletOrder(groups)
  {
    var order := Sort(due, ByWallet);
    SortSorted(due, ByWallet);
    groups, capped, notEnabled := [], 0, 0;
    for n := 0 to |order|
      invariant |groups| + capped + notEnabled == n && SinglesFrom(order, groups)
      invariant notEnabled == CountDue(order[..n], Outside(enabled))
      invariant LetsThrough(groups, order[..n], Admits(enabled, sentToday, cap))
      invariant FromFront(order, n, groups) && InWalletOrder(groups)
    {
      var d := order[n];
      CountNext(order, n, Outside(enabled));
      LetsThroughNext(groups, order, n, Admits(enabled, sentToday, cap));
      OneMoreFromFront(order, n, groups);
      OneMoreInOrder(order, n, groups);
      if d.wallet !in enabled {
        notEnabled := notEnabled + 1;
      } else if SentToday(sentToday, d.wallet) >= cap {
        capped := capped + 1;
      } else {
        groups := groups + [SingleOf(d)];
      }
    }
    assert order[..|order|] == order;
    LetsThroughPermutes(groups, order, due, Admits(enabled, sentToday, cap));
    DuePermutes(order, due, Outside(enabled));
  }

  /** Loans answer to no cap: a push for every row of an opted-in wallet. */
  method PlanLoans(due: seq<Due>, enabled: set<Wallet>) returns (groups: seq<Single>, notEnabled: nat)
    ensures |groups| + notEnabled == |due| && SinglesFrom(due, groups)
    ensures LetsThrough(groups, due, Inside(enabled)) && InWalletOrder(groups) && InMarketOrder(groups)
  {
    var order := Sort(due, ByWalletAndMarket);
    SortSorted(due, ByWalletAndMarket);
    groups, notEnabled := [], 0;
    ghost var admits := Inside(enabled);
    for n := 0 to |order|
      invariant |groups| + notEnabled == n && SinglesFrom(order, groups) && LetsThrough(groups, order[..n], admits)
      invariant FromFront(order, n, groups) && InWalletOrder(groups) && InMarketOrder(groups)
    {
      LetsThroughNext(groups, order, n, admits);
      OneMoreFromFront(order, n, groups);
      OneMoreInOrder(order, n, groups);
      if order[n].wallet !in enabled {
        notEnabled := notEnabled + 1;
      } else {
        groups := groups + [SingleOf(order[n])];
      }
    }
    assert order[..|order|] == order;
    LetsThroughPermutes(groups, order, due, admits);
  }

  /** The condition is needed: two rows for one wallet one below its cap are both planned,
      one too many. The store, with its one row a wallet, never hands it two. */
  method RewardsCanPassTheCap() returns (groups: seq<Single>, w: Wallet, sentToday: map<Wallet, nat>)
    ensures SentToday(sentToday, w) + SinglesOf(groups, w) > 4 && SentToday(sentToday, w) < 4
  {
    w := 7;
    sentToday := map[7 := 3];
    var row := Due(w, 0, 1, Push("", "", ""));
    var due := [row, row.(episode := 2)];
    var capped, notEnabled;
    groups, capped, notEnabled := PlanRewards(due, {w}, sentToday, 4);
    assert due[..1] == [row] && [row][..0] == [];
    assert CountDue([row], Is(w)) == 1;
    assert CountDue(due, Is(w)) == 2;
  }

  /** The reward plan keeps every wallet within the cap exactly when no opted-in
      wallet below it has more rows than pushes left. */
  lemma RewardsKeepTheCapExactlyWhen(due: seq<Due>, enabled: set<Wallet>, sentToday: map<Wallet, nat>, cap: nat,
                                     groups: seq<Single>)
    requires LetsThrough(groups, due, Admits(enabled, sentToday, cap))
    ensures (forall w :: w in enabled && SentToday(sentToday, w) < cap ==>
             RowsOf(due, w) <= cap - SentToday(sentToday, w)) <==>
            (forall w :: SinglesOf(groups, w) > 0 ==> SentToday(sentToday, w) + SinglesOf(groups, w) <= cap)
  {
    if forall w :: SinglesOf(groups, w) > 0 ==> SentToday(sentToday, w) + SinglesOf(groups, w) <= cap {
      forall w | w in enabled && SentToday(sentToday, w) < cap ensures RowsOf(due, w) <= cap - SentToday(sentToday, w) {
        assert SinglesOf(groups, w) == RowsOf(due, w);
      }
    }
  }
}
