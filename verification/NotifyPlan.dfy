/** Who is told what: from the rows of one pass to its push requests. What a row
    says is an input here; which wallets hear it, how often and in which request is
    what this module decides. */
module NotifyPlan {
  import opened Common
  import opened Sorting
  import opened Notices
  import opened PushGroups

  type Token = nat
  type Tx = nat

  datatype SignalKind =
    | CorporateAction | MultiplierChanged | MultiplierScheduled | MultiplierCancelled | DividendDeclared
    | CashExitChanged | MarketActive | MarketUnreachable | LookalikeCreated | OtherKind

  /** `contractNotice` and `holderNotice` are the row in words, for everybody and
      for a holder, or nothing when it cannot be said truthfully. */
  datatype Signal = Signal(recordedAt: int, kind: SignalKind, tx: Option<Tx>, carries: Option<bool>, subject: Token,
                           official: Option<Token>, contractNotice: Option<Notice>, holderNotice: Option<Notice>)
  datatype RadarEvent = RadarEvent(recordedAt: int, wallet: Option<Wallet>, notice: Option<Notice>)
  datatype Watch = Watch(wallet: Option<Wallet>, token: Token)

  datatype Input = Input(signals: seq<Signal>, events: seq<RadarEvent>, watchers: seq<Watch>, enabled: seq<Wallet>,
                         sentToday: map<Wallet, nat>, holdings: Option<map<Wallet, set<Token>>>, oldest: int,
                         dailyCap: nat, maxRequests: nat)

  predicate Broadcast(k: SignalKind) {
    k.CorporateAction? || k.MultiplierChanged? || k.MultiplierScheduled? || k.MultiplierCancelled?
      || k.DividendDeclared?
  }

  predicate ForWatchers(k: SignalKind) {
    k.CashExitChanged? || k.MarketActive? || k.MarketUnreachable? || k.LookalikeCreated?
  }

  predicate ForHolders(k: SignalKind) {
    k.MultiplierChanged? || k.MultiplierScheduled? || k.DividendDeclared? || k.CorporateAction?
  }

  // --- what becomes of one row -----------------------------------------------------

  datatype Delivery = Delivery(notice: Notice, audience: seq<Wallet>)
  datatype Disposition = Stale | Unsent | Handed(deliveries: seq<Delivery>)

  /** Transactions that moved or scheduled a multiplier anywhere in the batch. */
  ghost predicate Moved(signals: seq<Signal>, tx: Tx) {
    exists i :: 0 <= i < |signals| && (signals[i].kind.MultiplierChanged? || signals[i].kind.MultiplierScheduled?)
      && signals[i].tx == Some(tx)
  }

  function MovedSet(signals: seq<Signal>): (r: set<Tx>)
    ensures forall tx :: tx in r <==> Moved(signals, tx)
  {
    set i | 0 <= i < |signals| && (signals[i].kind.MultiplierChanged? || signals[i].kind.MultiplierScheduled?)
      && signals[i].tx.Some? :: signals[i].tx.value
  }

  predicate CarriesChange(s: Signal, moved: set<Tx>) {
    s.kind.CorporateAction? && if s.carries.Some? then s.carries.value else s.tx.Some? && s.tx.value in moved
  }

  function Holders(enabled: seq<Wallet>, holdings: map<Wallet, set<Token>>, token: Token): (r: seq<Wallet>)
    ensures forall w :: w in r <==> w in enabled && w in holdings && token in holdings[w]
    ensures Distinct(enabled) ==> Distinct(r)
  {
    if enabled == [] then []
    else
      var w := enabled[0];
      assert forall x :: x in enabled <==> x == w || x in enabled[1..];
      (if w in holdings && token in holdings[w] then [w] else []) + Holders(enabled[1..], holdings, token)
  }

  function Others(enabled: seq<Wallet>, holders: seq<Wallet>): (r: seq<Wallet>)
    ensures forall w :: w in r <==> w in enabled && w !in holders
    ensures Distinct(enabled) ==> Distinct(r)
  {
    if enabled == [] then []
    else
      assert forall x :: x in enabled <==> x == enabled[0] || x in enabled[1..];
      (if enabled[0] in holders then [] else [enabled[0]]) + Others(enabled[1..], holders)
  }

  ghost predicate Watches(watchers: seq<Watch>, w: Wallet, token: Token) { Watch(Some(w), token) in watchers }

  /** The wallets watching a token, each once, in the order first seen. */
  function WatchersOf(watchers: seq<Watch>, token: Token): (r: seq<Wallet>)
    ensures Distinct(r)
    ensures forall w :: w in r <==> Watches(watchers, w, token)
  {
    if watchers == [] then []
    else
      var rest, last := watchers[..|watchers| - 1], watchers[|watchers| - 1];
      var front := WatchersOf(rest, token);
      assert forall x :: x in watchers <==> x == last || x in rest;
      if last.token == token && last.wallet.Some?
        && last.wallet.value !in front then front + [last.wallet.value] else front
  }

  function WatchedToken(s: Signal): Option<Token> {
    if s.kind.LookalikeCreated? then s.official else Some(s.subject)
  }

  /** A holder version goes to the holders and the contract's to everybody else,
      unless there is no holder version or nobody holds. */
  predicate SplitsByHolding(input: Input, s: Signal) {
    ForHolders(s.kind) && input.holdings.Some? && s.holderNotice.Some?
    && Holders(input.enabled, input.holdings.value, s.subject) != []
  }

  function Deliveries(input: Input, s: Signal): seq<Delivery>
    requires s.contractNotice.Some?
  {
    if SplitsByHolding(input, s) then
      var holders := Holders(input.enabled, input.holdings.value, s.subject);
      [Delivery(s.holderNotice.value, holders), Delivery(s.contractNotice.value, Others(input.enabled, holders))]
    else
      [Delivery(s.contractNotice.value,
                if Broadcast(s.kind) then input.enabled
                else if WatchedToken(s).Some? then WatchersOf(input.watchers, WatchedToken(s).value) else [])]
  }

  function OfSignal(input: Input, s: Signal): Disposition {
    if s.recordedAt < input.oldest then Stale
    else if CarriesChange(s, MovedSet(input.signals)) then Unsent
    else if !Broadcast(s.kind) && !ForWatchers(s.kind) then Unsent
    else if s.contractNotice == None then Unsent
    else Handed(Deliveries(input, s))
  }

  function OfEvent(input: Input, e: RadarEvent): Disposition {
    if e.recordedAt < input.oldest then Stale
    else if e.wallet == None || e.notice == None then Unsent
    else Handed([Delivery(e.notice.value, [e.wallet.value])])
  }

  function Rows(input: Input): (r: seq<Disposition>)
    ensures |r| == |input.signals| + |input.events|
  {
    seq(|input.signals|, i requires 0 <= i < |input.signals| => OfSignal(input, input.signals[i]))
    + seq(|input.events|, i requires 0 <= i < |input.events| => OfEvent(input, input.events[i]))
  }

  /** When the holder's and the contract's version of one signal are both delivered
      they are delivered to disjoint audiences that make up the opted-in set. */
  lemma SplitPartitionsTheOptedIn(input: Input, s: Signal, w: Wallet)
    requires s.contractNotice.Some? && SplitsByHolding(input, s)
    ensures var ds := Deliveries(input, s);
      && |ds| == 2 && ds[0].notice == s.holderNotice.value && ds[1].notice == s.contractNotice.value
      && (w in input.enabled <==> (w in ds[0].audience) != (w in ds[1].audience))
      && (w in ds[0].audience ==> s.subject in input.holdings.value[w])
  {
  }

  ghost predicate HoldsIts(input: Input, s: Signal, w: Wallet) {
    w in input.enabled && input.holdings.Some? && w in input.holdings.value && s.subject in input.holdings.value[w]
  }

  /** An announcement that says its change is told elsewhere, or one that does not say
      and shares its transaction with a row of the batch that tells it. */
  ghost predicate ChangeIsToldElsewhere(input: Input, s: Signal) {
    && s.kind.CorporateAction?
    && match s.carries
       case Some(said) => said
       case None => s.tx.Some? && Moved(input.signals, s.tx.value)
  }

  /** Why a signal is handed out or not. */
  lemma SignalFate(input: Input, s: Signal)
    ensures OfSignal(input, s).Stale? <==> s.recordedAt < input.oldest
    ensures OfSignal(input, s).Handed? <==>
              && s.recordedAt >= input.oldest && !ChangeIsToldElsewhere(input, s) && s.contractNotice.Some?
              && (Broadcast(s.kind) || ForWatchers(s.kind))
  {
  }

  /** And to whom: in two versions exactly when there is one for holders and somebody
      opted in holds the token, else the contract's to everybody or to its watchers. */
  lemma SignalAudience(input: Input, s: Signal, w: Wallet)
    requires OfSignal(input, s).Handed?
    ensures var ds := OfSignal(input, s).deliveries;
      && 1 <= |ds| <= 2 && ds[|ds| - 1].notice == s.contractNotice.value
      && (|ds| == 2 <==> ForHolders(s.kind) && s.holderNotice.Some? && exists x :: HoldsIts(input, s, x))
      && (|ds| == 2 ==> && ds[0].notice == s.holderNotice.value && (w in ds[0].audience <==> HoldsIts(input, s, w))
                        && (w in ds[1].audience <==> w in input.enabled && !HoldsIts(input, s, w)))
      && (|ds| == 1 && Broadcast(s.kind) ==> (w in ds[0].audience <==> w in input.enabled))
      && (|ds| == 1 && s.kind.LookalikeCreated? ==>
            (w in ds[0].audience <==> s.official.Some? && Watches(input.watchers, w, s.official.value)))
      && (|ds| == 1 && !Broadcast(s.kind) && !s.kind.LookalikeCreated? ==>
            (w in ds[0].audience <==> Watches(input.watchers, w, s.subject)))
  {
    if input.holdings.Some? {
      var holders := Holders(input.enabled, input.holdings.value, s.subject);
      if x :| HoldsIts(input, s, x) { assert x in holders; }
      if holders != [] { assert holders[0] in holders && HoldsIts(input, s, holders[0]); }
    }
  }

  lemma EventFate(input: Input, e: RadarEvent)
    ensures OfEvent(input, e).Stale? <==> e.recordedAt < input.oldest
    ensures OfEvent(input, e).Handed? <==> e.recordedAt >= input.oldest && e.wallet.Some? && e.notice.Some?
    ensures OfEvent(input, e).Handed? ==>
              OfEvent(input, e).deliveries == [Delivery(e.notice.value, [e.wallet.value])]
  {
  }

  // --- what one wallet hears -------------------------------------------------------------

  /** One notice a key: a later one takes the earlier one's place. */
  function Put(mine: seq<Notice>, n: Notice): (r: seq<Notice>)
    ensures r != []
  {
    if mine == [] then [n]
    else if mine[0].key == n.key then [n] + mine[1..]
    else [mine[0]] + Put(mine[1..], n)
  }

  ghost predicate Told(ds: seq<Delivery>, w: Wallet) {
    exists i :: 0 <= i < |ds| && w in ds[i].audience
  }

  /** The notices whose audience a wallet is in, in delivery order. */
  ghost function Heard(ds: seq<Delivery>, w: Wallet): seq<Notice> {
    if ds == [] then []
    else
      var before := Heard(ds[..|ds| - 1], w);
      if w in ds[|ds| - 1].audience then Put(before, ds[|ds| - 1].notice) else before
  }

  ghost predicate SomeEnabled(enabled: set<Wallet>, audience: seq<Wallet>) {
    exists w :: w in enabled && w in audience
  }

  lemma SomeEnabledNext(enabled: set<Wallet>, audience: seq<Wallet>, n: nat)
    requires n < |audience|
    ensures SomeEnabled(enabled, audience[..n + 1]) <==> SomeEnabled(enabled, audience[..n]) || audience[n] in enabled
  {
    assert forall w :: w in audience[..n + 1] <==> w in audience[..n] || w == audience[n];
  }

  /** How many deliveries some opted-in wallet was in the audience of. */
  ghost function Reaching(ds: seq<Delivery>, enabled: set<Wallet>): nat {
    if ds == [] then 0
    else Reaching(ds[..|ds| - 1], enabled) + if SomeEnabled(enabled, ds[|ds| - 1].audience) then 1 else 0
  }

  ghost function AllDeliveries(rows: seq<Disposition>): seq<Delivery> {
    if rows == [] then []
    else AllDeliveries(rows[..|rows| - 1]) + if rows[|rows| - 1].Handed? then rows[|rows| - 1].deliveries else []
  }

  ghost function Count(rows: seq<Disposition>, which: Disposition -> bool): nat {
    if rows == [] then 0 else Count(rows[..|rows| - 1], which) + if which(rows[|rows| - 1]) then 1 else 0
  }

  /** Every row read is stale, unsent, or handed out. */
  lemma {:induction false} RowsAreConserved(rows: seq<Disposition>)
    ensures Count(rows, (d: Disposition) => d.Stale?) + Count(rows, (d: Disposition) => d.Unsent?)
      + Count(rows, (d: Disposition) => d.Handed?) == |rows|
  {
    if rows != [] { RowsAreConserved(rows[..|rows| - 1]); }
  }

  lemma HeardSnoc(ds: seq<Delivery>, d: Delivery, w: Wallet)
    ensures Heard(ds + [d], w) == if w in d.audience then Put(Heard(ds, w), d.notice) else Heard(ds, w)
    ensures Told(ds + [d], w) <==> Told(ds, w) || w in d.audience
  {
    assert (ds + [d])[..|ds|] == ds;
    if Told(ds, w) {
      var i :| 0 <= i < |ds| && w in ds[i].audience;
      assert w in (ds + [d])[i].audience;
    }
    assert (ds + [d])[|ds|] == d;
  }

  lemma ReachingSnoc(ds: seq<Delivery>, d: Delivery, enabled: set<Wallet>)
    ensures Reaching(ds + [d], enabled) == Reaching(ds, enabled) + if SomeEnabled(enabled, d.audience) then 1 else 0
  {
    assert (ds + [d])[..|ds|] == ds;
  }

  lemma {:induction false} ToldIsHeard(ds: seq<Delivery>, w: Wallet)
    ensures Told(ds, w) <==> Heard(ds, w) != []
  {
    if ds != [] {
      var front, d := ds[..|ds| - 1], ds[|ds| - 1];
      assert ds == front + [d];
      ToldIsHeard(front, w);
      HeardSnoc(front, d, w);
    }
  }

  // --- what that amounts to, delivery by delivery ------------------------------------------

  /** The first, and the last, delivery to a wallet with its key. */
  ghost predicate FirstFor(ds: seq<Delivery>, w: Wallet, i: nat) {
    && i < |ds| && w in ds[i].audience
    && forall j :: 0 <= j < i && w in ds[j].audience ==> ds[j].notice.key != ds[i].notice.key
  }

  ghost predicate LastFor(ds: seq<Delivery>, w: Wallet, i: nat) {
    && i < |ds| && w in ds[i].audience
    && forall j :: i < j < |ds| && w in ds[j].audience ==> ds[j].notice.key != ds[i].notice.key
  }

  ghost predicate IsLast(ds: seq<Delivery>, w: Wallet, n: Notice) {
    exists i: nat :: LastFor(ds, w, i) && ds[i].notice == n
  }

  ghost predicate KeysDiffer(mine: seq<Notice>) { forall a, b :: 0 <= a < b < |mine| ==> mine[a].key != mine[b].key }

  ghost predicate InFirstOrder(ds: seq<Delivery>, w: Wallet, mine: seq<Notice>) {
    forall a, b, i: nat, j: nat ::
      (0 <= a < b < |mine| && FirstFor(ds, w, i) && FirstFor(ds, w, j)
       && ds[i].notice.key == mine[a].key && ds[j].notice.key == mine[b].key) ==> i < j
  }

  /** One notice for each key the wallet was told under, the last one told, standing
      where that key was first told. */
  ghost predicate ToldExactly(ds: seq<Delivery>, w: Wallet, mine: seq<Notice>) {
    KeysDiffer(mine) && (forall n :: n in mine <==> IsLast(ds, w, n)) && InFirstOrder(ds, w, mine)
  }

  ghost predicate HasKey(mine: seq<Notice>, key: Key) { exists a :: 0 <= a < |mine| && mine[a].key == key }

  lemma HasKeyNext(mine: seq<Notice>, key: Key)
    requires mine != []
    ensures HasKey(mine, key) <==> mine[0].key == key || HasKey(mine[1..], key)
  {
    var rest := mine[1..];
    if HasKey(rest, key) {
      var a :| 0 <= a < |rest| && rest[a].key == key;
      assert mine[a + 1].key == key;
    }
    if HasKey(mine, key) && mine[0].key != key {
      var a :| 0 <= a < |mine| && mine[a].key == key;
      assert rest[a - 1].key == key;
    }
  }

  lemma {:induction false} PutAt(mine: seq<Notice>, n: Notice)
    requires KeysDiffer(mine)
    ensures |Put(mine, n)| == |mine| + if HasKey(mine, n.key) then 0 else 1
    ensures forall a :: 0 <= a < |mine| ==> Put(mine, n)[a] == if mine[a].key == n.key then n else mine[a]
    ensures !HasKey(mine, n.key) ==> Put(mine, n)[|mine|] == n
  {
    if mine != [] {
      var rest := mine[1..];
      HasKeyNext(mine, n.key);
      if mine[0].key != n.key {
        assert forall a :: 0 <= a < |rest| ==> rest[a] == mine[a + 1];
        PutAt(rest, n);
        assert Put(mine, n) == [mine[0]] + Put(rest, n);
      }
    }
  }

  lemma PutMeaning(mine: seq<Notice>, n: Notice)
    requires KeysDiffer(mine)
    ensures |Put(mine, n)| == |mine| + if HasKey(mine, n.key) then 0 else 1
    ensures forall a :: 0 <= a < |mine| ==> Put(mine, n)[a] == if mine[a].key == n.key then n else mine[a]
    ensures !HasKey(mine, n.key) ==> Put(mine, n)[|mine|] == n
    ensures KeysDiffer(Put(mine, n))
  {
    PutAt(mine, n);
  }

  lemma {:induction false} SomeLast(ds: seq<Delivery>, w: Wallet, i: nat)
    requires i < |ds| && w in ds[i].audience
    ensures exists j: nat :: LastFor(ds, w, j) && ds[j].notice.key == ds[i].notice.key
    decreases |ds| - i
  {
    if !LastFor(ds, w, i) {
      var j :| i < j < |ds| && w in ds[j].audience && ds[j].notice.key == ds[i].notice.key;
      SomeLast(ds, w, j);
    }
  }

  /** What one more delivery does to firsts and lasts. */
  lemma FirstsAndLasts(front: seq<Delivery>, d: Delivery, w: Wallet, i: nat)
    requires i < |front|
    ensures FirstFor(front + [d], w, i) <==> FirstFor(front, w, i)
    ensures LastFor(front + [d], w, i) <==>
              LastFor(front, w, i) && !(w in d.audience && d.notice.key == front[i].notice.key)
  {
    var ds := front + [d];
    assert ds[|front|] == d && forall j :: 0 <= j < |front| ==> ds[j] == front[j];
    if LastFor(ds, w, i) {
      forall j | i < j < |front| && w in front[j].audience ensures front[j].notice.key != front[i].notice.key {
        assert ds[j] == front[j];
      }
    }
    if FirstFor(ds, w, i) {
      forall j | 0 <= j < i && w in front[j].audience ensures front[j].notice.key != front[i].notice.key {
        assert ds[j] == front[j];
      }
    }
  }

  lemma NotToldUnchanged(front: seq<Delivery>, d: Delivery, w: Wallet, mine: seq<Notice>)
    requires w !in d.audience && ToldExactly(front, w, mine)
    ensures ToldExactly(front + [d], w, mine)
  {
    var ds := front + [d];
    forall i: nat | i < |ds| ensures FirstFor(ds, w, i) ==> i < |front| && FirstFor(front, w, i) {
      if i < |front| { FirstsAndLasts(front, d, w, i); }
    }
    forall n ensures n in mine <==> IsLast(ds, w, n) {
      if IsLast(front, w, n) {
        var i: nat :| LastFor(front, w, i) && front[i].notice == n;
        FirstsAndLasts(front, d, w, i);
        assert LastFor(ds, w, i) && ds[i].notice == n;
      }
      if IsLast(ds, w, n) {
        var i: nat :| LastFor(ds, w, i) && ds[i].notice == n;
        FirstsAndLasts(front, d, w, i);
        assert LastFor(front, w, i) && front[i].notice == n;
      }
    }
  }

  lemma KeysAreTold(front: seq<Delivery>, w: Wallet, mine: seq<Notice>, i: nat)
    requires ToldExactly(front, w, mine) && i < |front| && w in front[i].audience
    ensures HasKey(mine, front[i].notice.key)
  {
    SomeLast(front, w, i);
    var j: nat :| LastFor(front, w, j) && front[j].notice.key == front[i].notice.key;
    assert IsLast(front, w, front[j].notice);
    var a :| 0 <= a < |mine| && mine[a] == front[j].notice;
    assert mine[a].key == front[i].notice.key;
  }

  lemma PutMembers(mine: seq<Notice>, d: Notice, n: Notice)
    requires KeysDiffer(mine)
    ensures n in Put(mine, d) <==> n == d || (n in mine && n.key != d.key)
  {
    var r := Put(mine, d);
    PutMeaning(mine, d);
    if HasKey(mine, d.key) {
      var a :| 0 <= a < |mine| && mine[a].key == d.key;
      assert r[a] == d;
    } else {
      assert r[|mine|] == d;
    }
    if n in mine && n.key != d.key {
      var a :| 0 <= a < |mine| && mine[a] == n;
      assert r[a] == n;
    }
    if n in r && n != d {
      var a :| 0 <= a < |r| && r[a] == n;
      assert a < |mine| && mine[a] == n;
    }
  }

  /** The last ones: the new one, and those before with another key. */
  lemma LastsNext(front: seq<Delivery>, d: Delivery, w: Wallet, n: Notice)
    requires w in d.audience
    ensures IsLast(front + [d], w, n) <==> n == d.notice || (IsLast(front, w, n) && n.key != d.notice.key)
  {
    var ds := front + [d];
    assert ds[|front|] == d && LastFor(ds, w, |front|);
    if IsLast(front, w, n) && n.key != d.notice.key {
      var i: nat :| LastFor(front, w, i) && front[i].notice == n;
      FirstsAndLasts(front, d, w, i);
      assert LastFor(ds, w, i) && ds[i].notice == n;
    }
    if IsLast(ds, w, n) && n != d.notice {
      var i: nat :| LastFor(ds, w, i) && ds[i].notice == n;
      FirstsAndLasts(front, d, w, i);
      assert LastFor(front, w, i) && front[i].notice == n;
    }
  }

  lemma ToldInOrder(front: seq<Delivery>, d: Delivery, w: Wallet, mine: seq<Notice>)
    requires w in d.audience && ToldExactly(front, w, mine)
    ensures InFirstOrder(front + [d], w, Put(mine, d.notice))
  {
    var ds, r := front + [d], Put(mine, d.notice);
    forall a, b, i: nat, j: nat | 0 <= a < b < |r| && FirstFor(ds, w, i) && FirstFor(ds, w, j)
      && ds[i].notice.key == r[a].key && ds[j].notice.key == r[b].key
      ensures i < j
    {
      ToldBefore(front, d, w, mine, a, b, i, j);
    }
  }

  lemma ToldBefore(front: seq<Delivery>, d: Delivery, w: Wallet, mine: seq<Notice>, a: nat, b: nat, i: nat, j: nat)
    requires w in d.audience && ToldExactly(front, w, mine) && a < b < |Put(mine, d.notice)|
    requires FirstFor(front + [d], w, i) && FirstFor(front + [d], w, j)
    requires (front + [d])[i].notice.key == Put(mine, d.notice)[a].key
    requires (front + [d])[j].notice.key == Put(mine, d.notice)[b].key
    ensures i < j
  {
    PutMeaning(mine, d.notice);
    assert a < |mine| && Put(mine, d.notice)[a].key == mine[a].key;
    if i == |front| {
      FirstIsNew(front, d, w, mine, a);
    } else if j < |front| {
      FirstsAndLasts(front, d, w, i);
      FirstsAndLasts(front, d, w, j);
      KeysAreTold(front, w, mine, j);
      assert b < |mine| && Put(mine, d.notice)[b].key == mine[b].key;
    }
  }

  /** A delivery is the first with its key only if nobody told the wallet of it before. */
  lemma FirstIsNew(front: seq<Delivery>, d: Delivery, w: Wallet, mine: seq<Notice>, a: nat)
    requires ToldExactly(front, w, mine) && a < |mine| && mine[a].key == d.notice.key
    ensures !FirstFor(front + [d], w, |front|)
  {
    assert mine[a] in mine;
    var i: nat :| LastFor(front, w, i) && front[i].notice == mine[a];
    assert (front + [d])[i] == front[i] && (front + [d])[|front|] == d;
  }

  /** What a wallet has heard, said without saying how it is gathered. */
  lemma {:induction false} HeardMeaning(ds: seq<Delivery>, w: Wallet)
    ensures ToldExactly(ds, w, Heard(ds, w))
  {
    if ds != [] {
      var front, d := ds[..|ds| - 1], ds[|ds| - 1];
      assert ds == front + [d];
      HeardMeaning(front, w);
      var mine := Heard(front, w);
      if w in d.audience {
        PutMeaning(mine, d.notice);
        forall n ensures n in Put(mine, d.notice) <==> IsLast(ds, w, n) {
          PutMembers(mine, d.notice, n);
          LastsNext(front, d, w, n);
        }
        ToldInOrder(front, d, w, mine);
      } else {
        NotToldUnchanged(front, d, w, mine);
      }
    }
  }

  /** The notices gathered so far, wallet by wallet. */
  class Outbox {
    const enabled: set<Wallet>
    var mine: map<Wallet, seq<Notice>>
    var order: seq<Wallet>
    var notEnabled: set<Wallet>
    var notices: nat

    ghost predicate Gathered(ds: seq<Delivery>) reads this {
      && (forall w :: w in mine <==> w in enabled && Told(ds, w))
      && (forall w :: w in mine ==> mine[w] == Heard(ds, w))
      && (forall w :: w in notEnabled <==> w !in enabled && Told(ds, w))
      && Distinct(order) && (forall w :: w in order <==> w in mine)
    }

    ghost predicate Holds(ds: seq<Delivery>) reads this {
      Gathered(ds) && notices == Reaching(ds, enabled)
    }

    constructor (enabledNow: set<Wallet>)
      ensures Holds([]) && enabled == enabledNow
    {
      enabled, mine, order, notEnabled, notices := enabledNow, map[], [], {}, 0;
    }

    method Take(w: Wallet, notice: Notice)
      requires w in enabled && Distinct(order) && forall x :: x in order <==> x in mine
      modifies this
      ensures mine == old(mine)[w := Put(if w in old(mine) then old(mine)[w] else [], notice)]
      ensures Distinct(order) && forall x :: x in order <==> x in mine
      ensures notEnabled == old(notEnabled) && notices == old(notices)
    {
      if w !in mine { order := order + [w]; }
      mine := mine[w := Put(if w in mine then mine[w] else [], notice)];
    }

    /** The next wallet of an audience: told, or counted as not opted in. */
    method Tell(notice: Notice, audience: seq<Wallet>, n: nat, ghost ds: seq<Delivery>)
      requires n < |audience| && Distinct(audience) && Gathered(ds + [Delivery(notice, audience[..n])])
      modifies this
      ensures Gathered(ds + [Delivery(notice, audience[..n + 1])]) && notices == old(notices)
    {
      var w := audience[n];
      GatherOne(ds, notice, audience, n);
      if w !in enabled {
        notEnabled := notEnabled + {w};
      } else {
        Take(w, notice);
      }
    }

    method TellAll(notice: Notice, audience: seq<Wallet>, ghost ds: seq<Delivery>) returns (reached: bool)
      requires Distinct(audience) && Gathered(ds + [Delivery(notice, [])])
      modifies this
      ensures Gathered(ds + [Delivery(notice, audience)]) && notices == old(notices)
      ensures reached <==> SomeEnabled(enabled, audience)
    {
      reached := false;
      assert audience[..0] == [];
      for n := 0 to |audience|
        invariant Gathered(ds + [Delivery(notice, audience[..n])]) && notices == old(notices)
        invariant reached <==> SomeEnabled(enabled, audience[..n])
      {
        SomeEnabledNext(enabled, audience, n);
        if audience[n] in enabled { reached := true; }
        Tell(notice, audience, n, ds);
      }
      assert audience[..|audience|] == audience;
    }

    method Deliver(notice: Notice, audience: seq<Wallet>, ghost ds: seq<Delivery>)
      requires Holds(ds) && Distinct(audience)
      modifies this
      ensures Holds(ds + [Delivery(notice, audience)])
      ensures forall w :: w in mine ==> ToldExactly(ds + [Delivery(notice, audience)], w, mine[w])
    {
      forall w { HeardMeaning(ds + [Delivery(notice, audience)], w); }
      SameGathering(ds, notice);
      var reached := TellAll(notice, audience, ds);
      ReachingSnoc(ds, Delivery(notice, audience), enabled);
      if reached { notices := notices + 1; }
    }

    lemma SameGathering(ds: seq<Delivery>, notice: Notice)
      requires Gathered(ds)
      ensures Gathered(ds + [Delivery(notice, [])])
    {
      forall w ensures Told(ds + [Delivery(notice, [])], w) <==> Told(ds, w)
               ensures Heard(ds + [Delivery(notice, [])], w) == Heard(ds, w) {
        HeardSnoc(ds, Delivery(notice, []), w);
      }
    }

    /** The next wallet of an audience changes what that wallet has heard, and only that. */
    lemma GatherOne(ds: seq<Delivery>, notice: Notice, audience: seq<Wallet>, n: nat)
      requires n < |audience| && Distinct(audience)
      ensures var a, b := ds + [Delivery(notice, audience[..n])], ds + [Delivery(notice, audience[..n + 1])];
        && (forall w :: w != audience[n] ==> (Told(a, w) <==> Told(b, w)) && Heard(a, w) == Heard(b, w))
        && Told(b, audience[n]) && Heard(b, audience[n]) == Put(Heard(a, audience[n]), notice)
        && (Heard(a, audience[n]) == [] <==> !Told(a, audience[n]))
    {
      var a, b := ds + [Delivery(notice, audience[..n])], ds + [Delivery(notice, audience[..n + 1])];
      forall w ensures w != audience[n] ==> (Told(a, w) <==> Told(b, w)) && Heard(a, w) == Heard(b, w) {
        HeardSnoc(ds, Delivery(notice, audience[..n]), w);
        HeardSnoc(ds, Delivery(notice, audience[..n + 1]), w);
      }
      HeardSnoc(ds, Delivery(notice, audience[..n]), audience[n]);
      HeardSnoc(ds, Delivery(notice, audience[..n + 1]), audience[n]);
      ToldIsHeard(a, audience[n]);
    }
  }

  // --- the planner --------------------------------------------------------------------------

  function Dedup(s: seq<Wallet>): (r: seq<Wallet>)
    ensures Distinct(r) && forall w :: w in r <==> w in s
  {
    if s == [] then []
    else
      var front := Dedup(s[..|s| - 1]);
      assert forall w :: w in s <==> w == s[|s| - 1] || w in s[..|s| - 1];
      if s[|s| - 1] in front then front else front + [s[|s| - 1]]
  }

  function Listed(index: map<Token, seq<Wallet>>, token: Token): seq<Wallet> {
    if token in index then index[token] else []
  }

  method IndexWatchers(watchers: seq<Watch>) returns (index: map<Token, seq<Wallet>>)
    ensures forall t :: Dedup(Listed(index, t)) == WatchersOf(watchers, t)
  {
    index := map[];
    for n := 0 to |watchers|
      invariant forall t :: Dedup(Listed(index, t)) == WatchersOf(watchers[..n], t)
    {
      var watch := watchers[n];
      assert watchers[..n + 1][..n] == watchers[..n] && watchers[..n + 1][n] == watch;
      if watch.wallet.Some? {
        var list := Listed(index, watch.token) + [watch.wallet.value];
        assert list[..|list| - 1] == Listed(index, watch.token);
        index := index[watch.token := list];
      }
    }
    assert watchers[..|watchers|] == watchers;
  }

  lemma RowsNext(rows: seq<Disposition>, n: nat)
    requires n < |rows|
    ensures AllDeliveries(rows[..n + 1]) == AllDeliveries(rows[..n])
      + if rows[n].Handed? then rows[n].deliveries else []
    ensures forall which: Disposition -> bool ::
              Count(rows[..n + 1], which) == Count(rows[..n], which) + if which(rows[n]) then 1 else 0
  {
    assert rows[..n + 1][..n] == rows[..n] && rows[..n + 1][n] == rows[n];
  }

  const IsStale := (d: Disposition) => d.Stale?
  const IsUnsent := (d: Disposition) => d.Unsent?

  /** One signal: which of the three ways it goes, and its notices into the outbox. */
  method PlaceSignal(outbox: Outbox, input: Input, index: map<Token, seq<Wallet>>, moved: set<Tx>, s: Signal,
                     ghost ds: seq<Delivery>)
    returns (d: Disposition)
    requires outbox.Holds(ds) && Distinct(input.enabled) && moved == MovedSet(input.signals)
    requires forall t :: Dedup(Listed(index, t)) == WatchersOf(input.watchers, t)
    modifies outbox
    ensures d == OfSignal(input, s)
    ensures outbox.Holds(ds + if d.Handed? then d.deliveries else [])
  {
    assert ds + [] == ds;
    if s.recordedAt < input.oldest { return Stale; }
    if CarriesChange(s, moved) { return Unsent; }
    if !Broadcast(s.kind) && !ForWatchers(s.kind) { return Unsent; }
    if s.contractNotice == None { return Unsent; }
    d := Handed(Deliveries(input, s));
    if ForHolders(s.kind) && input.holdings.Some? {
      var holders := Holders(input.enabled, input.holdings.value, s.subject);
      if s.holderNotice.Some? && |holders| > 0 {
        var others := Others(input.enabled, holders);
        outbox.Deliver(s.holderNotice.value, holders, ds);
        outbox.Deliver(s.contractNotice.value, others, ds + [Delivery(s.holderNotice.value, holders)]);
        assert ds + d.deliveries == ds + [Delivery(s.holderNotice.value, holders)]
          + [Delivery(s.contractNotice.value, others)];
        return;
      }
    }
    var token := WatchedToken(s);
    var audience := if Broadcast(s.kind) then input.enabled
                    else if token.Some? then Dedup(Listed(index, token.value)) else [];
    outbox.Deliver(s.contractNotice.value, audience, ds);
  }

  method PlaceEvent(outbox: Outbox, input: Input, e: RadarEvent, ghost ds: seq<Delivery>) returns (d: Disposition)
    requires outbox.Holds(ds)
    modifies outbox
    ensures d == OfEvent(input, e)
    ensures outbox.Holds(ds + if d.Handed? then d.deliveries else [])
  {
    assert ds + [] == ds;
    if e.recordedAt < input.oldest { return Stale; }
    if e.wallet == None || e.notice == None { return Unsent; }
    d := Handed([Delivery(e.notice.value, [e.wallet.value])]);
    outbox.Deliver(e.notice.value, [e.wallet.value], ds);
  }

  ghost predicate Placed(outbox: Outbox, rows: seq<Disposition>, stale: nat, unsent: nat) reads outbox {
    outbox.Holds(AllDeliveries(rows)) && stale == Count(rows, IsStale) && unsent == Count(rows, IsUnsent)
  }

  lemma PlacedNext(outbox: Outbox, done: seq<Disposition>, d: Disposition, stale: nat, unsent: nat)
    requires stale == Count(done, IsStale) && unsent == Count(done, IsUnsent)
    requires outbox.Holds(AllDeliveries(done) + if d.Handed? then d.deliveries else [])
    ensures Placed(outbox, done + [d], stale + if d.Stale? then 1 else 0, unsent + if d.Unsent? then 1 else 0)
  {
    assert (done + [d])[..|done|] == done;
  }

  method CountSignal(outbox: Outbox, input: Input, index: map<Token, seq<Wallet>>, moved: set<Tx>, s: Signal,
                     stale: nat, unsent: nat, ghost done: seq<Disposition>)
    returns (d: Disposition, stale': nat, unsent': nat)
    requires Placed(outbox, done, stale, unsent) && Distinct(input.enabled) && moved == MovedSet(input.signals)
    requires forall t :: Dedup(Listed(index, t)) == WatchersOf(input.watchers, t)
    modifies outbox
    ensures d == OfSignal(input, s) && Placed(outbox, done + [d], stale', unsent')
  {
    d := PlaceSignal(outbox, input, index, moved, s, AllDeliveries(done));
    PlacedNext(outbox, done, d, stale, unsent);
    stale', unsent' := stale + if d.Stale? then 1 else 0, unsent + if d.Unsent? then 1 else 0;
  }

  method CountEvent(outbox: Outbox, input: Input, e: RadarEvent, stale: nat, unsent: nat,
                    ghost signals: seq<Disposition>, ghost done: seq<Disposition>)
    returns (d: Disposition, stale': nat, unsent': nat)
    requires Placed(outbox, signals + done, stale, unsent)
    modifies outbox
    ensures d == OfEvent(input, e) && Placed(outbox, signals + (done + [d]), stale', unsent')
  {
    d := PlaceEvent(outbox, input, e, AllDeliveries(signals + done));
    PlacedNext(outbox, signals + done, d, stale, unsent);
    assert signals + done + [d] == signals + (done + [d]);
    stale', unsent' := stale + if d.Stale? then 1 else 0, unsent + if d.Unsent? then 1 else 0;
  }

  method PlaceSignals(outbox: Outbox, input: Input) returns (stale: nat, unsent: nat, ghost done: seq<Disposition>)
    requires outbox.Holds([]) && Distinct(input.enabled)
    modifies outbox
    ensures Placed(outbox, done, stale, unsent)
    ensures |done| == |input.signals| && forall i :: 0 <= i < |done| ==> done[i] == OfSignal(input, input.signals[i])
  {
    var index := IndexWatchers(input.watchers);
    var moved := MovedSet(input.signals);
    stale, unsent, done := 0, 0, [];
    for n := 0 to |input.signals|
      invariant Placed(outbox, done, stale, unsent)
      invariant |done| == n && forall i :: 0 <= i < n ==> done[i] == OfSignal(input, input.signals[i])
    {
      var d;
      d, stale, unsent := CountSignal(outbox, input, index, moved, input.signals[n], stale, unsent, done);
      done := done + [d];
    }
  }

  method PlaceEvents(outbox: Outbox, input: Input, stale0: nat, unsent0: nat, ghost signals: seq<Disposition>)
    returns (stale: nat, unsent: nat, ghost done: seq<Disposition>)
    requires Placed(outbox, signals, stale0, unsent0)
    modifies outbox
    ensures Placed(outbox, signals + done, stale, unsent)
    ensures |done| == |input.events| && forall i :: 0 <= i < |done| ==> done[i] == OfEvent(input, input.events[i])
  {
    stale, unsent, done := stale0, unsent0, [];
    assert signals + [] == signals;
    for n := 0 to |input.events|
      invariant Placed(outbox, signals + done, stale, unsent)
      invariant |done| == n && forall i :: 0 <= i < n ==> done[i] == OfEvent(input, input.events[i])
    {
      var d;
      d, stale, unsent := CountEvent(outbox, input, input.events[n], stale, unsent, signals, done);
      done := done + [d];
    }
  }

  method PlaceRows(outbox: Outbox, input: Input) returns (stale: nat, unsent: nat)
    requires outbox.Holds([]) && Distinct(input.enabled)
    modifies outbox
    ensures Placed(outbox, Rows(input), stale, unsent)
  {
    ghost var signals, events;
    stale, unsent, signals := PlaceSignals(outbox, input);
    stale, unsent, events := PlaceEvents(outbox, input, stale, unsent, signals);
    assert signals + events == Rows(input);
  }

  // --- what the notices of a plan count --------------------------------------------------

  /** The row was told to some opted-in wallet. */
  ghost function Reaches(enabled: set<Wallet>): Disposition -> bool {
    (d: Disposition) =>
      d.Handed? && exists i :: 0 <= i < |d.deliveries| && SomeEnabled(enabled, d.deliveries[i].audience)
  }

  /** Both versions of the row were told to some opted-in wallet. */
  ghost function ReachesTwice(enabled: set<Wallet>): Disposition -> bool {
    (d: Disposition) =>
      && d.Handed? && |d.deliveries| == 2
      && SomeEnabled(enabled, d.deliveries[0].audience) && SomeEnabled(enabled, d.deliveries[1].audience)
  }

  ghost predicate OneOrTwoVersions(d: Disposition) { d.Handed? ==> 1 <= |d.deliveries| <= 2 }

  lemma ReachingOfOneRow(ds: seq<Delivery>, d: Disposition, enabled: set<Wallet>)
    requires d.Handed? && OneOrTwoVersions(d)
    ensures Reaching(ds + d.deliveries, enabled) ==
      Reaching(ds, enabled) + (if Reaches(enabled)(d) then 1 else 0) + (if ReachesTwice(enabled)(d) then 1 else 0)
  {
    var first := d.deliveries[0];
    ReachingSnoc(ds, first, enabled);
    if |d.deliveries| == 1 {
      assert d.deliveries == [first];
    } else {
      var second := d.deliveries[1];
      ReachingSnoc(ds + [first], second, enabled);
      assert ds + d.deliveries == ds + [first] + [second];
    }
  }

  /** Deliveries that reached somebody: one a row that did, and one more a row both of
      whose versions did. */
  lemma {:induction false} NoticesAreRowsAndSecondVersions(rows: seq<Disposition>, enabled: set<Wallet>)
    requires forall i :: 0 <= i < |rows| ==> OneOrTwoVersions(rows[i])
    ensures Reaching(AllDeliveries(rows), enabled) == Count(rows, Reaches(enabled)) + Count(rows, ReachesTwice(enabled))
  {
    if rows != [] {
      var front, last := rows[..|rows| - 1], rows[|rows| - 1];
      NoticesAreRowsAndSecondVersions(front, enabled);
      if last.Handed? {
        ReachingOfOneRow(AllDeliveries(front), last, enabled);
      } else {
        assert AllDeliveries(rows) == AllDeliveries(front);
      }
    }
  }

  lemma {:induction false} CountIsZero(rows: seq<Disposition>, which: Disposition -> bool)
    ensures Count(rows, which) == 0 <==> forall i :: 0 <= i < |rows| ==> !which(rows[i])
  {
    if rows != [] {
      var front := rows[..|rows| - 1];
      CountIsZero(front, which);
      if forall i :: 0 <= i < |front| ==> !which(front[i]) {
        forall i | 0 <= i < |front| ensures !which(rows[i]) { assert front[i] == rows[i]; }
      }
    }
  }

  /** A signal told in two versions, with an opted-in wallet that does not hold the token. */
  ghost predicate ToldTwice(input: Input, s: Signal) {
    && OfSignal(input, s).Handed? && SplitsByHolding(input, s)
    && exists w :: w in input.enabled && !(w in input.holdings.value && s.subject in input.holdings.value[w])
  }

  lemma SplitReachesTwiceExactlyWhen(input: Input, s: Signal)
    ensures OneOrTwoVersions(OfSignal(input, s))
    ensures ReachesTwice(set w | w in input.enabled)(OfSignal(input, s)) <==> ToldTwice(input, s)
  {
    var enabled := set w | w in input.enabled;
    if OfSignal(input, s).Handed? && SplitsByHolding(input, s) {
      var holders := Holders(input.enabled, input.holdings.value, s.subject);
      var others := Others(input.enabled, holders);
      assert OfSignal(input, s).deliveries[0].audience == holders
        && OfSignal(input, s).deliveries[1].audience == others;
      assert holders[0] in holders && holders[0] in enabled;
      if w :| w in enabled && w in others { assert w !in holders; }
      if w :| w in input.enabled && !(w in input.holdings.value && s.subject in input.holdings.value[w]) {
        assert w in enabled && w in others;
      }
    }
  }

  /** The notices of a plan are the rows that reached somebody exactly when every signal
      told in two versions is about a token all opted-in wallets hold. */
  lemma NoticesCountRowsExactlyWhen(input: Input)
    ensures var enabled := set w | w in input.enabled;
      && Reaching(AllDeliveries(Rows(input)), enabled)
         == Count(Rows(input), Reaches(enabled)) + Count(Rows(input), ReachesTwice(enabled))
      && (Reaching(AllDeliveries(Rows(input)), enabled) == Count(Rows(input), Reaches(enabled))
          <==> forall i :: 0 <= i < |input.signals| ==> !ToldTwice(input, input.signals[i]))
  {
    var enabled := set w | w in input.enabled;
    var rows := Rows(input);
    var n := |input.signals|;
    forall i | 0 <= i < |rows|
      ensures OneOrTwoVersions(rows[i])
      ensures ReachesTwice(enabled)(rows[i]) <==> i < n && ToldTwice(input, input.signals[i])
    {
      if i < n {
        SplitReachesTwiceExactlyWhen(input, input.signals[i]);
      } else {
        assert rows[i] == OfEvent(input, input.events[i - n]);
      }
    }
    NoticesAreRowsAndSecondVersions(rows, enabled);
    CountIsZero(rows, ReachesTwice(enabled));
    if forall i :: 0 <= i < |rows| ==> !ReachesTwice(enabled)(rows[i]) {
      forall i | 0 <= i < n ensures !ToldTwice(input, input.signals[i]) { assert !ReachesTwice(enabled)(rows[i]); }
    }
  }

  lemma OneRowTold(input: Input, s: Signal)
    requires input.signals == [s] && input.events == [] && ToldTwice(input, s)
    ensures Rows(input) == [OfSignal(input, s)]
    ensures Reaching(AllDeliveries(Rows(input)), set w | w in input.enabled) == 2
  {
    var enabled := set w | w in input.enabled;
    var d := OfSignal(input, s);
    SplitReachesTwiceExactlyWhen(input, s);
    assert Rows(input) == [d];
    assert [d][..0] == [] && [d][0] == d;
    assert AllDeliveries([d]) == d.deliveries;
    ReachingOfOneRow([], d, enabled);
    assert [] + d.deliveries == d.deliveries;
  }

  /** One row, told to the one opted-in holder and to the other opted-in wallet: two notices. */
  lemma OneRowTwoNotices() returns (input: Input)
    ensures |Rows(input)| == 1 && Distinct(input.enabled)
    ensures Reaching(AllDeliveries(Rows(input)), set w | w in input.enabled) == 2
  {
    var n := Notice(SignalKey(0), "", "", "", "");
    var s := Signal(0, MultiplierChanged, None, None, 5, None, Some(n), Some(n));
    input := Input([s], [], [], [1, 2], map[], Some(map[1 := {5}]), 0, 4, 10);
    assert 1 in input.enabled && 2 in input.enabled;
    assert 1 in Holders(input.enabled, input.holdings.value, 5);
    assert ToldTwice(input, s);
    OneRowTold(input, s);
  }

  // --- from notices to requests -----------------------------------------------------------

  function SentToday(sentToday: map<Wallet, nat>, w: Wallet): nat { if w in sentToday then sentToday[w] else 0 }

  ghost predicate Eligible(input: Input, ds: seq<Delivery>, w: Wallet) {
    w in input.enabled && Told(ds, w) && SentToday(input.sentToday, w) < input.dailyCap
  }

  /** Exactly the opted-in, uncapped wallets something was said to, each with the
      summary of what it has heard. */
  ghost predicate OwnSummaries(input: Input, ds: seq<Delivery>, pairs: seq<Assigned>) {
    && OnePushAWallet(pairs)
    && (forall w :: (exists i :: 0 <= i < |pairs| && pairs[i].wallet == w) <==> Eligible(input, ds, w))
    && (forall i :: 0 <= i < |pairs| ==>
        Heard(ds, pairs[i].wallet) != [] && pairs[i].push == Summary(Heard(ds, pairs[i].wallet)))
    && (forall i :: 0 <= i < |pairs| ==> ToldExactly(ds, pairs[i].wallet, Heard(ds, pairs[i].wallet)))
  }

  ghost predicate Capped(input: Input, ds: seq<Delivery>, w: Wallet) {
    w in input.enabled && Told(ds, w) && SentToday(input.sentToday, w) >= input.dailyCap
  }

  const Lower := (a: Wallet, b: Wallet) => a <= b

  lemma SortedWallets(order: seq<Wallet>)
    requires Distinct(order)
    ensures Distinct(Sort(order, Lower)) && forall w :: w in Sort(order, Lower) <==> w in order
  {
    var s := Sort(order, Lower);
    forall w ensures w in s <==> w in order { SortMembers(order, Lower, w); }
    forall i, j | 0 <= i < j < |s| ensures s[i] != s[j] {
      if s[i] == s[j] {
        TwiceInMultiset(s, i, j);
        TwiceInSeq(order, s[i]);
        assert false;
      }
    }
  }

  function Uncapped(input: Input, wallets: seq<Wallet>): (r: seq<Wallet>)
    ensures forall w :: w in r <==> w in wallets && SentToday(input.sentToday, w) < input.dailyCap
    ensures Distinct(wallets) ==> Distinct(r)
    ensures |r| <= |wallets|
  {
    if wallets == [] then []
    else
      var front, w := Uncapped(input, wallets[..|wallets| - 1]), wallets[|wallets| - 1];
      assert forall x :: x in wallets <==> x == w || x in wallets[..|wallets| - 1];
      if SentToday(input.sentToday, w) < input.dailyCap then front + [w] else front
  }

  ghost predicate Pushing(ds: seq<Delivery>, wallets: seq<Wallet>, pairs: seq<Assigned>) {
    |pairs| == |wallets|
    && forall i :: 0 <= i < |pairs| ==>
         pairs[i].wallet == wallets[i] && Heard(ds, wallets[i]) != [] && pairs[i].push == Summary(Heard(ds, wallets[i]))
  }

  lemma PushingIsOwnSummaries(input: Input, ds: seq<Delivery>, wallets: seq<Wallet>, pairs: seq<Assigned>)
    requires Distinct(wallets) && forall w :: w in wallets <==> w in input.enabled && Told(ds, w)
    requires Pushing(ds, Uncapped(input, wallets), pairs)
    ensures OwnSummaries(input, ds, pairs)
  {
    PushingIsAddressed(input, ds, wallets, pairs);
    forall i | 0 <= i < |pairs| ensures ToldExactly(ds, pairs[i].wallet, Heard(ds, pairs[i].wallet)) {
      HeardMeaning(ds, pairs[i].wallet);
    }
  }

  lemma PushingIsAddressed(input: Input, ds: seq<Delivery>, wallets: seq<Wallet>, pairs: seq<Assigned>)
    requires Distinct(wallets) && forall w :: w in wallets <==> w in input.enabled && Told(ds, w)
    requires Pushing(ds, Uncapped(input, wallets), pairs)
    ensures OnePushAWallet(pairs)
    ensures forall w :: (exists i :: 0 <= i < |pairs| && pairs[i].wallet == w) <==> Eligible(input, ds, w)
  {
    var u := Uncapped(input, wallets);
    forall w ensures (exists i :: 0 <= i < |pairs| && pairs[i].wallet == w) <==> Eligible(input, ds, w) {
      if Eligible(input, ds, w) {
        assert w in u;
        var i :| 0 <= i < |u| && u[i] == w;
        assert pairs[i].wallet == w;
      }
      if i :| 0 <= i < |pairs| && pairs[i].wallet == w { assert u[i] in u; }
    }
  }

  lemma CappedAreTheRest(input: Input, ds: seq<Delivery>, wallets: seq<Wallet>)
    requires Distinct(wallets) && forall w :: w in wallets <==> w in input.enabled && Told(ds, w)
    ensures |wallets| == |set w | w in input.enabled && Told(ds, w)|
    ensures |wallets| - |Uncapped(input, wallets)| == |set w | w in input.enabled && Capped(input, ds, w)|
  {
    var u := Uncapped(input, wallets);
    var over := set w | w in input.enabled && Capped(input, ds, w);
    SizeOf(wallets, set w | w in input.enabled && Told(ds, w));
    forall w ensures w in over <==> w in wallets && w !in u {
      assert w in wallets <==> w in input.enabled && Told(ds, w);
    }
    SizeOfRest(wallets, u, over);
  }

  lemma UncappedNext(input: Input, wallets: seq<Wallet>, n: nat)
    requires n < |wallets|
    ensures Uncapped(input, wallets[..n + 1]) ==
            Uncapped(input, wallets[..n])
              + if SentToday(input.sentToday, wallets[n]) < input.dailyCap then [wallets[n]] else []
  {
    assert wallets[..n + 1][..n] == wallets[..n] && wallets[..n + 1][n] == wallets[n];
  }

  lemma PushingOneMore(ds: seq<Delivery>, wallets: seq<Wallet>, pairs: seq<Assigned>, w: Wallet)
    requires Pushing(ds, wallets, pairs) && Heard(ds, w) != []
    ensures Pushing(ds, wallets + [w], pairs + [Assigned(w, Summary(Heard(ds, w)))])
  {
  }

  method PushUncapped(mine: map<Wallet, seq<Notice>>, wallets: seq<Wallet>, input: Input, ghost ds: seq<Delivery>)
    returns (pairs: seq<Assigned>, capped: nat)
    requires forall w :: w in wallets ==> w in mine && mine[w] == Heard(ds, w) && mine[w] != []
    ensures Pushing(ds, Uncapped(input, wallets), pairs) && |pairs| + capped == |wallets|
  {
    pairs, capped := [], 0;
    for n := 0 to |wallets|
      invariant Pushing(ds, Uncapped(input, wallets[..n]), pairs) && |pairs| + capped == n
    {
      var w := wallets[n];
      UncappedNext(input, wallets, n);
      if SentToday(input.sentToday, w) >= input.dailyCap {
        capped := capped + 1;
      } else {
        var push := Summarise(mine[w]);
        PushingOneMore(ds, Uncapped(input, wallets[..n]), pairs, w);
        pairs := pairs + [Assigned(w, push)];
      }
    }
    assert wallets[..|wallets|] == wallets;
  }

  /** The wallets to push to, in address order; the rest have had today's share. */
  method ToPushes(outbox: Outbox, input: Input, ghost ds: seq<Delivery>) returns (pairs: seq<Assigned>, capped: nat)
    requires outbox.Holds(ds) && outbox.enabled == set w | w in input.enabled
    ensures OwnSummaries(input, ds, pairs)
    ensures |pairs| + capped == |set w | w in input.enabled && Told(ds, w)|
    ensures capped == |set w | w in input.enabled && Capped(input, ds, w)|
  {
    var wallets := Sort(outbox.order, Lower);
    SortedWallets(outbox.order);
    forall w | w in wallets ensures w in outbox.mine && outbox.mine[w] == Heard(ds, w) && Heard(ds, w) != [] {
      ToldIsHeard(ds, w);
    }
    pairs, capped := PushUncapped(outbox.mine, wallets, input, ds);
    PushingIsOwnSummaries(input, ds, wallets, pairs);
    CappedAreTheRest(input, ds, wallets);
  }

  /** `n` wallets something was said to have not opted in. */
  ghost predicate OutsidersToldAre(ds: seq<Delivery>, enabled: seq<Wallet>, n: nat) {
    exists s: set<Wallet> :: |s| == n && forall w :: w in s <==> w !in enabled && Told(ds, w)
  }

  datatype Plan = Plan(groups: seq<Group>, notices: nat, stale: nat, unsent: nat, notEnabled: nat, capped: nat,
                       dropped: nat)

  /** From the rows to one push a wallet, and the counts of the rest. */
  method GatherPushes(input: Input)
    returns (pairs: seq<Assigned>, notices: nat, stale: nat, unsent: nat, notEnabled: nat, capped: nat)
    requires Distinct(input.enabled)
    ensures var rows := Rows(input); var ds := AllDeliveries(rows);
      && OwnSummaries(input, ds, pairs)
      && |pairs| + capped == |set w | w in input.enabled && Told(ds, w)|
      && capped == |set w | w in input.enabled && Capped(input, ds, w)|
      && stale == Count(rows, IsStale) && unsent == Count(rows, IsUnsent)
      && notices == Reaching(ds, set w | w in input.enabled)
      && OutsidersToldAre(ds, input.enabled, notEnabled)
  {
    var outbox := new Outbox(set w | w in input.enabled);
    stale, unsent := PlaceRows(outbox, input);
    ghost var ds := AllDeliveries(Rows(input));
    pairs, capped := ToPushes(outbox, input, ds);
    assert forall w :: w in outbox.notEnabled <==> w !in input.enabled && Told(ds, w);
    notices, notEnabled := outbox.notices, |outbox.notEnabled|;
  }

  /** The requests of one pass. Each eligible wallet is in exactly one batch, kept or
      dropped, with its own summary; wallets in batches and capped ones are all the
      opted-in wallets something was for; what is kept reaches the most wallets any
      choice of that many requests could. */
  method PlanEvents(input: Input, messageLe: (string, string) -> bool)
    returns (plan: Plan, dropped: seq<Group>, pairs: seq<Assigned>)
    requires Distinct(input.enabled) && TotalPreorder(messageLe)
    ensures var rows := Rows(input); var ds := AllDeliveries(rows);
      && OwnSummaries(input, ds, pairs) && Planned(pairs, plan.groups, dropped, input.maxRequests)
      && FewestRequests(pairs, |plan.groups| + |dropped|) && plan.dropped == |dropped|
      && BySize(plan.groups + dropped) && TiesByMessage(plan.groups + dropped, messageLe)
      && Reach(plan.groups) + Reach(dropped) + plan.capped == |set w | w in input.enabled && Told(ds, w)|
      && plan.capped == |set w | w in input.enabled && Capped(input, ds, w)|
      && plan.stale == Count(rows, IsStale) && plan.unsent == Count(rows, IsUnsent)
      && plan.notices == Count(rows, Reaches(set w | w in input.enabled))
           + Count(rows, ReachesTwice(set w | w in input.enabled))
      && OutsidersToldAre(ds, input.enabled, plan.notEnabled)
  {
    var notices, stale, unsent, notEnabled, capped, kept;
    pairs, notices, stale, unsent, notEnabled, capped := GatherPushes(input);
    kept, dropped := PlanRequests(pairs, input.maxRequests, messageLe);
    CarriedCount(pairs, kept, dropped);
    NoticesCountRowsExactlyWhen(input);
    plan := Plan(kept, notices, stale, unsent, notEnabled, capped, |dropped|);
  }

  lemma CarriedCount(pairs: seq<Assigned>, kept: seq<Group>, dropped: seq<Group>)
    requires multiset(Carried(kept)) + multiset(Carried(dropped)) == multiset(pairs)
    ensures Reach(kept) + Reach(dropped) == |pairs|
  {
    ReachIsCarried(kept);
    ReachIsCarried(dropped);
    assert |multiset(Carried(kept)) + multiset(Carried(dropped))| == |multiset(pairs)|;
  }
}
