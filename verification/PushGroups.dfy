/** From one push a wallet to the requests of one pass: grouped by what they say,
    cut into batches the API takes, the biggest audiences first, over-budget ones
    dropped. Wallets are numbers here: lowercase addresses of one length order as
    the numbers they spell. */
module PushGroups {
  import opened Common
  import opened Sorting
  import opened Notices

  type Wallet = nat

  const BATCH_MAX := 1000

  datatype Assigned = Assigned(wallet: Wallet, push: Push)
  datatype Group = Group(push: Push, wallets: seq<Wallet>)

  // --- what a list of groups carries --------------------------------------------

  function Paired(wallets: seq<Wallet>, push: Push): (r: seq<Assigned>)
    ensures |r| == |wallets|
  {
    seq(|wallets|, i requires 0 <= i < |wallets| => Assigned(wallets[i], push))
  }

  /** Every wallet with the push its group carries. */
  function Carried(groups: seq<Group>): seq<Assigned> {
    if groups == [] then []
    else Carried(groups[..|groups| - 1]) + Paired(groups[|groups| - 1].wallets, groups[|groups| - 1].push)
  }

  /** How many wallets a list of groups reaches, counted group by group. */
  function Reach(groups: seq<Group>): nat {
    if groups == [] then 0 else |groups[0].wallets| + Reach(groups[1..])
  }

  lemma CarriedSnoc(groups: seq<Group>, g: Group)
    ensures Carried(groups + [g]) == Carried(groups) + Paired(g.wallets, g.push)
  {
    assert (groups + [g])[..|groups|] == groups;
  }

  lemma {:induction false} CarriedAppend(a: seq<Group>, b: seq<Group>)
    ensures Carried(a + b) == Carried(a) + Carried(b)
  {
    if b == [] {
      assert a + b == a;
    } else {
      var front, g := b[..|b| - 1], b[|b| - 1];
      assert a + b == (a + front) + [g] && b == front + [g];
      CarriedSnoc(a + front, g);
      CarriedSnoc(front, g);
      CarriedAppend(a, front);
    }
  }

  /** One group taken out of its place. */
  lemma CarriedAround(a: seq<Group>, g: Group, b: seq<Group>)
    ensures multiset(Carried(a + [g] + b)) == multiset(Carried(a + b)) + multiset(Paired(g.wallets, g.push))
  {
    CarriedAppend(a + [g], b);
    CarriedSnoc(a, g);
    CarriedAppend(a, b);
  }

  lemma CarriedOne(g: Group)
    ensures Carried([g]) == Paired(g.wallets, g.push)
  {
    assert [g] == [] + [g];
    CarriedSnoc([], g);
  }

  lemma PairedAppend(a: seq<Wallet>, b: seq<Wallet>, push: Push)
    ensures Paired(a + b, push) == Paired(a, push) + Paired(b, push)
  {
  }

  lemma {:induction false} ReachIsCarried(groups: seq<Group>)
    ensures Reach(groups) == |Carried(groups)|
  {
    if groups != [] {
      ReachIsCarried(groups[1..]);
      assert groups == [groups[0]] + groups[1..];
      CarriedAppend([groups[0]], groups[1..]);
      CarriedOne(groups[0]);
    }
  }

  lemma {:induction false} ReachAppend(a: seq<Group>, b: seq<Group>)
    ensures Reach(a + b) == Reach(a) + Reach(b)
  {
    if a == [] {
      assert a + b == b;
    } else {
      ReachAppend(a[1..], b);
      assert (a + b)[0] == a[0] && (a + b)[1..] == a[1..] + b;
    }
  }

  // --- one group for each thing said ------------------------------------------------

  function Find(groups: seq<Group>, push: Push): (i: nat)
    ensures i <= |groups| && (i < |groups| ==> groups[i].push == push)
    ensures forall j :: 0 <= j < i ==> groups[j].push != push
  {
    if groups == [] || groups[0].push == push then 0 else 1 + Find(groups[1..], push)
  }

  function AddTo(groups: seq<Group>, a: Assigned): seq<Group> {
    var i := Find(groups, a.push);
    if i < |groups| then groups[i := groups[i].(wallets := groups[i].wallets + [a.wallet])]
    else groups + [Group(a.push, [a.wallet])]
  }

  ghost predicate OneGroupAPush(groups: seq<Group>) {
    forall i, j :: 0 <= i < j < |groups| ==> groups[i].push != groups[j].push
  }

  ghost predicate Populated(groups: seq<Group>) {
    forall i :: 0 <= i < |groups| ==> groups[i].wallets != []
  }

  lemma AddToKeepsShape(groups: seq<Group>, a: Assigned)
    requires OneGroupAPush(groups) && Populated(groups)
    ensures OneGroupAPush(AddTo(groups, a)) && Populated(AddTo(groups, a))
  {
  }

  lemma AddToCarries(groups: seq<Group>, a: Assigned)
    ensures multiset(Carried(AddTo(groups, a))) == multiset(Carried(groups)) + multiset{a}
  {
    var i := Find(groups, a.push);
    if i < |groups| {
      GroupGrows(groups, i, a.wallet);
    } else {
      GroupIsNew(groups, a);
    }
  }

  lemma GroupIsNew(groups: seq<Group>, a: Assigned)
    ensures multiset(Carried(groups + [Group(a.push, [a.wallet])])) == multiset(Carried(groups)) + multiset{a}
  {
    CarriedSnoc(groups, Group(a.push, [a.wallet]));
    assert Paired([a.wallet], a.push) == [a];
  }

  lemma GroupGrows(groups: seq<Group>, i: nat, w: Wallet)
    requires i < |groups|
    ensures multiset(Carried(groups[i := groups[i].(wallets := groups[i].wallets + [w])])) ==
            multiset(Carried(groups)) + multiset{Assigned(w, groups[i].push)}
  {
    var more := groups[i].(wallets := groups[i].wallets + [w]);
    assert groups[..i] + [groups[i]] + groups[i + 1..] == groups;
    assert groups[..i] + [more] + groups[i + 1..] == groups[i := more];
    CarriedAround(groups[..i], groups[i], groups[i + 1..]);
    CarriedAround(groups[..i], more, groups[i + 1..]);
    PairedAppend(groups[i].wallets, [w], groups[i].push);
    assert Paired([w], groups[i].push) == [Assigned(w, groups[i].push)];
  }

  lemma OneMoreGrouped(pairs: seq<Assigned>, n: nat, groups: seq<Group>)
    requires n < |pairs| && multiset(Carried(groups)) == multiset(pairs[..n])
    requires OneGroupAPush(groups) && Populated(groups)
    ensures multiset(Carried(AddTo(groups, pairs[n]))) == multiset(pairs[..n + 1])
    ensures OneGroupAPush(AddTo(groups, pairs[n])) && Populated(AddTo(groups, pairs[n]))
  {
    AddToCarries(groups, pairs[n]);
    AddToKeepsShape(groups, pairs[n]);
    assert pairs[..n + 1] == pairs[..n] + [pairs[n]];
  }

  /** Fills the groups in the order the wallets come, a new group for each new push. */
  method GroupByMessage(pairs: seq<Assigned>) returns (groups: seq<Group>)
    ensures multiset(Carried(groups)) == multiset(pairs)
    ensures OneGroupAPush(groups) && Populated(groups)
  {
    groups := [];
    for n := 0 to |pairs|
      invariant multiset(Carried(groups)) == multiset(pairs[..n])
      invariant OneGroupAPush(groups) && Populated(groups)
    {
      OneMoreGrouped(pairs, n, groups);
      ghost var next := AddTo(groups, pairs[n]);
      var i := Find(groups, pairs[n].push);
      if i < |groups| {
        groups := groups[i := groups[i].(wallets := groups[i].wallets + [pairs[n].wallet])];
      } else {
        groups := groups + [Group(pairs[n].push, [pairs[n].wallet])];
      }
      assert groups == next;
    }
    assert pairs[..|pairs|] == pairs;
  }

  // --- batches -----------------------------------------------------------------------

  ghost predicate Sized(batches: seq<Group>) {
    forall i :: 0 <= i < |batches| ==> 1 <= |batches[i].wallets| <= BATCH_MAX
  }

  /** How many requests a group takes. */
  function Requests(wallets: nat): (n: nat)
    ensures BATCH_MAX * n >= wallets && (n > 0 ==> BATCH_MAX * (n - 1) < wallets)
  {
    (wallets + BATCH_MAX - 1) / BATCH_MAX
  }

  function TotalRequests(groups: seq<Group>): nat {
    if groups == [] then 0 else TotalRequests(groups[..|groups| - 1]) + Requests(|groups[|groups| - 1].wallets|)
  }

  /** `n` is how many requests the pushes take, each split no further than it must be. */
  ghost predicate FewestRequests(pairs: seq<Assigned>, n: nat) {
    exists groups ::
      && OneGroupAPush(groups) && Populated(groups) && multiset(Carried(groups)) == multiset(pairs)
      && n == TotalRequests(groups)
  }

  method SliceGroup(group: Group) returns (batches: seq<Group>)
    ensures Carried(batches) == Paired(group.wallets, group.push)
    ensures Sized(batches) && |batches| == Requests(|group.wallets|)
  {
    batches := [];
    var index := 0;
    while index < |group.wallets|
      invariant 0 <= index && index == BATCH_MAX * |batches|
      invariant index < |group.wallets| + BATCH_MAX
      invariant Carried(batches) == Paired(group.wallets[..Min(index, |group.wallets|)], group.push)
      invariant Sized(batches)
    {
      var end := Min(index + BATCH_MAX, |group.wallets|);
      var slice := group.wallets[index..end];
      CarriedSnoc(batches, group.(wallets := slice));
      PairedAppend(group.wallets[..index], slice, group.push);
      assert group.wallets[..index] + slice == group.wallets[..end];
      batches := batches + [group.(wallets := slice)];
      index := index + BATCH_MAX;
    }
    assert group.wallets[..|group.wallets|] == group.wallets;
  }

  method Slice(groups: seq<Group>) returns (batches: seq<Group>)
    ensures Carried(batches) == Carried(groups)
    ensures Sized(batches) && |batches| == TotalRequests(groups)
  {
    batches := [];
    for n := 0 to |groups|
      invariant Carried(batches) == Carried(groups[..n]) && Sized(batches)
      invariant |batches| == TotalRequests(groups[..n])
    {
      var more := SliceGroup(groups[n]);
      CarriedAppend(batches, more);
      assert groups[..n + 1][..n] == groups[..n] && groups[..n + 1][n] == groups[n];
      batches := batches + more;
    }
    assert groups[..|groups|] == groups;
  }

  // --- the biggest audiences first -------------------------------------------------------

  /** `messageLe` stands for the locale's order on messages, which only breaks ties. */
  function Bigger(messageLe: (string, string) -> bool): (Group, Group) -> bool {
    (a: Group, b: Group) => |a.wallets| > |b.wallets|
      || (|a.wallets| == |b.wallets| && messageLe(a.push.message, b.push.message))
  }

  lemma BiggerIsAPreorder(messageLe: (string, string) -> bool)
    requires TotalPreorder(messageLe)
    ensures TotalPreorder(Bigger(messageLe))
  {
    var le := Bigger(messageLe);
    forall a: Group, b: Group ensures le(a, b) || le(b, a) {
      assert messageLe(a.push.message, b.push.message) || messageLe(b.push.message, a.push.message);
    }
    forall a: Group, b: Group, c: Group | le(a, b) && le(b, c) ensures le(a, c) {
      var x, y, z := a.push.message, b.push.message, c.push.message;
      assert messageLe(x, y) && messageLe(y, z) ==> messageLe(x, z);
    }
  }

  ghost predicate BySize(groups: seq<Group>) {
    forall i, j :: 0 <= i < j < |groups| ==> |groups[i].wallets| >= |groups[j].wallets|
  }

  /** Those of one size in the order of what they say. */
  ghost predicate TiesByMessage(groups: seq<Group>, messageLe: (string, string) -> bool) {
    forall i, j :: 0 <= i < j < |groups| && |groups[i].wallets| == |groups[j].wallets| ==>
      messageLe(groups[i].push.message, groups[j].push.message)
  }

  lemma SortedBySize(batches: seq<Group>, messageLe: (string, string) -> bool)
    requires TotalPreorder(messageLe)
    ensures BySize(Sort(batches, Bigger(messageLe))) && TiesByMessage(Sort(batches, Bigger(messageLe)), messageLe)
  {
    var le := Bigger(messageLe);
    BiggerIsAPreorder(messageLe);
    SortSorted(batches, le);
    var sorted := Sort(batches, le);
    assert forall i, j :: 0 <= i < j < |sorted| ==> le(sorted[i], sorted[j]);
  }

  lemma ReachRemove(groups: seq<Group>, i: nat)
    requires i < |groups|
    ensures Reach(groups) == Reach(groups[..i] + groups[i + 1..]) + |groups[i].wallets|
  {
    assert groups == groups[..i] + ([groups[i]] + groups[i + 1..]);
    ReachAppend(groups[..i], [groups[i]] + groups[i + 1..]);
    ReachAppend(groups[..i], groups[i + 1..]);
    assert ([groups[i]] + groups[i + 1..])[1..] == groups[i + 1..];
  }

  lemma MultisetRemove<T>(s: seq<T>, i: nat)
    requires i < |s|
    ensures multiset(s[..i] + s[i + 1..]) == multiset(s) - multiset{s[i]}
  {
    assert s == s[..i] + [s[i]] + s[i + 1..];
  }

  /** In a list ordered by size no choice of `k` groups reaches more wallets than the
      first `k`. */
  lemma {:induction false} FirstReachMost(groups: seq<Group>, chosen: seq<Group>, k: nat)
    requires BySize(groups) && multiset(chosen) <= multiset(groups) && |chosen| <= k <= |groups|
    ensures Reach(chosen) <= Reach(groups[..k])
    decreases |groups|
  {
    if chosen == [] {
    } else {
      var head, tail := groups[0], groups[1..];
      assert groups == [head] + tail;
      assert groups[..k] == [head] + tail[..k - 1];
      assert (groups[..k])[1..] == tail[..k - 1];
      if head in chosen {
        assert Reach(groups[..k]) == |head.wallets| + Reach(tail[..k - 1]);
        var rest := WithoutHead(head, tail, chosen);
        FirstReachMost(tail, rest, k - 1);
      } else {
        ChosenFitsTail(groups, chosen);
        LastOut(groups, chosen, k);
      }
    }
  }

  lemma WithoutHead(head: Group, tail: seq<Group>, chosen: seq<Group>) returns (rest: seq<Group>)
    requires head in chosen && multiset(chosen) <= multiset([head] + tail)
    ensures multiset(rest) <= multiset(tail) && |rest| == |chosen| - 1
    ensures Reach(chosen) == Reach(rest) + |head.wallets|
  {
    var i :| 0 <= i < |chosen| && chosen[i] == head;
    rest := chosen[..i] + chosen[i + 1..];
    ReachRemove(chosen, i);
    MultisetRemove(chosen, i);
    assert multiset([head] + tail) == multiset{head} + multiset(tail);
  }

  lemma ChosenFitsTail(groups: seq<Group>, chosen: seq<Group>)
    requires groups != [] && multiset(chosen) <= multiset(groups) && groups[0] !in chosen
    ensures multiset(chosen) <= multiset(groups[1..])
  {
    assert groups == [groups[0]] + groups[1..];
  }

  /** A choice without the head can take the head for any of its groups. */
  lemma {:induction false} LastOut(groups: seq<Group>, chosen: seq<Group>, k: nat)
    requires chosen != [] && groups != [] && BySize(groups)
    requires multiset(chosen) <= multiset(groups[1..]) && |chosen| <= k <= |groups|
    ensures Reach(chosen) <= Reach(groups[..k])
    decreases |groups|, 0
  {
    var rest := chosen[1..];
    assert chosen == [chosen[0]] + rest;
    assert chosen[0] in multiset(groups[1..]);
    var j :| 0 <= j < |groups[1..]| && groups[1..][j] == chosen[0];
    assert |groups[0].wallets| >= |groups[j + 1].wallets|;
    assert groups[..k][1..] == groups[1..][..k - 1];
    FirstReachMost(groups[1..], rest, k - 1);
  }

  // --- one pass's requests --------------------------------------------------------------

  /** No choice of at most `max` of all the batches reaches more wallets than `kept`. */
  ghost predicate ReachesMost(kept: seq<Group>, all: seq<Group>, max: nat) {
    forall chosen: seq<Group> :: multiset(chosen) <= multiset(all) && |chosen| <= max ==> Reach(chosen) <= Reach(kept)
  }

  /** Largest first, then as many as one pass may send. */
  method KeepBiggest(batches: seq<Group>, max: nat, messageLe: (string, string) -> bool)
    returns (kept: seq<Group>, dropped: seq<Group>)
    requires TotalPreorder(messageLe)
    ensures multiset(kept) + multiset(dropped) == multiset(batches) && |kept| == Min(max, |batches|)
    ensures multiset(Carried(kept)) + multiset(Carried(dropped)) == multiset(Carried(batches))
    ensures ReachesMost(kept, batches, max)
    ensures BySize(kept + dropped) && TiesByMessage(kept + dropped, messageLe)
    ensures forall i, j :: 0 <= i < |kept| && 0 <= j < |dropped| ==> |kept[i].wallets| >= |dropped[j].wallets|
  {
    var sorted := Sort(batches, Bigger(messageLe));
    SortedBySize(batches, messageLe);
    var k := Min(max, |sorted|);
    kept := sorted[..k];
    dropped := sorted[k..];
    assert sorted == kept + dropped;
    CarriedAppend(kept, dropped);
    CarriedPermutes(sorted, batches);
    forall chosen: seq<Group> | multiset(chosen) <= multiset(batches) && |chosen| <= max
      ensures Reach(chosen) <= Reach(kept) {
      SubmultisetIsShorter(chosen, batches);
      FirstReachMost(sorted, chosen, k);
    }
  }

  lemma SubmultisetIsShorter<T>(a: seq<T>, b: seq<T>)
    requires multiset(a) <= multiset(b)
    ensures |a| <= |b|
  {
    var rest := multiset(b) - multiset(a);
    assert multiset(b) == multiset(a) + rest;
    assert |multiset(a)| == |a| && |multiset(b)| == |b|;
  }

  lemma TakeOut(b: seq<Group>, g: Group) returns (rest: seq<Group>)
    requires g in b
    ensures multiset(rest) == multiset(b) - multiset{g}
    ensures multiset(Carried(b)) == multiset(Carried(rest)) + multiset(Paired(g.wallets, g.push))
  {
    var i :| 0 <= i < |b| && b[i] == g;
    rest := b[..i] + b[i + 1..];
    MultisetRemove(b, i);
    assert b[..i] + [g] + b[i + 1..] == b;
    CarriedAround(b[..i], g, b[i + 1..]);
  }

  lemma {:induction false} CarriedPermutes(a: seq<Group>, b: seq<Group>)
    requires multiset(a) == multiset(b)
    ensures multiset(Carried(a)) == multiset(Carried(b))
    decreases |a|
  {
    if a == [] {
      assert |multiset(b)| == 0;
    } else {
      var front, g := a[..|a| - 1], a[|a| - 1];
      assert a == front + [g];
      assert g in multiset(b);
      var rest := TakeOut(b, g);
      assert multiset(a) == multiset(front) + multiset{g};
      CarriedPermutes(front, rest);
      CarriedSnoc(front, g);
    }
  }

  // --- every wallet in one batch ---------------------------------------------------------

  ghost predicate OnePushAWallet(pairs: seq<Assigned>) {
    forall i, j :: 0 <= i < j < |pairs| ==> pairs[i].wallet != pairs[j].wallet
  }

  /** No wallet stands twice in one batch, nor in two. */
  ghost predicate Disjoint(groups: seq<Group>) {
    && (forall i :: 0 <= i < |groups| ==> Distinct(groups[i].wallets))
    && (forall i, j, w :: 0 <= i < j < |groups| && w in groups[i].wallets ==> w !in groups[j].wallets)
  }

  lemma TwiceInMultiset<T>(s: seq<T>, i: nat, j: nat)
    requires i < j < |s| && s[i] == s[j]
    ensures multiset(s)[s[i]] >= 2
  {
    assert s == s[..j] + [s[j]] + s[j + 1..];
    assert s[..j][i] == s[i];
    assert s[i] in multiset(s[..j]);
  }

  lemma TwiceInSeq<T>(s: seq<T>, x: T)
    requires multiset(s)[x] >= 2
    ensures exists i, j :: 0 <= i < j < |s| && s[i] == x && s[j] == x
  {
    assert x in multiset(s);
    var i :| 0 <= i < |s| && s[i] == x;
    MultisetRemove(s, i);
    var rest := s[..i] + s[i + 1..];
    assert x in multiset(rest);
    var j :| 0 <= j < |rest| && rest[j] == x;
    var j' := if j < i then j else j + 1;
    assert s[j'] == x && j' != i;
    if j' < i { assert s[j'] == x && s[i] == x; }
  }

  lemma OnePushPermutes(a: seq<Assigned>, b: seq<Assigned>)
    requires multiset(a) == multiset(b) && OnePushAWallet(b)
    ensures OnePushAWallet(a)
  {
    forall i, j | 0 <= i < j < |a| ensures a[i].wallet != a[j].wallet {
      assert a[i] in multiset(b) && a[j] in multiset(b);
      if a[i] == a[j] {
        TwiceInMultiset(a, i, j);
        TwiceInSeq(b, a[i]);
        assert false;
      }
    }
  }

  lemma {:induction false} OnePushMakesDisjoint(groups: seq<Group>)
    requires OnePushAWallet(Carried(groups))
    ensures Disjoint(groups)
  {
    if groups != [] {
      var front, last := groups[..|groups| - 1], groups[|groups| - 1];
      var a, b := Carried(front), Paired(last.wallets, last.push);
      assert Carried(groups) == a + b;
      assert forall i :: 0 <= i < |a| ==> (a + b)[i] == a[i];
      OnePushMakesDisjoint(front);
      forall x, y | 0 <= x < y < |last.wallets| ensures last.wallets[x] != last.wallets[y] {
        assert (a + b)[|a| + x] == b[x] && (a + b)[|a| + y] == b[y];
      }
      forall i, w | 0 <= i < |front| && w in front[i].wallets ensures w !in last.wallets {
        InCarried(front, i, w);
        var k :| 0 <= k < |a| && a[k].wallet == w;
        forall y | 0 <= y < |last.wallets| ensures last.wallets[y] != w {
          assert (a + b)[k].wallet == w && (a + b)[|a| + y] == b[y];
        }
      }
    }
  }

  lemma {:induction false} InCarried(groups: seq<Group>, i: nat, w: Wallet)
    requires i < |groups| && w in groups[i].wallets
    ensures exists k :: 0 <= k < |Carried(groups)| && Carried(groups)[k].wallet == w
  {
    var front, last := groups[..|groups| - 1], groups[|groups| - 1];
    if i == |front| {
      var y :| 0 <= y < |last.wallets| && last.wallets[y] == w;
      assert Carried(groups)[|Carried(front)| + y].wallet == w;
    } else {
      InCarried(front, i, w);
      var k :| 0 <= k < |Carried(front)| && Carried(front)[k].wallet == w;
      assert Carried(groups)[k].wallet == w;
    }
  }

  /** Batches of one pass: `kept` are sent, `dropped` were over its budget. */
  ghost predicate Planned(pairs: seq<Assigned>, kept: seq<Group>, dropped: seq<Group>, max: nat) {
    && multiset(Carried(kept)) + multiset(Carried(dropped)) == multiset(pairs)
    && Sized(kept) && Sized(dropped) && Disjoint(kept + dropped)
    && |kept| == Min(max, |kept| + |dropped|)
    && ReachesMost(kept, kept + dropped, max)
  }

  /** The grouping, slicing, sorting and dropping the event and weekly planners share. */
  method PlanRequests(pairs: seq<Assigned>, max: nat, messageLe: (string, string) -> bool)
    returns (kept: seq<Group>, dropped: seq<Group>)
    requires TotalPreorder(messageLe) && OnePushAWallet(pairs)
    ensures Planned(pairs, kept, dropped, max) && FewestRequests(pairs, |kept| + |dropped|)
    ensures BySize(kept + dropped) && TiesByMessage(kept + dropped, messageLe)
  {
    var groups := GroupByMessage(pairs);
    var batches := Slice(groups);
    assert FewestRequests(pairs, |batches|);
    kept, dropped := KeepBiggest(batches, max, messageLe);
    SplitSizes(batches, kept, dropped);
    CarriedAppend(kept, dropped);
    assert multiset(Carried(kept + dropped)) == multiset(pairs);
    OnePushPermutes(Carried(kept + dropped), pairs);
    OnePushMakesDisjoint(kept + dropped);
    assert multiset(kept + dropped) == multiset(batches);
  }

  lemma SplitSizes(batches: seq<Group>, kept: seq<Group>, dropped: seq<Group>)
    requires multiset(kept) + multiset(dropped) == multiset(batches) && Sized(batches)
    ensures Sized(kept) && Sized(dropped) && |batches| == |kept| + |dropped|
  {
    forall i | 0 <= i < |kept| ensures 1 <= |kept[i].wallets| <= BATCH_MAX {
      assert kept[i] in multiset(kept);
      assert kept[i] in multiset(batches);
    }
    forall i | 0 <= i < |dropped| ensures 1 <= |dropped[i].wallets| <= BATCH_MAX {
      assert dropped[i] in multiset(dropped);
      assert dropped[i] in multiset(batches);
    }
    assert |multiset(kept) + multiset(dropped)| == |multiset(batches)|;
  }
}
