/** Service alerts: one episode a failed unit, carried from pass to pass by a file. */
module OpsAlerts {
  import opened Common

  type UnitName = nat

  datatype Activity = Failed | Active | Settling | OtherActivity
  datatype UnitState = UnitState(name: UnitName, loaded: bool, activity: Activity, result: string,
                                 exitStatus: Option<int>, changedAt: Option<int>, lastExitAt: Option<int>)
  datatype Episode = Episode(name: UnitName, since: int, lastSeen: int, result: string, exitStatus: Option<int>,
                             notified: Option<int>)
  datatype How = Healthy | Cleared | Removed
  datatype Recovery = Recovery(episode: Episode, how: How)
  datatype Pass = Pass(episodes: seq<Episode>, failed: seq<Episode>, stillFailing: seq<Episode>,
                       recovered: seq<Recovery>)

  const MINUTE := 60000
  const REMIND_AFTER := 24 * 60 * MINUTE
  const QUIET := 10 * MINUTE

  // --- a list of episodes as a map by unit -----------------------------------------

  function Lookup(eps: seq<Episode>, u: UnitName): (r: Option<Episode>)
    ensures r.Some? ==> r.value in eps && r.value.name == u
    ensures r == None ==> forall e :: e in eps ==> e.name != u
  {
    if eps == [] then None else if eps[0].name == u then Some(eps[0]) else Lookup(eps[1..], u)
  }

  /** In the place of the unit's episode, or at the end. */
  function Upsert(eps: seq<Episode>, e: Episode): seq<Episode> {
    if eps == [] then [e] else if eps[0].name == e.name then [e] + eps[1..] else [eps[0]] + Upsert(eps[1..], e)
  }

  ghost predicate OneEach(eps: seq<Episode>) {
    forall i, j :: 0 <= i < j < |eps| ==> eps[i].name != eps[j].name
  }

  lemma {:induction false} UpsertMeaning(eps: seq<Episode>, e: Episode)
    ensures forall u :: Lookup(Upsert(eps, e), u) == if u == e.name then Some(e) else Lookup(eps, u)
    ensures forall x :: x in Upsert(eps, e) ==> x == e || x in eps
    ensures OneEach(eps) ==> OneEach(Upsert(eps, e))
  {
    if eps != [] && eps[0].name != e.name {
      UpsertMeaning(eps[1..], e);
      var tail := Upsert(eps[1..], e);
      assert Upsert(eps, e) == [eps[0]] + tail;
      if OneEach(eps) {
        forall i | 0 <= i < |tail| ensures tail[i].name != eps[0].name {
          assert tail[i] in tail;
          assert tail[i] == e || tail[i] in eps[1..];
        }
      }
    }
  }

  /** Every episode keeps its place. */
  lemma {:induction false} UpsertKeepsPlaces(eps: seq<Episode>, e: Episode)
    ensures |eps| <= |Upsert(eps, e)| <= |eps| + 1
    ensures forall k :: 0 <= k < |eps| ==> Upsert(eps, e)[k].name == eps[k].name
  {
    if eps != [] && eps[0].name != e.name { UpsertKeepsPlaces(eps[1..], e); }
  }

  lemma {:induction false} LookupIsMembership(eps: seq<Episode>, e: Episode)
    requires OneEach(eps)
    ensures e in eps <==> Lookup(eps, e.name) == Some(e)
  {
    if eps != [] {
      LookupIsMembership(eps[1..], e);
      if e in eps && e != eps[0] {
        assert e in eps[1..];
        var i :| 0 <= i < |eps[1..]| && eps[1..][i] == e;
        assert eps[i + 1].name != eps[0].name;
      }
    }
  }

  function Loaded(stored: seq<Episode>): seq<Episode> {
    if stored == [] then [] else Upsert(Loaded(stored[..|stored| - 1]), stored[|stored| - 1])
  }

  lemma {:induction false} LoadedIsOneEach(stored: seq<Episode>)
    ensures OneEach(Loaded(stored))
    ensures OneEach(stored) ==> Loaded(stored) == stored
  {
    if stored != [] {
      var front, last := stored[..|stored| - 1], stored[|stored| - 1];
      LoadedIsOneEach(front);
      UpsertMeaning(Loaded(front), last);
      if OneEach(stored) {
        UpsertAppends(front, last);
        assert stored == front + [last];
      }
    }
  }

  lemma {:induction false} UpsertAppends(eps: seq<Episode>, e: Episode)
    requires forall i :: 0 <= i < |eps| ==> eps[i].name != e.name
    ensures Upsert(eps, e) == eps + [e]
  {
    if eps != [] { UpsertAppends(eps[1..], e); }
  }

  // --- one pass's observations --------------------------------------------------------

  /** The last block about a unit is the one that counts. */
  function ByUnit(units: seq<UnitState>, u: UnitName): Option<UnitState> {
    if units == [] then None
    else if units[|units| - 1].name == u then Some(units[|units| - 1]) else ByUnit(units[..|units| - 1], u)
  }

  function Sighted(open: Option<Episode>, unit: UnitState, now: int): Episode {
    if open.Some? then open.value.(lastSeen := now, result := unit.result, exitStatus := unit.exitStatus)
    else Episode(unit.name, if unit.changedAt.Some? then unit.changedAt.value else now, now, unit.result,
                 unit.exitStatus, None)
  }

  function Observed(eps: seq<Episode>, units: seq<UnitState>, now: int): seq<Episode> {
    if units == [] then eps
    else
      var before, unit := Observed(eps, units[..|units| - 1], now), units[|units| - 1];
      if unit.activity.Failed? then Upsert(before, Sighted(Lookup(before, unit.name), unit, now)) else before
  }

  ghost predicate SeenFailed(units: seq<UnitState>, u: UnitName) {
    exists i :: 0 <= i < |units| && units[i].name == u && units[i].activity.Failed?
  }

  /** No later block is about the unit. */
  ghost predicate LastBlock(units: seq<UnitState>, u: UnitName, i: nat) {
    i < |units| && units[i].name == u && forall j :: i < j < |units| ==> units[j].name != u
  }

  lemma {:induction false} ByUnitIsTheLast(units: seq<UnitState>, u: UnitName)
    ensures ByUnit(units, u) == None <==> forall i :: 0 <= i < |units| ==> units[i].name != u
    ensures ByUnit(units, u).Some? ==> exists i: nat :: LastBlock(units, u, i) && ByUnit(units, u) == Some(units[i])
  {
    if units != [] {
      var front, last := units[..|units| - 1], units[|units| - 1];
      ByUnitIsTheLast(front, u);
      if last.name == u {
        assert LastBlock(units, u, |units| - 1);
      } else if ByUnit(front, u).Some? {
        var i: nat :| LastBlock(front, u, i) && ByUnit(front, u) == Some(front[i]);
        assert LastBlock(units, u, i) && units[i] == front[i];
      } else {
        forall i | 0 <= i < |units| ensures units[i].name != u { if i < |front| { assert units[i] == front[i]; } }
      }
    }
  }

  predicate Fails(unit: UnitState, u: UnitName) { unit.name == u && unit.activity.Failed? }

  /** The first, and the last, block that calls the unit failed. */
  ghost function FirstFault(units: seq<UnitState>, u: UnitName): Option<UnitState> {
    if units == [] then None else if Fails(units[0], u) then Some(units[0]) else FirstFault(units[1..], u)
  }

  ghost function LastFault(units: seq<UnitState>, u: UnitName): Option<UnitState> {
    if units == [] then None
    else if Fails(units[|units| - 1], u) then Some(units[|units| - 1]) else LastFault(units[..|units| - 1], u)
  }

  lemma {:induction false} FirstFaultSnoc(front: seq<UnitState>, last: UnitState, u: UnitName)
    ensures FirstFault(front + [last], u) ==
      if FirstFault(front, u).Some? then FirstFault(front, u) else if Fails(last, u) then Some(last) else None
  {
    var units := front + [last];
    if front == [] {
      assert units == [last];
    } else {
      assert units[1..] == front[1..] + [last];
      FirstFaultSnoc(front[1..], last, u);
    }
  }

  lemma {:induction false} FaultsAreSeen(units: seq<UnitState>, u: UnitName)
    ensures SeenFailed(units, u) <==> FirstFault(units, u).Some?
    ensures SeenFailed(units, u) <==> LastFault(units, u).Some?
  {
    if units != [] {
      var front, last := units[..|units| - 1], units[|units| - 1];
      FaultsAreSeen(front, u);
      FirstFaultSnoc(front, last, u);
      assert units == front + [last];
      if SeenFailed(front, u) {
        var i :| 0 <= i < |front| && front[i].name == u && front[i].activity.Failed?;
        assert units[i] == front[i];
      }
      assert SeenFailed(units, u) <==> SeenFailed(front, u) || Fails(last, u);
    }
  }

  /** The episode as the unit's failing blocks leave it: begun when the first of them says,
      unless it was open already, and with what the last of them says of the failure. */
  ghost predicate Renewed(e: Episode, before: Option<Episode>, units: seq<UnitState>, now: int, u: UnitName) {
    && SeenFailed(units, u) && FirstFault(units, u).Some? && LastFault(units, u).Some?
    && var first, last := FirstFault(units, u).value, LastFault(units, u).value;
    && e.name == u && e.lastSeen == now && e.result == last.result && e.exitStatus == last.exitStatus
    && e.notified == (if before.Some? then before.value.notified else None)
    && e.since == if before.Some? then before.value.since
                  else if first.changedAt.Some? then first.changedAt.value else now
  }

  /** What a pass makes of one unit's episode: seen failed it is opened or renewed,
      keeping when it began and when it was last told; otherwise it is as it was. */
  lemma {:induction false} ObservedMeaning(eps: seq<Episode>, units: seq<UnitState>, now: int, u: UnitName)
    requires OneEach(eps)
    ensures OneEach(Observed(eps, units, now))
    ensures !SeenFailed(units, u) ==> Lookup(Observed(eps, units, now), u) == Lookup(eps, u)
    ensures SeenFailed(units, u) ==>
      var e := Lookup(Observed(eps, units, now), u); e.Some? && Renewed(e.value, Lookup(eps, u), units, now, u)
  {
    FaultsAreSeen(units, u);
    if units != [] {
      var front, last := units[..|units| - 1], units[|units| - 1];
      ObservedMeaning(eps, front, now, u);
      FaultsAreSeen(front, u);
      var before := Observed(eps, front, now);
      UpsertMeaning(before, Sighted(Lookup(before, last.name), last, now));
      assert units == front + [last];
      FirstFaultSnoc(front, last, u);
    }
  }

  // --- what is said ----------------------------------------------------------------------

  datatype Verdict = Announce | Remind | Silent | Recover(how: How)

  function VerdictOf(e: Episode, unit: Option<UnitState>, now: int): Verdict {
    if unit.Some? && unit.value.activity.Failed? then
      if e.notified == None then Announce else if now - e.notified.value >= REMIND_AFTER then Remind else Silent
    else if unit == None || !unit.value.loaded then Recover(Removed)
    else if unit.value.activity.Settling? || now - e.lastSeen < QUIET then Silent
    else if unit.value.activity.Active?
      || (unit.value.result == "success" && unit.value.lastExitAt.Some? && unit.value.lastExitAt.value > e.lastSeen)
           then Recover(Healthy)
    else Recover(Cleared)
  }

  function With(eps: seq<Episode>, units: seq<UnitState>, now: int, v: Verdict): (r: seq<Episode>)
    ensures forall e :: e in r <==> e in eps && VerdictOf(e, ByUnit(units, e.name), now) == v
  {
    if eps == [] then []
    else
      var last := eps[|eps| - 1];
      assert forall e :: e in eps <==> e in eps[..|eps| - 1] || e == last;
      With(eps[..|eps| - 1], units, now, v) + if VerdictOf(last, ByUnit(units, last.name), now) == v then [last] else []
  }

  function Recoveries(eps: seq<Episode>, units: seq<UnitState>, now: int): (r: seq<Recovery>)
    ensures forall x :: x in r <==>
      x.episode in eps && VerdictOf(x.episode, ByUnit(units, x.episode.name), now) == Recover(x.how)
  {
    if eps == [] then []
    else
      var last := eps[|eps| - 1];
      var v := VerdictOf(last, ByUnit(units, last.name), now);
      assert forall e :: e in eps <==> e in eps[..|eps| - 1] || e == last;
      Recoveries(eps[..|eps| - 1], units, now) + if v.Recover? then [Recovery(last, v.how)] else []
  }

  /** What one pass sees and says. */
  function Planned(units: seq<UnitState>, stored: seq<Episode>, now: int): Pass {
    var eps := Observed(Loaded(stored), units, now);
    Pass(eps, With(eps, units, now, Announce), With(eps, units, now, Remind), Recoveries(eps, units, now))
  }

  method Observe(units: seq<UnitState>, stored: seq<Episode>, now: int) returns (eps: seq<Episode>)
    ensures eps == Observed(Loaded(stored), units, now)
  {
    eps := [];
    for n := 0 to |stored|
      invariant eps == Loaded(stored[..n])
    {
      assert stored[..n + 1][..n] == stored[..n] && stored[..n + 1][n] == stored[n];
      eps := Upsert(eps, stored[n]);
    }
    assert stored[..|stored|] == stored;
    for n := 0 to |units|
      invariant eps == Observed(Loaded(stored), units[..n], now)
    {
      var unit := units[n];
      assert units[..n + 1][..n] == units[..n] && units[..n + 1][n] == unit;
      if unit.activity.Failed? {
        eps := Upsert(eps, Sighted(Lookup(eps, unit.name), unit, now));
      }
    }
    assert units[..|units|] == units;
  }

  lemma SaidNext(eps: seq<Episode>, n: nat, units: seq<UnitState>, now: int)
    requires n < |eps|
    ensures var e := eps[n]; var v := VerdictOf(e, ByUnit(units, e.name), now);
      && With(eps[..n + 1], units, now, Announce) ==
           With(eps[..n], units, now, Announce) + (if v.Announce? then [e] else [])
      && With(eps[..n + 1], units, now, Remind) == With(eps[..n], units, now, Remind) + (if v.Remind? then [e] else [])
      && Recoveries(eps[..n + 1], units, now) == Recoveries(eps[..n], units, now)
           + if v.Recover? then [Recovery(e, v.how)] else []
  {
    assert eps[..n + 1][..n] == eps[..n] && eps[..n + 1][n] == eps[n];
  }

  method PlanOps(units: seq<UnitState>, stored: seq<Episode>, now: int) returns (pass: Pass)
    ensures pass == Planned(units, stored, now)
  {
    var eps := Observe(units, stored, now);
    var failed: seq<Episode>, still: seq<Episode>, recovered: seq<Recovery> := [], [], [];
    for n := 0 to |eps|
      invariant failed == With(eps[..n], units, now, Announce) && still == With(eps[..n], units, now, Remind)
      invariant recovered == Recoveries(eps[..n], units, now)
    {
      var e := eps[n];
      SaidNext(eps, n, units, now);
      var unit := ByUnit(units, e.name);
      if unit.Some? && unit.value.activity.Failed? {
        if e.notified == None { failed := failed + [e]; }
        else if now - e.notified.value >= REMIND_AFTER { still := still + [e]; }
      } else if unit == None || !unit.value.loaded {
        recovered := recovered + [Recovery(e, Removed)];
      } else if !unit.value.activity.Settling? && now - e.lastSeen >= QUIET {
        var ranCleanly := unit.value.activity.Active?
          || (unit.value.result == "success" && unit.value.lastExitAt.Some?
              && unit.value.lastExitAt.value > e.lastSeen);
        recovered := recovered + [Recovery(e, if ranCleanly then Healthy else Cleared)];
      }
    }
    assert eps[..|eps|] == eps;
    pass := Pass(eps, failed, still, recovered);
  }

  ghost predicate Announces(pass: Pass, u: UnitName) { exists e :: e in pass.failed && e.name == u }
  ghost predicate Reminds(pass: Pass, u: UnitName) { exists e :: e in pass.stillFailing && e.name == u }
  ghost predicate Recovers(pass: Pass, u: UnitName) { exists x :: x in pass.recovered && x.episode.name == u }

  ghost predicate RecoversAs(pass: Pass, u: UnitName, how: How) {
    exists x :: x in pass.recovered && x.episode.name == u && x.how == how
  }

  /** The last reading calls the unit failed. */
  ghost predicate ReadsFailed(at: Option<UnitState>) { at.Some? && at.value.activity.Failed? }

  ghost predicate ReadsGone(at: Option<UnitState>) { at == None || (!at.value.loaded && !at.value.activity.Failed?) }

  /** Loaded, neither failed nor on its way somewhere, and not seen failed for ten minutes. */
  ghost predicate Rested(at: Option<UnitState>, seen: int, now: int) {
    && at.Some? && at.value.loaded && !at.value.activity.Failed? && !at.value.activity.Settling?
    && now - seen >= 10 * 60 * 1000
  }

  ghost predicate RanCleanly(at: UnitState, seen: int) {
    at.activity.Active? || (at.result == "success" && at.lastExitAt.Some? && at.lastExitAt.value > seen)
  }

  lemma LookupRecovery(units: seq<UnitState>, stored: seq<Episode>, now: int, x: Recovery)
    requires x in Planned(units, stored, now).recovered
    ensures Lookup(Planned(units, stored, now).episodes, x.episode.name) == Some(x.episode)
    ensures OneEach(Planned(units, stored, now).episodes)
  {
    LoadedIsOneEach(stored);
    ObservedMeaning(Loaded(stored), units, now, x.episode.name);
    LookupIsMembership(Planned(units, stored, now).episodes, x.episode);
  }

  lemma VerdictsAreSaid(units: seq<UnitState>, stored: seq<Episode>, now: int, u: UnitName)
    ensures var p := Planned(units, stored, now); var e := Lookup(p.episodes, u); var at := ByUnit(units, u);
      && OneEach(p.episodes)
      && (Announces(p, u) <==> e.Some? && VerdictOf(e.value, at, now) == Announce)
      && (Reminds(p, u) <==> e.Some? && VerdictOf(e.value, at, now) == Remind)
      && (Recovers(p, u) <==> e.Some? && VerdictOf(e.value, at, now).Recover?)
      && (forall how :: RecoversAs(p, u, how) <==> e.Some? && VerdictOf(e.value, at, now) == Recover(how))
  {
    var p := Planned(units, stored, now);
    LoadedIsOneEach(stored);
    ObservedMeaning(Loaded(stored), units, now, u);
    forall e | e in p.episodes && e.name == u ensures Lookup(p.episodes, u) == Some(e) {
      LookupIsMembership(p.episodes, e);
    }
    var e := Lookup(p.episodes, u);
    if e.Some? && VerdictOf(e.value, ByUnit(units, u), now).Recover? {
      assert Recovery(e.value, VerdictOf(e.value, ByUnit(units, u), now).how) in p.recovered;
    }
    if Recovers(p, u) {
      var x :| x in p.recovered && x.episode.name == u;
      assert x.episode in p.episodes;
    }
  }

  /** These are some of the episodes, in their order. */
  ghost predicate SomeOf(said: seq<Episode>, eps: seq<Episode>)
    decreases |eps|
  {
    said == [] || (eps != [] && (SomeOf(said, eps[..|eps| - 1])
      || (said[|said| - 1] == eps[|eps| - 1] && SomeOf(said[..|said| - 1], eps[..|eps| - 1]))))
  }

  lemma {:induction false} WithIsSomeOf(eps: seq<Episode>, units: seq<UnitState>, now: int, v: Verdict)
    ensures SomeOf(With(eps, units, now, v), eps)
  {
    if eps != [] {
      var front, all := With(eps[..|eps| - 1], units, now, v), With(eps, units, now, v);
      WithIsSomeOf(eps[..|eps| - 1], units, now, v);
      if |all| > |front| {
        assert all == front + [eps[|eps| - 1]] && all[..|all| - 1] == front;
      } else {
        assert all == front;
      }
    }
  }

  ghost function Closing(rs: seq<Recovery>): seq<Episode> {
    seq(|rs|, i requires 0 <= i < |rs| => rs[i].episode)
  }

  lemma {:induction false} RecoveriesAreSomeOf(eps: seq<Episode>, units: seq<UnitState>, now: int)
    ensures SomeOf(Closing(Recoveries(eps, units, now)), eps)
  {
    if eps != [] {
      var front, all := Recoveries(eps[..|eps| - 1], units, now), Recoveries(eps, units, now);
      RecoveriesAreSomeOf(eps[..|eps| - 1], units, now);
      if |all| > |front| {
        assert Closing(all)[..|all| - 1] == Closing(front);
      } else {
        assert all == front;
      }
    }
  }

  lemma {:induction false} SomeOfOneEach(said: seq<Episode>, eps: seq<Episode>)
    requires SomeOf(said, eps) && OneEach(eps)
    ensures OneEach(said) && forall e :: e in said ==> e in eps
    decreases |eps|
  {
    if said != [] {
      var front, last := eps[..|eps| - 1], eps[|eps| - 1];
      assert forall e :: e in front ==> e in eps && e.name != last.name;
      if SomeOf(said, front) {
        SomeOfOneEach(said, front);
      } else {
        SomeOfOneEach(said[..|said| - 1], front);
        assert said == said[..|said| - 1] + [last];
      }
    }
  }

  /** What a pass says, it says in the order the file keeps its episodes. */
  lemma SaidInOrder(units: seq<UnitState>, stored: seq<Episode>, now: int)
    ensures var p := Planned(units, stored, now);
      SomeOf(p.failed, p.episodes) && SomeOf(p.stillFailing, p.episodes) && SomeOf(Closing(p.recovered), p.episodes)
  {
    var eps := Planned(units, stored, now).episodes;
    WithIsSomeOf(eps, units, now, Announce);
    WithIsSomeOf(eps, units, now, Remind);
    RecoveriesAreSomeOf(eps, units, now);
  }

  lemma VerdictIsFromTimes(e: Episode, at: Option<UnitState>, now: int)
    ensures var v := VerdictOf(e, at, now);
      && (v == Announce <==> ReadsFailed(at) && e.notified == None)
      && (v == Remind <==> ReadsFailed(at) && e.notified.Some? && now - e.notified.value >= 24 * 3600 * 1000)
      && (v == Recover(Removed) <==> ReadsGone(at))
      && (v == Recover(Healthy) <==> Rested(at, e.lastSeen, now) && RanCleanly(at.value, e.lastSeen))
      && (v == Recover(Cleared) <==> Rested(at, e.lastSeen, now) && !RanCleanly(at.value, e.lastSeen))
  {
  }

  lemma EachIsSaidOnce(units: seq<UnitState>, stored: seq<Episode>, now: int, u: UnitName)
    ensures var p := Planned(units, stored, now);
      OneEach(p.episodes) && OneEach(p.failed) && OneEach(p.stillFailing) && OneEach(Closing(p.recovered))
  {
    var p := Planned(units, stored, now);
    LoadedIsOneEach(stored);
    ObservedMeaning(Loaded(stored), units, now, u);
    SaidInOrder(units, stored, now);
    SomeOfOneEach(p.failed, p.episodes);
    SomeOfOneEach(p.stillFailing, p.episodes);
    SomeOfOneEach(Closing(p.recovered), p.episodes);
  }

  /** There is at most one episode a unit, each is said at most once, and it is announced,
      reminded of, closed or left alone as its last reading and its own times have it. */
  lemma EachEpisodeOneWay(units: seq<UnitState>, stored: seq<Episode>, now: int, u: UnitName)
    ensures var p := Planned(units, stored, now); var e := Lookup(p.episodes, u); var at := ByUnit(units, u);
      && OneEach(p.episodes) && OneEach(p.failed) && OneEach(p.stillFailing) && OneEach(Closing(p.recovered))
      && (Announces(p, u) <==> e.Some? && ReadsFailed(at) && e.value.notified == None)
      && (Reminds(p, u) <==>
            e.Some? && ReadsFailed(at) && e.value.notified.Some? && now - e.value.notified.value >= 24 * 3600 * 1000)
      && (RecoversAs(p, u, Removed) <==> e.Some? && ReadsGone(at))
      && (RecoversAs(p, u, Healthy) <==>
            e.Some? && Rested(at, e.value.lastSeen, now) && RanCleanly(at.value, e.value.lastSeen))
      && (RecoversAs(p, u, Cleared) <==>
            e.Some? && Rested(at, e.value.lastSeen, now) && !RanCleanly(at.value, e.value.lastSeen))
  {
    EachIsSaidOnce(units, stored, now, u);
    VerdictsAreSaid(units, stored, now, u);
    var e := Lookup(Planned(units, stored, now).episodes, u);
    if e.Some? { VerdictIsFromTimes(e.value, ByUnit(units, u), now); }
  }

  // --- what a pass writes back ---------------------------------------------------------------

  function Settle(eps: seq<Episode>, closed: set<UnitName>, told: set<UnitName>, now: int): seq<Episode> {
    if eps == [] then []
    else if eps[0].name in closed then Settle(eps[1..], closed, told, now)
    else [Dated(eps[0], told, now)] + Settle(eps[1..], closed, told, now)
  }

  function Dated(e: Episode, told: set<UnitName>, now: int): Episode {
    if e.name in told then e.(notified := Some(now)) else e
  }

  function ClosedUnits(pass: Pass): (r: set<UnitName>)
    ensures forall u :: u in r <==> Recovers(pass, u)
  {
    set x | x in pass.recovered :: x.episode.name
  }

  function ToldUnits(pass: Pass): (r: set<UnitName>)
    ensures forall u :: u in r <==> Announces(pass, u) || Reminds(pass, u)
  {
    set e | e in pass.failed + pass.stillFailing :: e.name
  }

  /** The message reached a chat: recoveries close, and what was told is dated. */
  function Delivered(pass: Pass, now: int): seq<Episode> {
    Settle(pass.episodes, ClosedUnits(pass), ToldUnits(pass), now)
  }

  /** No chat is subscribed: recoveries close, and nothing counts as told. */
  function Unheard(pass: Pass): seq<Episode> { Settle(pass.episodes, ClosedUnits(pass), {}, 0) }

  lemma {:induction false} SettleNames(eps: seq<Episode>, closed: set<UnitName>, told: set<UnitName>, now: int,
                                       u: UnitName)
    requires forall e :: e in eps ==> e.name != u
    ensures forall e :: e in Settle(eps, closed, told, now) ==> e.name != u
  {
    if eps != [] {
      assert eps[0] in eps;
      SettleNames(eps[1..], closed, told, now, u);
    }
  }

  lemma {:induction false} SettleOneEach(eps: seq<Episode>, closed: set<UnitName>, told: set<UnitName>, now: int)
    requires OneEach(eps)
    ensures OneEach(Settle(eps, closed, told, now))
  {
    if eps != [] {
      SettleOneEach(eps[1..], closed, told, now);
      SettleNames(eps[1..], closed, told, now, eps[0].name);
    }
  }

  function Settled(e: Option<Episode>, closed: set<UnitName>, told: set<UnitName>, now: int): Option<Episode> {
    if e == None || e.value.name in closed then None
    else Some(Dated(e.value, told, now))
  }

  lemma LookupNone(eps: seq<Episode>, u: UnitName)
    ensures Lookup(eps, u) == None <==> forall e :: e in eps ==> e.name != u
  {
  }

  lemma {:induction false} SettleMeaning(eps: seq<Episode>, closed: set<UnitName>, told: set<UnitName>, now: int,
                                         u: UnitName)
    requires OneEach(eps)
    ensures Lookup(Settle(eps, closed, told, now), u) == Settled(Lookup(eps, u), closed, told, now)
  {
    if eps != [] {
      SettleMeaning(eps[1..], closed, told, now, u);
      if eps[0].name == u {
        LookupNone(eps[1..], u);
      } else if eps[0].name !in closed {
        var after := Settle(eps, closed, told, now);
        assert after[1..] == Settle(eps[1..], closed, told, now);
      }
    }
  }

  // --- pass after pass ----------------------------------------------------------------------------

  datatype Outcome = QuietPass | TelegramOff | NoChat | Sent | NotDelivered

  /** What one written pass saw, said and came to. */
  datatype Record = Record(now: int, units: seq<UnitState>, pass: Pass, outcome: Outcome)

  predicate SilentPass(pass: Pass) { pass.failed == [] && pass.stillFailing == [] && pass.recovered == [] }

  function Next(pass: Pass, outcome: Outcome, now: int): seq<Episode> {
    match outcome
    case Sent => Delivered(pass, now)
    case NoChat => Unheard(pass)
    case _ => pass.episodes
  }

  /** The last pass that saw the unit failed. */
  ghost function LastSighting(log: seq<Record>, u: UnitName): Option<int> {
    if log == [] then None
    else if SeenFailed(log[|log| - 1].units, u) then Some(log[|log| - 1].now)
    else LastSighting(log[..|log| - 1], u)
  }

  /** The last message about the unit's failure that reached a chat, if none has
      closed it since. */
  ghost function LastTold(log: seq<Record>, u: UnitName): Option<int> {
    if log == [] then None
    else
      var r := log[|log| - 1];
      if Closes(r, u) then None
      else if r.outcome.Sent? && (Announces(r.pass, u) || Reminds(r.pass, u)) then Some(r.now)
      else LastTold(log[..|log| - 1], u)
  }

  /** The message of a pass reached a chat, or there was no chat to reach: either closes
      the unit's episode if the pass recovers it. */
  ghost predicate Closes(r: Record, u: UnitName) { (r.outcome.Sent? || r.outcome.NoChat?) && Recovers(r.pass, u) }

  /** When the failure that is still open began, if one is. */
  ghost function Began(log: seq<Record>, u: UnitName): Option<int> {
    if log == [] then None
    else
      var r, before := log[|log| - 1], Began(log[..|log| - 1], u);
      if Closes(r, u) then None
      else if before.Some? then before
      else if FirstFault(r.units, u) == None then None
      else if FirstFault(r.units, u).value.changedAt.Some? then FirstFault(r.units, u).value.changedAt
      else Some(r.now)
  }

  /** What was last read of its failing. */
  ghost function LatestFault(log: seq<Record>, u: UnitName): Option<UnitState> {
    if log == [] then None
    else if LastFault(log[|log| - 1].units, u).Some? then LastFault(log[|log| - 1].units, u)
    else LatestFault(log[..|log| - 1], u)
  }

  /** The unit has an episode exactly while its failure is open, and the episode is what
      the passes read and told. */
  ghost predicate Remembers(episodes: seq<Episode>, log: seq<Record>, u: UnitName) {
    var e, fault := Lookup(episodes, u), LatestFault(log, u);
    && (e.Some? <==> Began(log, u).Some?) && (e == None ==> LastTold(log, u) == None)
    && (e.Some? ==>
          && Began(log, u) == Some(e.value.since) && LastSighting(log, u) == Some(e.value.lastSeen)
          && e.value.notified == LastTold(log, u)
          && fault.Some? && e.value.result == fault.value.result && e.value.exitStatus == fault.value.exitStatus)
  }

  /** The file holds exactly what the passes so far saw and told. */
  ghost predicate Faithful(episodes: seq<Episode>, log: seq<Record>) {
    OneEach(episodes) && forall u :: Remembers(episodes, log, u)
  }

  /** One unit in one pass: its episode before and after, and what is said of it. */
  ghost predicate UnitFacts(p: Pass, before: Option<Episode>, units: seq<UnitState>, now: int, u: UnitName) {
    var e, at := Lookup(p.episodes, u), ByUnit(units, u);
    && OneEach(p.episodes)
    && (!SeenFailed(units, u) ==> e == before)
    && (SeenFailed(units, u) ==> at.Some? && e.Some? && Renewed(e.value, before, units, now, u))
    && (SeenFailed(units, u) <==> FirstFault(units, u).Some?) && (SeenFailed(units, u) <==> LastFault(units, u).Some?)
    && (at.Some? && at.value.activity.Failed? ==> SeenFailed(units, u))
    && (Announces(p, u) <==> e.Some? && VerdictOf(e.value, at, now) == Announce)
    && (Reminds(p, u) <==> e.Some? && VerdictOf(e.value, at, now) == Remind)
    && (Recovers(p, u) <==> e.Some? && VerdictOf(e.value, at, now).Recover?)
    && (forall how :: RecoversAs(p, u, how) <==> e.Some? && VerdictOf(e.value, at, now) == Recover(how))
  }

  lemma PlannedFacts(episodes: seq<Episode>, units: seq<UnitState>, now: int, u: UnitName)
    requires OneEach(episodes)
    ensures UnitFacts(Planned(units, episodes, now), Lookup(episodes, u), units, now, u)
  {
    LoadedIsOneEach(episodes);
    ObservedMeaning(episodes, units, now, u);
    FaultsAreSeen(units, u);
    VerdictsAreSaid(units, episodes, now, u);
    if SeenFailed(units, u) { LastIsSeen(units, u); }
    if ByUnit(units, u).Some? && ByUnit(units, u).value.activity.Failed? { FailedIsSeen(units, u); }
  }

  lemma NextEpisode(p: Pass, outcome: Outcome, now: int, u: UnitName)
    requires OneEach(p.episodes)
    ensures OneEach(Next(p, outcome, now))
    ensures Lookup(Next(p, outcome, now), u) ==
      (match outcome
       case Sent => Settled(Lookup(p.episodes, u), ClosedUnits(p), ToldUnits(p), now)
       case NoChat => Settled(Lookup(p.episodes, u), ClosedUnits(p), {}, 0)
       case _ => Lookup(p.episodes, u))
  {
    SettleOneEach(p.episodes, ClosedUnits(p), ToldUnits(p), now);
    SettleOneEach(p.episodes, ClosedUnits(p), {}, 0);
    SettleMeaning(p.episodes, ClosedUnits(p), ToldUnits(p), now, u);
    SettleMeaning(p.episodes, ClosedUnits(p), {}, 0, u);
  }

  lemma PassRemembers(p: Pass, episodes: seq<Episode>, log: seq<Record>, units: seq<UnitState>, now: int,
                      outcome: Outcome, u: UnitName)
    requires UnitFacts(p, Lookup(episodes, u), units, now, u) && Remembers(episodes, log, u)
    ensures Remembers(Next(p, outcome, now), log + [Record(now, units, p, outcome)], u)
  {
    LogGrows(log, Record(now, units, p, outcome), u);
    NextEpisode(p, outcome, now, u);
  }

  lemma LogGrows(log: seq<Record>, r: Record, u: UnitName)
    ensures LastSighting(log + [r], u) == if SeenFailed(r.units, u) then Some(r.now) else LastSighting(log, u)
    ensures LatestFault(log + [r], u) ==
      if LastFault(r.units, u).Some? then LastFault(r.units, u) else LatestFault(log, u)
    ensures Began(log + [r], u) ==
      if Closes(r, u) then None
      else if Began(log, u).Some? then Began(log, u)
      else if FirstFault(r.units, u) == None then None
      else if FirstFault(r.units, u).value.changedAt.Some? then FirstFault(r.units, u).value.changedAt
      else Some(r.now)
    ensures LastTold(log + [r], u) ==
      if Closes(r, u) then None
      else if r.outcome.Sent? && (Announces(r.pass, u) || Reminds(r.pass, u)) then Some(r.now)
      else LastTold(log, u)
  {
    assert (log + [r])[..|log|] == log;
  }

  /** What one pass says of a unit, exactly, from its last reading and all the passes
      before: it announces a failure nobody was told of, reminds of one a day after the
      last message that arrived, and closes one that is open when the unit is gone, or
      rests since ten minutes after it was last seen failed. */
  ghost predicate SaysExactly(pass: Pass, units: seq<UnitState>, log: seq<Record>, now: int, u: UnitName) {
    var at, told, seen := ByUnit(units, u), LastTold(log, u), LastSighting(log, u);
    var open := Began(log, u).Some? || SeenFailed(units, u);
    var rested := !SeenFailed(units, u) && seen.Some? && Rested(at, seen.value, now);
    && (Announces(pass, u) <==> ReadsFailed(at) && told == None)
    && (Reminds(pass, u) <==> ReadsFailed(at) && told.Some? && now - told.value >= 24 * 3600 * 1000)
    && (RecoversAs(pass, u, Removed) <==> open && ReadsGone(at))
    && (RecoversAs(pass, u, Healthy) <==> open && rested && RanCleanly(at.value, seen.value))
    && (RecoversAs(pass, u, Cleared) <==> open && rested && !RanCleanly(at.value, seen.value))
  }

  lemma PassSaysExactly(p: Pass, episodes: seq<Episode>, log: seq<Record>, units: seq<UnitState>, now: int, u: UnitName)
    requires UnitFacts(p, Lookup(episodes, u), units, now, u) && Remembers(episodes, log, u)
    ensures SaysExactly(p, units, log, now, u)
  {
  }

  lemma {:induction false} LastIsSeen(units: seq<UnitState>, u: UnitName)
    requires SeenFailed(units, u)
    ensures ByUnit(units, u).Some?
  {
    var front, last := units[..|units| - 1], units[|units| - 1];
    if last.name != u {
      var i :| 0 <= i < |units| && units[i].name == u && units[i].activity.Failed?;
      assert front[i] == units[i];
      LastIsSeen(front, u);
    }
  }

  /** One message to every chat; how many took it. */
  method WriteToChats(chats: seq<nat>, takes: nat -> bool) returns (delivered: nat)
    ensures delivered <= |chats| && (delivered > 0 <==> exists c :: c in chats && takes(c))
  {
    delivered := 0;
    for n := 0 to |chats|
      invariant delivered <= n && (delivered > 0 <==> exists c :: c in chats[..n] && takes(c))
    {
      assert forall c :: c in chats[..n + 1] <==> c in chats[..n] || c == chats[n];
      if takes(chats[n]) { delivered := delivered + 1; }
    }
    assert chats[..|chats|] == chats;
  }

  class AlertFile {
    var episodes: seq<Episode>
    ghost var log: seq<Record>

    ghost predicate Valid() reads this { Faithful(episodes, log) }

    constructor ()
      ensures Valid() && episodes == [] && log == []
    {
      episodes, log := [], [];
    }

    /** One pass that is not dry: what it says is right for everything the passes so
        far saw and told, and the file goes on saying exactly that. */
    method RunPass(units: seq<UnitState>, now: int, telegramOn: bool, chats: seq<nat>, takes: nat -> bool)
      returns (outcome: Outcome)
      requires Valid()
      modifies this
      ensures Valid()
      ensures var p := Planned(units, old(episodes), now);
        && log == old(log) + [Record(now, units, p, outcome)] && episodes == Next(p, outcome, now)
        && (forall u :: SaysExactly(p, units, old(log), now, u))
        && var silent := p.failed == [] && p.stillFailing == [] && p.recovered == [];
        && (outcome.QuietPass? <==> silent)
        && (outcome.TelegramOff? <==> !silent && !telegramOn)
        && (outcome.NoChat? <==> !silent && telegramOn && chats == [])
        && (outcome.Sent? <==> !silent && telegramOn && exists c :: c in chats && takes(c))
    {
      var pass := PlanOps(units, episodes, now);
      if SilentPass(pass) {
        outcome := QuietPass;
      } else if !telegramOn {
        outcome := TelegramOff;
      } else if chats == [] {
        outcome := NoChat;
      } else {
        var delivered := WriteToChats(chats, takes);
        outcome := if delivered > 0 then Sent else NotDelivered;
      }
      ghost var before, log0 := episodes, log;
      forall u ensures Remembers(Next(pass, outcome, now), log0 + [Record(now, units, pass, outcome)], u)
        && SaysExactly(pass, units, log0, now, u) {
        PlannedFacts(before, units, now, u);
        PassRemembers(pass, before, log0, units, now, outcome, u);
        PassSaysExactly(pass, before, log0, units, now, u);
      }
      PlannedFacts(before, units, now, 0);
      NextEpisode(pass, outcome, now, 0);
      log := log + [Record(now, units, pass, outcome)];
      episodes := Next(pass, outcome, now);
    }
  }

  // --- a failure nobody heard stays due ---------------------------------------------------------

  /** An announcement that reached no chat is made again by the next pass, at any
      time, for as long as the unit's last reading is failed. */
  lemma UnheardStaysDue(episodes: seq<Episode>, units: seq<UnitState>, now: int, outcome: Outcome,
                        units': seq<UnitState>, now': int, u: UnitName)
    requires OneEach(episodes) && !outcome.Sent? && Announces(Planned(units, episodes, now), u)
    requires ByUnit(units', u).Some? && ByUnit(units', u).value.activity.Failed?
    ensures Announces(Planned(units', Next(Planned(units, episodes, now), outcome, now), now'), u)
  {
    var p := Planned(units, episodes, now);
    PlannedFacts(episodes, units, now, u);
    NextEpisode(p, outcome, now, u);
    PlannedFacts(Next(p, outcome, now), units', now', u);
  }

  lemma {:induction false} FailedIsSeen(units: seq<UnitState>, u: UnitName)
    requires ByUnit(units, u).Some? && ByUnit(units, u).value.activity.Failed?
    ensures SeenFailed(units, u)
  {
    var front, last := units[..|units| - 1], units[|units| - 1];
    if last.name != u {
      FailedIsSeen(front, u);
      var i :| 0 <= i < |front| && front[i].name == u && front[i].activity.Failed?;
      assert units[i] == front[i];
    } else {
      assert units[|units| - 1] == last;
    }
  }

  // --- when every message arrives -----------------------------------------------------------------

  ghost predicate AllAnnounced(episodes: seq<Episode>) {
    forall u :: Lookup(episodes, u).Some? ==> Lookup(episodes, u).value.notified.Some?
  }

  /** A unit without an episode that some block calls failed is called failed by its
      last block too. */
  ghost predicate NoFlicker(units: seq<UnitState>, episodes: seq<Episode>) {
    forall u :: SeenFailed(units, u) && Lookup(episodes, u) == None ==>
      ByUnit(units, u).Some? && ByUnit(units, u).value.activity.Failed?
  }

  ghost predicate ClosesAnnounced(pass: Pass) {
    forall x :: x in pass.recovered ==> x.episode.notified.Some?
  }

  /** From a file in which every episode has been told, one delivered or silent pass
      recovers only what was announced, and leaves every episode told, exactly when no
      newly failed unit flickers within the pass. */
  lemma RecoveriesCloseAnnouncedExactlyWhen(episodes: seq<Episode>, units: seq<UnitState>, now: int)
    requires OneEach(episodes) && AllAnnounced(episodes)
    ensures var p := Planned(units, episodes, now);
      (ClosesAnnounced(p) && AllAnnounced(Delivered(p, now))) <==> NoFlicker(units, episodes)
  {
    var p := Planned(units, episodes, now);
    LoadedIsOneEach(episodes);
    if NoFlicker(units, episodes) {
      forall x | x in p.recovered ensures x.episode.notified.Some? {
        LookupRecovery(units, episodes, now, x);
        ObservedMeaning(episodes, units, now, x.episode.name);
      }
      forall u | Lookup(Delivered(p, now), u).Some? ensures Lookup(Delivered(p, now), u).value.notified.Some? {
        ToldAfterDelivery(episodes, units, now, u);
      }
    }
    if ClosesAnnounced(p) && AllAnnounced(Delivered(p, now)) {
      forall u | SeenFailed(units, u) && Lookup(episodes, u) == None
        ensures ByUnit(units, u).Some? && ByUnit(units, u).value.activity.Failed?
      {
        FlickerShows(episodes, units, now, u);
      }
    }
  }

  lemma ToldAfterDelivery(episodes: seq<Episode>, units: seq<UnitState>, now: int, u: UnitName)
    requires OneEach(episodes) && AllAnnounced(episodes) && NoFlicker(units, episodes)
    ensures var e := Lookup(Delivered(Planned(units, episodes, now), now), u); e.Some? ==> e.value.notified.Some?
  {
    PlannedFacts(episodes, units, now, u);
    NextEpisode(Planned(units, episodes, now), Sent, now, u);
  }

  lemma FlickerShows(episodes: seq<Episode>, units: seq<UnitState>, now: int, u: UnitName)
    requires OneEach(episodes) && SeenFailed(units, u) && Lookup(episodes, u) == None
    requires ClosesAnnounced(Planned(units, episodes, now))
      && AllAnnounced(Delivered(Planned(units, episodes, now), now))
    ensures ByUnit(units, u).Some? && ByUnit(units, u).value.activity.Failed?
  {
    var p := Planned(units, episodes, now);
    PlannedFacts(episodes, units, now, u);
    NextEpisode(p, Sent, now, u);
    if Recovers(p, u) {
      var x :| x in p.recovered && x.episode.name == u;
      LookupRecovery(units, episodes, now, x);
    }
  }

  /** The units and times of a run in which every message arrives. */
  ghost function After(episodes: seq<Episode>, run: seq<(seq<UnitState>, int)>): seq<Episode> {
    if run == [] then episodes
    else var front := After(episodes, run[..|run| - 1]); var r := run[|run| - 1];
      Delivered(Planned(r.0, front, r.1), r.1)
  }

  ghost predicate NeverFlickers(episodes: seq<Episode>, run: seq<(seq<UnitState>, int)>) {
    forall i :: 0 <= i < |run| ==> NoFlicker(run[i].0, After(episodes, run[..i]))
  }

  /** Over a whole run from an empty file in which every message arrives and no unit
      flickers, every recovery told closes an episode that was announced before. */
  lemma {:induction false} EveryRecoveryWasAnnounced(run: seq<(seq<UnitState>, int)>, i: nat)
    requires NeverFlickers([], run) && i < |run|
    ensures ClosesAnnounced(Planned(run[i].0, After([], run[..i]), run[i].1))
  {
    RunStaysAnnounced(run, i);
    RecoveriesCloseAnnouncedExactlyWhen(After([], run[..i]), run[i].0, run[i].1);
  }

  lemma {:induction false} RunStaysAnnounced(run: seq<(seq<UnitState>, int)>, n: nat)
    requires NeverFlickers([], run) && n <= |run|
    ensures OneEach(After([], run[..n])) && AllAnnounced(After([], run[..n]))
  {
    if n > 0 {
      RunStaysAnnounced(run, n - 1);
      var front := After([], run[..n - 1]);
      assert run[..n][..n - 1] == run[..n - 1] && run[..n][n - 1] == run[n - 1];
      var p := Planned(run[n - 1].0, front, run[n - 1].1);
      RecoveriesCloseAnnouncedExactlyWhen(front, run[n - 1].0, run[n - 1].1);
      PlannedFacts(front, run[n - 1].0, run[n - 1].1, 0);
      NextEpisode(p, Sent, run[n - 1].1, 0);
    }
  }

  /** The condition on the planner's input is needed: given two blocks about one unit,
      failed and then gone, in its first failing pass, it tells a recovery of a failure
      it never announced. */
  lemma AFlickerIsTold() returns (units: seq<UnitState>)
    ensures !ClosesAnnounced(Planned(units, [], 0))
  {
    var bad := UnitState(1, true, Failed, "exit-code", None, None, None);
    var gone := UnitState(1, false, OtherActivity, "", None, None, None);
    units := [bad, gone];
    assert units[0].name == 1 && units[0].activity.Failed?;
    assert SeenFailed(units, 1);
    assert ByUnit(units, 1) == Some(gone);
    assert !NoFlicker(units, []);
    LoadedIsOneEach([]);
    ObservedMeaning([], units, 0, 1);
    var e := Lookup(Planned(units, [], 0).episodes, 1).value;
    VerdictsAreSaid(units, [], 0, 1);
    assert Recovery(e, Removed) in Planned(units, [], 0).recovered;
  }

  // --- the input the driver builds ------------------------------------------------------------------

  ghost predicate OneBlockEach(units: seq<UnitState>) {
    forall i, j :: 0 <= i < j < |units| ==> units[i].name != units[j].name
  }

  lemma {:induction false} TheOnlyBlock(units: seq<UnitState>, i: nat)
    requires OneBlockEach(units) && i < |units|
    ensures ByUnit(units, units[i].name) == Some(units[i])
  {
    var front := units[..|units| - 1];
    if i < |front| {
      TheOnlyBlock(front, i);
      assert front[i] == units[i] && units[i].name != units[|units| - 1].name;
    }
  }

  lemma OneBlockEachNeverFlickers(units: seq<UnitState>, episodes: seq<Episode>)
    requires OneBlockEach(units)
    ensures NoFlicker(units, episodes)
  {
    forall u | SeenFailed(units, u) ensures ByUnit(units, u).Some? && ByUnit(units, u).value.activity.Failed? {
      var i :| 0 <= i < |units| && units[i].name == u && units[i].activity.Failed?;
      TheOnlyBlock(units, i);
    }
  }

  /** `new Set` of the names: each once, in the order first seen. */
  function Unique(names: seq<UnitName>): (r: seq<UnitName>)
    ensures Distinct(r) && forall u :: u in r <==> u in names
  {
    if names == [] then []
    else
      var front, last := Unique(names[..|names| - 1]), names[|names| - 1];
      assert forall u :: u in names <==> u in names[..|names| - 1] || u == last;
      if last in front then front else front + [last]
  }

  function Names(episodes: seq<Episode>): seq<UnitName> {
    seq(|episodes|, i requires 0 <= i < |episodes| => episodes[i].name)
  }

  /** One block for each unit asked about: those listed, and those with an open episode. */
  function Asked(listed: seq<UnitName>, episodes: seq<Episode>, show: UnitName -> UnitState): seq<UnitState> {
    var names := Unique(listed + Names(episodes));
    seq(|names|, i requires 0 <= i < |names| => show(names[i]))
  }

  ghost predicate HonestShow(show: UnitName -> UnitState) { forall u :: show(u).name == u }

  /** No unit is described twice, and each open episode's unit is described: one that is
      gone answers that it is not loaded instead of going unmentioned. */
  lemma DriverAsksOnceAboutEach(listed: seq<UnitName>, episodes: seq<Episode>, show: UnitName -> UnitState)
    requires HonestShow(show)
    ensures OneBlockEach(Asked(listed, episodes, show))
    ensures forall e :: e in episodes ==> ByUnit(Asked(listed, episodes, show), e.name) == Some(show(e.name))
  {
    var names := Unique(listed + Names(episodes));
    var units := Asked(listed, episodes, show);
    forall i, j | 0 <= i < j < |units| ensures units[i].name != units[j].name { assert names[i] != names[j]; }
    forall e | e in episodes ensures ByUnit(units, e.name) == Some(show(e.name)) {
      var k :| 0 <= k < |episodes| && episodes[k] == e;
      var all := listed + Names(episodes);
      assert all[|listed| + k] == Names(episodes)[k] == e.name;
      assert e.name in all && e.name in names;
      var i :| 0 <= i < |names| && names[i] == e.name;
      TheOnlyBlock(units, i);
    }
  }

  /** What one pass of the driver starts from. */
  datatype Reading = Reading(listed: seq<UnitName>, show: UnitName -> UnitState, now: int)

  /** The input of each pass of a run in which every message arrives, from an empty file. */
  ghost function Inputs(run: seq<Reading>): (r: seq<(seq<UnitState>, int)>)
    ensures |r| == |run|
  {
    if run == [] then []
    else
      var front, last := Inputs(run[..|run| - 1]), run[|run| - 1];
      front + [(Asked(last.listed, After([], front), last.show), last.now)]
  }

  lemma {:induction false} InputsAreOneBlockEach(run: seq<Reading>)
    requires forall i :: 0 <= i < |run| ==> HonestShow(run[i].show)
    ensures forall i :: 0 <= i < |run| ==> OneBlockEach(Inputs(run)[i].0)
  {
    if run != [] {
      var front, last := run[..|run| - 1], run[|run| - 1];
      assert HonestShow(last.show);
      InputsAreOneBlockEach(front);
      DriverAsksOnceAboutEach(last.listed, After([], Inputs(front)), last.show);
    }
  }

  /** With one block a unit in every pass, whatever the units do: every recovery told
      over a whole run closes an episode that was announced before. */
  lemma {:induction false} OneBlockEachRunsAreAnnounced(run: seq<(seq<UnitState>, int)>, i: nat)
    requires i < |run| && forall k :: 0 <= k < |run| ==> OneBlockEach(run[k].0)
    ensures ClosesAnnounced(Planned(run[i].0, After([], run[..i]), run[i].1))
  {
    forall k | 0 <= k < |run| ensures NoFlicker(run[k].0, After([], run[..k])) {
      OneBlockEachNeverFlickers(run[k].0, After([], run[..k]));
    }
    EveryRecoveryWasAnnounced(run, i);
  }

  /** So with the input the driver builds, without any condition on the units. */
  lemma {:induction false} TheDriversRecoveriesWereAnnounced(run: seq<Reading>, i: nat)
    requires i < |run| && forall k :: 0 <= k < |run| ==> HonestShow(run[k].show)
    ensures var inputs := Inputs(run); ClosesAnnounced(Planned(inputs[i].0, After([], inputs[..i]), inputs[i].1))
  {
    InputsAreOneBlockEach(run);
    OneBlockEachRunsAreAnnounced(Inputs(run), i);
  }
}
