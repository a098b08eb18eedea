/** One launch measured once, and what silence may and may not become. */
module MeasureVerdict {
  import opened Common
  import opened QuoteContext

  // --- pricing on the pool's own venue ---------------------------------------------

  /** What one quote says once its answer is decoded: a price, a refusal, or nothing
      at all from the endpoint. */
  datatype Priced = Price(amount: nat) | Refused | NoAnswer

  function PricedOf(answer: Answer, decode: nat -> Option<nat>): Priced {
    match answer
    case Unavailable => NoAnswer
    case Nothing => Refused
    case Quoted(v) => if decode(v).Some? && decode(v).value > 0 then Price(decode(v).value) else Refused
  }

  datatype Trip = Trip(entryFound: bool, exitFound: bool, entryOut: Option<nat>, exitReturn: Option<nat>,
                       degraded: bool, quotesUsed: nat)

  /** Some answer given since `from` was no answer. */
  ghost predicate WentUnanswered(given: seq<Given>, from: nat) {
    exists i :: from <= i < |given| && given[i].answer.Unavailable?
  }

  method QuoteV4(quotes: Quotes, decode: nat -> Option<nat>) returns (p: Priced)
    requires quotes.Valid()
    modifies quotes
    ensures quotes.Valid() && (!old(quotes.anchored) ==> !quotes.anchored)
    ensures |quotes.given| == |old(quotes.given)| + 1 && old(quotes.given) <= quotes.given
    ensures p == PricedOf(quotes.given[|old(quotes.given)|].answer, decode)
    // a price is a decoded amount above nothing; only the endpoint's silence is no answer
    ensures var answer := quotes.given[|old(quotes.given)|].answer;
      && (p.NoAnswer? <==> answer.Unavailable?)
      && (p.Price? <==> answer.Quoted? && decode(answer.value).Some? && decode(answer.value).value > 0)
      && (p.Price? ==> decode(answer.value) == Some(p.amount))
  {
    var answer := quotes.Quote();
    p := PricedOf(answer, decode);
  }

  /** Buy, then sell what was bought; no sale is asked for when the buy has no price. */
  method RoundTrip(quotes: Quotes, decode: nat -> Option<nat>) returns (trip: Trip)
    requires quotes.Valid()
    modifies quotes
    ensures quotes.Valid() && (!old(quotes.anchored) ==> !quotes.anchored)
    ensures old(quotes.given) <= quotes.given && |quotes.given| == |old(quotes.given)| + trip.quotesUsed
    ensures trip.degraded <==> WentUnanswered(quotes.given, |old(quotes.given)|)
    ensures trip.exitFound ==> trip.entryFound
    ensures trip.entryFound <==> trip.entryOut.Some? && trip.entryOut.value > 0
    ensures trip.exitFound <==> trip.exitReturn.Some?
    ensures trip.quotesUsed == if trip.entryFound then 2 else 1
    ensures trip.entryFound <==> PricedOf(quotes.given[|old(quotes.given)|].answer, decode).Price?
    ensures trip.exitFound <==> trip.entryFound && PricedOf(quotes.given[|old(quotes.given)| + 1].answer, decode).Price?
    ensures trip.entryFound ==> Price(trip.entryOut.value) == PricedOf(quotes.given[|old(quotes.given)|].answer, decode)
    ensures trip.exitFound ==>
      Price(trip.exitReturn.value) == PricedOf(quotes.given[|old(quotes.given)| + 1].answer, decode)
  {
    var entry := QuoteV4(quotes, decode);
    if !entry.Price? { return Trip(false, false, None, None, entry.NoAnswer?, 1); }
    var exit := QuoteV4(quotes, decode);
    if !exit.Price? { return Trip(true, false, Some(entry.amount), None, exit.NoAnswer?, 2); }
    trip := Trip(true, true, Some(entry.amount), Some(exit.amount), false, 2);
  }

  // --- the exit ladder ---------------------------------------------------------------

  function Halved(position: nat, k: nat): nat { if k == 0 then position else Halved(position, k - 1) / 2 }

  /** Smallest first: the position and its halves, each half of the next, none repeated,
      as many as asked for within one to eight or down to one. */
  ghost predicate HalvesOf(position: nat, rungs: int, sizes: seq<nat>) {
    && (position == 0 <==> sizes == [])
    && |sizes| <= Max(1, Min(8, rungs))
    && (forall i :: 0 <= i < |sizes| ==> sizes[i] > 0 && sizes[i] == Halved(position, |sizes| - 1 - i))
    && (forall i, j :: 0 <= i < j < |sizes| ==> sizes[i] < sizes[j])
    && (forall i :: 0 < i < |sizes| ==> sizes[i - 1] == sizes[i] / 2)
    && (position > 0 ==> sizes[|sizes| - 1] == position)
    && (|sizes| < Max(1, Min(8, rungs)) ==> position == 0 || sizes[0] == 1)
  }

  method ProbeSizes(position: nat, rungs: int) returns (sizes: seq<nat>)
    ensures HalvesOf(position, rungs, sizes)
  {
    sizes := [];
    if position == 0 { return; }
    var count := Max(1, Min(8, rungs));
    var size := position;
    while |sizes| < count && size > 0
      invariant |sizes| <= count && size == Halved(position, |sizes|)
      invariant forall i :: 0 <= i < |sizes| ==> sizes[i] > 0 && sizes[i] == Halved(position, |sizes| - 1 - i)
      invariant forall i, j :: 0 <= i < j < |sizes| ==> sizes[i] < sizes[j]
      invariant forall i :: 0 <= i < |sizes| ==> size < sizes[i]
      invariant |sizes| > 0 ==> sizes[|sizes| - 1] == position && size == sizes[0] / 2
      invariant forall i :: 0 < i < |sizes| ==> sizes[i - 1] == sizes[i] / 2
      invariant |sizes| == 0 ==> size == position
      decreases count - |sizes|
    {
      sizes := [size] + sizes;
      size := size / 2;
    }
  }

  datatype Rung = Rung(size: nat, output: Option<nat>)

  /** How many of the first `n` sizes have to be asked for: not the known one, not nothing. */
  ghost function Asked(sizes: seq<nat>, known: nat, n: nat): nat
    requires n <= |sizes|
  {
    if n == 0 then 0 else Asked(sizes, known, n - 1) + if sizes[n - 1] != known && sizes[n - 1] != 0 then 1 else 0
  }

  lemma {:induction false} AskedGrows(sizes: seq<nat>, known: nat, i: nat, n: nat)
    requires i < n <= |sizes| && sizes[i] != known && sizes[i] != 0
    ensures Asked(sizes, known, i) < Asked(sizes, known, n)
  {
    if i < n - 1 { AskedGrows(sizes, known, i, n - 1); }
  }

  /** What a quote of a sale came back with: a price, or nothing where the pool refused. */
  ghost predicate SoldFor(output: Option<nat>, answer: Answer, decode: nat -> Option<nat>) {
    && !answer.Unavailable?
    && output == match PricedOf(answer, decode) case Price(amount) => Some(amount) case _ => None
  }

  /** A rung's output: what is known already, nothing for nothing, or its own quote's answer. */
  ghost predicate RungPriced(rung: Rung, known: nat, knownOut: Option<nat>, answer: Option<Answer>,
                             decode: nat -> Option<nat>)
  {
    if rung.size == known then rung.output == knownOut
    else if rung.size == 0 then rung.output == None
    else answer.Some? && SoldFor(rung.output, answer.value, decode)
  }

  ghost function AnswerAt(given: seq<Given>, i: nat): Option<Answer> {
    if i < |given| then Some(given[i].answer) else None
  }

  ghost predicate AllPriced(rungs: seq<Rung>, sizes: seq<nat>, known: nat, knownOut: Option<nat>,
                            given: seq<Given>, from: nat, decode: nat -> Option<nat>)
  {
    && |rungs| <= |sizes|
    && forall i :: 0 <= i < |rungs| ==>
         rungs[i].size == sizes[i]
         && RungPriced(rungs[i], known, knownOut, AnswerAt(given, from + Asked(sizes, known, i)), decode)
  }

  lemma StillPriced(rungs: seq<Rung>, sizes: seq<nat>, known: nat, knownOut: Option<nat>, before: seq<Given>,
                    after: seq<Given>, from: nat, decode: nat -> Option<nat>)
    requires AllPriced(rungs, sizes, known, knownOut, before, from, decode) && before <= after
    requires |before| == from + Asked(sizes, known, |rungs|)
    ensures AllPriced(rungs, sizes, known, knownOut, after, from, decode)
  {
    forall i | 0 <= i < |rungs|
      ensures RungPriced(rungs[i], known, knownOut, AnswerAt(after, from + Asked(sizes, known, i)), decode)
    {
      if sizes[i] != known && sizes[i] != 0 { AskedGrows(sizes, known, i, |rungs|); }
    }
  }

  /** How far a ladder has come: every size so far has its rung, and nothing was silence. */
  ghost predicate Climbed(rungs: seq<Rung>, sizes: seq<nat>, known: nat, knownOut: Option<nat>, given: seq<Given>,
                          from: nat, used: nat, decode: nat -> Option<nat>)
  {
    && AllPriced(rungs, sizes, known, knownOut, given, from, decode)
    && used == Asked(sizes, known, |rungs|) && |given| == from + used && !WentUnanswered(given, from)
  }

  lemma RungAdded(rungs: seq<Rung>, rung: Rung, sizes: seq<nat>, known: nat, knownOut: Option<nat>, before: seq<Given>,
                  after: seq<Given>, from: nat, decode: nat -> Option<nat>)
    requires AllPriced(rungs, sizes, known, knownOut, before, from, decode) && before <= after
    requires |before| == from + Asked(sizes, known, |rungs|) && |rungs| < |sizes| && rung.size == sizes[|rungs|]
    requires RungPriced(rung, known, knownOut, AnswerAt(after, |before|), decode)
    ensures AllPriced(rungs + [rung], sizes, known, knownOut, after, from, decode)
  {
    StillPriced(rungs, sizes, known, knownOut, before, after, from, decode);
    var all, n := rungs + [rung], |rungs|;
    forall i | 0 <= i < n + 1
      ensures all[i].size == sizes[i]
      ensures RungPriced(all[i], known, knownOut, AnswerAt(after, from + Asked(sizes, known, i)), decode)
    {
      if i < n { assert all[i] == rungs[i]; } else { assert all[i] == rung && i == n; }
    }
  }

  lemma StillHeard(before: seq<Given>, after: seq<Given>, from: nat, rung: Rung, known: nat, knownOut: Option<nat>,
                   decode: nat -> Option<nat>)
    requires !WentUnanswered(before, from) && from <= |before| && before <= after
    requires |after| == |before| + if rung.size != known && rung.size != 0 then 1 else 0
    requires RungPriced(rung, known, knownOut, AnswerAt(after, |before|), decode)
    ensures !WentUnanswered(after, from)
  {
    forall i | from <= i < |after| ensures !after[i].answer.Unavailable? {
      if i < |before| { assert after[i] == before[i]; }
    }
  }

  lemma ClimbedNext(rungs: seq<Rung>, rung: Rung, sizes: seq<nat>, known: nat, knownOut: Option<nat>,
                    before: seq<Given>, after: seq<Given>, from: nat, used: nat, more: nat, decode: nat -> Option<nat>)
    requires Climbed(rungs, sizes, known, knownOut, before, from, used, decode) && before <= after
    requires |rungs| < |sizes| && rung.size == sizes[|rungs|] && |after| == |before| + more
    requires more == if rung.size != known && rung.size != 0 then 1 else 0
    requires RungPriced(rung, known, knownOut, AnswerAt(after, |before|), decode)
    ensures Climbed(rungs + [rung], sizes, known, knownOut, after, from, used + more, decode)
  {
    assert |rungs + [rung]| == |rungs| + 1 && Asked(sizes, known, |rungs| + 1) == used + more;
    RungAdded(rungs, rung, sizes, known, knownOut, before, after, from, decode);
    StillHeard(before, after, from, rung, known, knownOut, decode);
  }

  lemma ClimbStops(rungs: seq<Rung>, sizes: seq<nat>, known: nat, knownOut: Option<nat>, before: seq<Given>,
                   after: seq<Given>, from: nat, used: nat, decode: nat -> Option<nat>)
    requires Climbed(rungs, sizes, known, knownOut, before, from, used, decode) && before <= after
    requires |after| == |before| + 1 && after[|before|].answer.Unavailable?
    ensures AllPriced(rungs, sizes, known, knownOut, after, from, decode) && used == Asked(sizes, known, |rungs|)
    ensures WentUnanswered(after, from) && |after| == from + used + 1
  {
    StillPriced(rungs, sizes, known, knownOut, before, after, from, decode);
    assert after[from + used].answer.Unavailable?;
  }

  /** One size: known already, nothing to sell, or asked for. No rung when the endpoint
      does not answer. */
  method NextRung(quotes: Quotes, decode: nat -> Option<nat>, size: nat, known: nat, knownOut: Option<nat>)
    returns (rung: Option<Rung>, used: nat)
    requires quotes.Valid()
    modifies quotes
    ensures quotes.Valid() && (!old(quotes.anchored) ==> !quotes.anchored)
    ensures old(quotes.given) <= quotes.given && |quotes.given| == |old(quotes.given)| + used
    ensures used == if size != known && size != 0 then 1 else 0
    ensures rung == None <==> used == 1 && quotes.given[|old(quotes.given)|].answer.Unavailable?
    ensures rung.Some? ==>
      && rung.value.size == size
      && RungPriced(rung.value, known, knownOut, AnswerAt(quotes.given, |old(quotes.given)|), decode)
  {
    if size == known { return Some(Rung(size, knownOut)), 0; }
    if size == 0 { return Some(Rung(0, None)), 0; }
    var p := QuoteV4(quotes, decode);
    if p.NoAnswer? { return None, 1; }
    return Some(Rung(size, if p.Price? then Some(p.amount) else None)), 1;
  }

  /** Prices each size not priced already, and stops at the first the endpoint does not
      answer: what was gathered is real, the sizes after it were never asked. */
  method Ladder(quotes: Quotes, decode: nat -> Option<nat>, sizes: seq<nat>, known: nat, knownOut: Option<nat>)
    returns (rungs: seq<Rung>, degraded: bool, quotesUsed: nat)
    requires quotes.Valid()
    modifies quotes
    ensures quotes.Valid() && (!old(quotes.anchored) ==> !quotes.anchored)
    ensures old(quotes.given) <= quotes.given && |quotes.given| == |old(quotes.given)| + quotesUsed
    ensures degraded <==> WentUnanswered(quotes.given, |old(quotes.given)|)
    ensures |rungs| <= |sizes| && (degraded <==> |rungs| < |sizes|)
    ensures AllPriced(rungs, sizes, known, knownOut, quotes.given, |old(quotes.given)|, decode)
    ensures quotesUsed == Asked(sizes, known, |rungs|) + if degraded then 1 else 0
  {
    rungs, degraded, quotesUsed := [], false, 0;
    ghost var from := |quotes.given|;
    for n := 0 to |sizes|
      invariant quotes.Valid() && (!old(quotes.anchored) ==> !quotes.anchored) && old(quotes.given) <= quotes.given
      invariant |rungs| == n && Climbed(rungs, sizes, known, knownOut, quotes.given, from, quotesUsed, decode)
    {
      ghost var before := quotes.given;
      var rung, used := NextRung(quotes, decode, sizes[n], known, knownOut);
      if rung == None {
        ClimbStops(rungs, sizes, known, knownOut, before, quotes.given, from, quotesUsed, decode);
        return rungs, true, quotesUsed + 1;
      }
      ClimbedNext(rungs, rung.value, sizes, known, knownOut, before, quotes.given, from, quotesUsed, used, decode);
      rungs, quotesUsed := rungs + [rung.value], quotesUsed + used;
    }
  }

  // --- the route search ------------------------------------------------------------------

  /** The pool lookup: a pool whose quote asset the rail can or cannot name, no pool,
      or an endpoint that did not answer. */
  datatype Lookup = Pool(measurable: bool) | NoPool | LookupSilent

  /** The fallback venue's whole analysis; `degraded` when one of its reads went
      unanswered. */
  datatype Aerodrome = Aerodrome(entryFound: bool, exitFound: bool, entryOut: Option<nat>, exitReturn: Option<nat>,
                                 degraded: bool, calls: nat, probes: seq<Rung>)

  datatype Venue = UniswapV4 | AerodromeVenue
  datatype Alignment = AtAnchor | LatestNotAnchored
  datatype Routes = Routes(entryFound: bool, exitFound: bool, entryOut: Option<nat>, exitReturn: Option<nat>,
                           degraded: bool, calls: nat, alignment: Alignment, venues: seq<Venue>, probes: seq<Rung>)

  /** One of the reads this search made went unanswered. */
  ghost predicate RouteSilence(venues: seq<Venue>, lookup: Lookup, given: seq<Given>, from: nat, aerodrome: Aerodrome) {
    || (UniswapV4 in venues && lookup.LookupSilent?)
    || WentUnanswered(given, from)
    || (AerodromeVenue in venues && aerodrome.degraded)
  }

  const EXIT_PROBE_RUNGS := 5

  /** The exit ladder of a position whose buy and sale were both answered: its sizes, the
      top one as the round trip priced it, each other by its own quote, until one was silent. */
  ghost predicate LadderRan(position: nat, top: Option<nat>, probes: seq<Rung>, given: seq<Given>,
                            decode: nat -> Option<nat>)
  {
    exists sizes :: LadderOver(sizes, position, top, probes, given, decode)
  }

  ghost predicate LadderOver(sizes: seq<nat>, position: nat, top: Option<nat>, probes: seq<Rung>, given: seq<Given>,
                             decode: nat -> Option<nat>)
  {
    && HalvesOf(position, EXIT_PROBE_RUNGS, sizes)
    && AllPriced(probes, sizes, position, top, given, 2, decode)
    && (|probes| < |sizes| <==> WentUnanswered(given, 2))
    && |given| == 2 + Asked(sizes, position, |probes|) + if |probes| < |sizes| then 1 else 0
  }

  method AnalyseRoutes(quotes: Quotes, searchable: bool, lookup: Lookup, decode: nat -> Option<nat>,
                       aerodrome: Aerodrome) returns (r: Routes)
    requires quotes.Valid() && quotes.given == [] && quotes.anchored
    modifies quotes
    ensures quotes.Valid()
    // degraded if and only if something that was asked did not answer
    ensures r.degraded <==> RouteSilence(r.venues, lookup, quotes.given, 0, aerodrome)
    ensures UniswapV4 in r.venues <==> searchable
    // a pool that can be measured is asked, and no other
    ensures quotes.given != [] <==> searchable && lookup == Pool(true)
    // the other venue is asked exactly when this one has no price for the buy
    ensures AerodromeVenue !in r.venues <==>
              searchable && lookup == Pool(true) && quotes.given != []
                && PricedOf(quotes.given[0].answer, decode).Price?
    ensures AerodromeVenue !in r.venues ==>
              && r.entryFound && r.calls == |quotes.given|
              && r.entryOut.Some? && Price(r.entryOut.value) == PricedOf(quotes.given[0].answer, decode)
              && (r.exitFound <==> |quotes.given| >= 2 && PricedOf(quotes.given[1].answer, decode).Price?)
              && (r.exitFound ==>
                  r.exitReturn.Some? && Price(r.exitReturn.value) == PricedOf(quotes.given[1].answer, decode))
              && (!r.exitFound ==> r.exitReturn == None)
    ensures AerodromeVenue in r.venues ==> r.entryFound == aerodrome.entryFound && r.exitFound == aerodrome.exitFound
                                           && r.entryOut == aerodrome.entryOut && r.exitReturn == aerodrome.exitReturn
                                           && r.calls == aerodrome.calls && r.alignment.LatestNotAnchored?
                                           && r.probes == aerodrome.probes
    // the ladder runs, priced sale or not, unless the sale went unanswered
    ensures AerodromeVenue !in r.venues ==>
      |quotes.given| >= 2
      && if quotes.given[1].answer.Unavailable? then r.probes == [] && |quotes.given| == 2
         else LadderRan(r.entryOut.value, r.exitReturn, r.probes, quotes.given, decode)
    ensures AerodromeVenue !in r.venues ==> (r.alignment.AtAnchor? <==> quotes.anchored)
    // a search that says it read one moment read every quote there, and nothing else
    ensures r.alignment.AtAnchor? ==> AerodromeVenue !in r.venues && forall i :: 0 <= i < |quotes.given| ==>
      quotes.given[i].tag == Anchor
  {
    var venues: seq<Venue> := [];
    if searchable { venues := venues + [UniswapV4]; }
    var found := if searchable then lookup else NoPool;
    var v4Unreadable := found.LookupSilent?;
    if found.Pool? && found.measurable {
      var trip := RoundTrip(quotes, decode);
      if trip.entryFound {
        ghost var mid := |quotes.given|;
        ghost var first := quotes.given;
        var ladderDegraded, ladderCalls := false, 0;
        var rungs: seq<Rung> := [];
        if !trip.degraded {
          var sizes := ProbeSizes(trip.entryOut.value, EXIT_PROBE_RUNGS);
          rungs, ladderDegraded, ladderCalls := Ladder(quotes, decode, sizes, trip.entryOut.value, trip.exitReturn);
          assert LadderOver(sizes, trip.entryOut.value, trip.exitReturn, rungs, quotes.given, decode);
        }
        SilenceSplits(first, quotes.given);
        return Routes(true, trip.exitFound, trip.entryOut, trip.exitReturn, trip.degraded || ladderDegraded,
                      trip.quotesUsed + ladderCalls, if quotes.anchored then AtAnchor else LatestNotAnchored, venues,
                      rungs);
      }
      v4Unreadable := v4Unreadable || trip.degraded;
    }
    venues := venues + [AerodromeVenue];
    var degraded := aerodrome.degraded || v4Unreadable;
    r := Routes(aerodrome.entryFound, aerodrome.exitFound, aerodrome.entryOut, aerodrome.exitReturn, degraded,
                aerodrome.calls, LatestNotAnchored, venues, aerodrome.probes);
  }

  lemma SilenceSplits(front: seq<Given>, all: seq<Given>)
    requires front <= all
    ensures WentUnanswered(all, 0) <==> WentUnanswered(front, 0) || WentUnanswered(all, |front|)
  {
    if WentUnanswered(front, 0) {
      var i :| 0 <= i < |front| && front[i].answer.Unavailable?;
      assert all[i] == front[i];
    }
    if WentUnanswered(all, 0) && !WentUnanswered(all, |front|) {
      var i :| 0 <= i < |all| && all[i].answer.Unavailable?;
      assert i < |front| && front[i] == all[i];
    }
  }

  // --- the cheap filter ---------------------------------------------------------------------

  datatype Factory = Factory(isB20: Option<bool>, initialized: Option<bool>)

  datatype CheapFilter =
    | RouteSearchDegraded | NotB20 | Uninitialized | NoEntryRoute | NoExitRoute | QuoteUnavailable | Candidate

  function Filter(f: Factory, routes: Option<Routes>): CheapFilter {
    if f.isB20 == None then RouteSearchDegraded
    else if f.isB20 == Some(false) then NotB20
    else if f.initialized == None then RouteSearchDegraded
    else if f.initialized == Some(false) then Uninitialized
    else if routes == None || routes.value.degraded then RouteSearchDegraded
    else if !routes.value.entryFound then NoEntryRoute
    else if !routes.value.exitFound then NoExitRoute
    else if routes.value.entryOut == None || routes.value.exitReturn == None then QuoteUnavailable
    else Candidate
  }

  /** What the factory's two reads come back with; the second is made only when the
      first says yes. */
  function ReadFactory(isB20: Option<bool>, initialized: Option<bool>): Factory {
    if isB20 == None then Factory(None, None)
    else if !isB20.value then Factory(Some(false), None)
    else Factory(Some(true), initialized)
  }

  predicate Settled(f: Factory) { f.isB20 == Some(false) || f.initialized == Some(false) }

  /** Some read this measurement made of the factory went unanswered. */
  predicate FactorySilence(isB20: Option<bool>, initialized: Option<bool>) {
    isB20 == None || (isB20 == Some(true) && initialized == None)
  }

  // --- one measurement, whole --------------------------------------------------------------------

  datatype State = State(code: nat)
  datatype InsertReply = Fresh | Repeat(state: State) | Conflicts

  /** Everything the measurement is answered with. `verdict` stands for the rail's own
      judgement, `controlsOpen` for what the deep read found. */
  datatype World = World(anchor: Option<nat>, isB20: Option<bool>, initialized: Option<bool>, searchable: bool,
                         lookup: Lookup, replies: (nat, Tag) -> Reply, decode: nat -> Option<nat>, aerodrome: Aerodrome,
                         controlCalls: nat, verdict: (CheapFilter, bool) -> State, insert: InsertReply)

  datatype Measured = Threw | Measured(candidate: Option<State>, stored: bool, routerCalls: nat, controlCalls: nat)

  class Observations {
    /** By launch and block. */
    var rows: map<(nat, nat), State>

    constructor () ensures rows == map[] { rows := map[]; }
  }

  /** Some read this measurement made, of the factory or of a venue, went unanswered. */
  ghost predicate Silence(w: World, routes: Option<Routes>, given: seq<Given>) {
    || FactorySilence(w.isB20, w.initialized)
    || (routes.Some? && RouteSilence(routes.value.venues, w.lookup, given, 0, w.aerodrome))
  }

  /** What each verdict takes, from the reads alone. */
  ghost predicate VerdictFromReads(w: World, routes: Option<Routes>, given: seq<Given>, verdict: CheapFilter) {
    var yes := w.isB20.Some? && w.isB20.value && w.initialized.Some? && w.initialized.value;
    var heard := yes && !Silence(w, routes, given) && routes.Some?;
    match verdict
    case RouteSearchDegraded => Silence(w, routes, given)
    case NotB20 => w.isB20 == Some(false)
    case Uninitialized => w.isB20 == Some(true) && w.initialized == Some(false)
    case NoEntryRoute => heard && !routes.value.entryFound
    case NoExitRoute => heard && routes.value.entryFound && !routes.value.exitFound
    case QuoteUnavailable =>
      heard && routes.value.entryFound && routes.value.exitFound
      && (routes.value.entryOut == None || routes.value.exitReturn == None)
    case Candidate =>
      heard && routes.value.entryFound && routes.value.exitFound
      && routes.value.entryOut.Some? && routes.value.exitReturn.Some?
  }

  lemma FilterIsFromReads(w: World, routes: Option<Routes>, given: seq<Given>, verdict: CheapFilter)
    requires routes.Some? <==> !Settled(ReadFactory(w.isB20, w.initialized))
    requires routes.Some? ==>
      (routes.value.degraded <==> RouteSilence(routes.value.venues, w.lookup, given, 0, w.aerodrome))
    ensures Filter(ReadFactory(w.isB20, w.initialized), routes) == verdict <==>
      VerdictFromReads(w, routes, given, verdict)
  {
  }

  /** No observation without an anchor; nothing is read again for a block already
      observed; the deep controls are read for a candidate and for nothing else; each
      verdict is given exactly when the reads are as it says; and the filter is degraded
      exactly when a read that was made went unanswered. */
  method MeasureOne(observations: Observations, launch: nat, w: World)
    returns (m: Measured, ghost filter: Option<CheapFilter>, ghost controlsRead: bool, ghost routes: Option<Routes>,
             ghost given: seq<Given>)
    modifies observations
    ensures w.anchor == None ==> m == Measured(None, false, 0, 0) && filter == None
    ensures w.anchor.Some? && (launch, w.anchor.value) in old(observations.rows) ==>
      m == Measured(Some(old(observations.rows)[(launch, w.anchor.value)]), false, 0, 0) && filter == None
    ensures filter == None <==> w.anchor == None || (launch, w.anchor.value) in old(observations.rows)
    ensures filter.Some? ==> forall verdict :: filter.value == verdict <==> VerdictFromReads(w, routes, given, verdict)
    ensures routes.Some? <==> filter.Some? && !Settled(ReadFactory(w.isB20, w.initialized))
    ensures controlsRead <==> filter == Some(Candidate)
    ensures m.Measured? && m.stored ==>
      filter.Some? && observations.rows == old(observations.rows)[(launch, w.anchor.value) := w.verdict(filter.value,
            controlsRead)]
    ensures !(m.Measured? && m.stored) ==> observations.rows == old(observations.rows)
    ensures m.Measured? ==> m.controlCalls == if controlsRead then w.controlCalls else 0
    ensures m.Measured? ==> m.routerCalls == if routes.Some? then routes.value.calls else 0
    ensures filter.Some? ==>
      && (m.Threw? <==> w.insert.Conflicts?) && (m.Measured? ==> (m.stored <==> w.insert.Fresh?))
      && (m.Measured? ==>
          m.candidate == Some(if w.insert.Repeat? then w.insert.state else w.verdict(filter.value, controlsRead)))
  {
    filter, controlsRead, routes, given := None, false, None, [];
    if w.anchor == None { return Measured(None, false, 0, 0), None, false, None, []; }
    var key := (launch, w.anchor.value);
    if key in observations.rows { return Measured(Some(observations.rows[key]), false, 0, 0), None, false, None, []; }
    var factory := ReadFactory(w.isB20, w.initialized);
    var search: Option<Routes> := None;
    if !Settled(factory) {
      var quotes := new Quotes(w.replies);
      var r := AnalyseRoutes(quotes, w.searchable, w.lookup, w.decode, w.aerodrome);
      search := Some(r);
      given := quotes.given;
    }
    routes := search;
    var cheap := Filter(factory, search);
    filter := Some(cheap);
    forall verdict ensures cheap == verdict <==> VerdictFromReads(w, search, given, verdict) {
      FilterIsFromReads(w, search, given, verdict);
    }
    controlsRead := cheap == Candidate;
    var controlCalls := if cheap == Candidate then w.controlCalls else 0;
    var state := w.verdict(cheap, cheap == Candidate);
    var routerCalls := if search.Some? then search.value.calls else 0;
    match w.insert
    case Conflicts => m := Threw;
    case Repeat(other) => m := Measured(Some(other), false, routerCalls, controlCalls);
    case Fresh =>
      observations.rows := observations.rows[key := state];
      m := Measured(Some(state), true, routerCalls, controlCalls);
  }
}
