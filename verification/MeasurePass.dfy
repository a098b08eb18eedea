/** One bounded measurement pass: two queues, budgets checked between chunks, and the
    counters that have to add up. */
module MeasurePass {
  import opened Common

  type LaunchId = nat
  type State = nat

  /** What measuring one launch came to: it threw, or it ran, with or without an anchor
      to observe at. */
  datatype Candidate = Candidate(launch: LaunchId, state: State, stored: bool)
  datatype Measured = Failed(reason: nat) | Ran(candidate: Option<Candidate>, routerCalls: nat, controlCalls: nat)

  datatype Config = Config(maxRuntime: nat, maxRouterCalls: nat, maxControlCalls: nat, maxDeepCandidates: nat,
                           maxConcurrent: int, pairRemeasure: int, maxLaunches: nat)

  datatype Result = Success | BudgetExhausted | NothingEligible | RunAlreadyActive

  datatype Outcome = Outcome(result: Result, eligible: nat, attempted: nat, written: nat, repeats: nat,
                             notChecked: nat, failed: nat,
                             reasons: seq<nat>, routerCalls: nat, controlCalls: nat, byState: map<State, nat>,
                             candidates: seq<Candidate>, pairRemeasures: nat)

  /** Both queues by the limit they are asked for; the clock by how often it was read. */
  datatype World = World(lease: bool, pairQueue: nat -> seq<LaunchId>, primary: nat -> seq<LaunchId>,
                         measure: LaunchId -> Measured, now: nat -> int)

  ghost predicate HonestQueues(w: World) {
    && (forall n :: Distinct(w.pairQueue(n)) && |w.pairQueue(n)| <= n)
    && (forall n :: Distinct(w.primary(n)) && |w.primary(n)| <= n)
  }

  function PairBudget(c: Config): nat { Max(0, Min(c.pairRemeasure, c.maxDeepCandidates)) }

  function Queued(w: World, c: Config): seq<LaunchId> { if PairBudget(c) == 0 then [] else w.pairQueue(PairBudget(c)) }

  function Without(s: seq<LaunchId>, seen: seq<LaunchId>): (r: seq<LaunchId>)
    ensures forall x :: x in r <==> x in s && x !in seen
    ensures Distinct(s) ==> Distinct(r)
  {
    if s == [] then []
    else
      var front, last := Without(s[..|s| - 1], seen), s[|s| - 1];
      assert forall x :: x in s <==> x == last || x in s[..|s| - 1];
      if last in seen then front else front + [last]
  }

  /** The pair queue first, then the newest-first queue without what is already in. */
  function Eligible(w: World, c: Config): seq<LaunchId> {
    Queued(w, c) + Without(w.primary(c.maxLaunches), Queued(w, c))
  }

  /** How many launches are measured at once: what is asked for, within one to eight. */
  function Chunk(c: Config): (n: nat)
    ensures 1 <= n <= 8 && (1 <= c.maxConcurrent <= 8 ==> n == c.maxConcurrent)
    ensures (c.maxConcurrent < 1 ==> n == 1) && (c.maxConcurrent > 8 ==> n == 8)
  {
    Max(1, Min(8, c.maxConcurrent))
  }

  // --- what the counters count -----------------------------------------------------

  ghost function FailedOf(w: World, done: seq<LaunchId>): nat {
    if done == [] then 0 else FailedOf(w, done[..|done| - 1]) + if w.measure(done[|done| - 1]).Failed? then 1 else 0
  }

  /** The distinct reasons for failure, in the order first met. */
  ghost function ReasonsOf(w: World, done: seq<LaunchId>): seq<nat> {
    if done == [] then []
    else
      var before, m := ReasonsOf(w, done[..|done| - 1]), w.measure(done[|done| - 1]);
      if m.Failed? && m.reason !in before then before + [m.reason] else before
  }

  ghost function UnanchoredOf(w: World, done: seq<LaunchId>): nat {
    if done == [] then 0
    else
      var m := w.measure(done[|done| - 1]);
      UnanchoredOf(w, done[..|done| - 1]) + if m.Ran? && m.candidate == None then 1 else 0
  }

  ghost function CandidatesOf(w: World, done: seq<LaunchId>): seq<Candidate> {
    if done == [] then []
    else
      var m := w.measure(done[|done| - 1]);
      CandidatesOf(w, done[..|done| - 1]) + if m.Ran? && m.candidate.Some? then [m.candidate.value] else []
  }

  ghost function RouterCallsOf(w: World, done: seq<LaunchId>): nat {
    if done == [] then 0
    else
      var m := w.measure(done[|done| - 1]);
      RouterCallsOf(w, done[..|done| - 1]) + if m.Ran? then m.routerCalls else 0
  }

  ghost function ControlCallsOf(w: World, done: seq<LaunchId>): nat {
    if done == [] then 0
    else
      var m := w.measure(done[|done| - 1]);
      ControlCallsOf(w, done[..|done| - 1]) + if m.Ran? then m.controlCalls else 0
  }

  ghost function StoredOf(cs: seq<Candidate>): nat {
    if cs == [] then 0 else StoredOf(cs[..|cs| - 1]) + if cs[|cs| - 1].stored then 1 else 0
  }

  ghost function InState(cs: seq<Candidate>, s: State): nat {
    if cs == [] then 0 else InState(cs[..|cs| - 1], s) + if cs[|cs| - 1].state == s then 1 else 0
  }

  function CountIn(byState: map<State, nat>, s: State): nat { if s in byState then byState[s] else 0 }

  /** The sum of a tally over a set of states. */
  ghost function Total(byState: map<State, nat>, states: set<State>): nat
    requires states <= byState.Keys
  {
    if states == {} then 0 else var s :| s in states; byState[s] + Total(byState, states - {s})
  }

  lemma {:induction false} TotalPick(byState: map<State, nat>, states: set<State>, x: State)
    requires states <= byState.Keys && x in states
    ensures Total(byState, states) == byState[x] + Total(byState, states - {x})
    decreases |states|
  {
    var s :| s in states && Total(byState, states) == byState[s] + Total(byState, states - {s});
    if s != x {
      TotalPick(byState, states - {s}, x);
      TotalPick(byState, states - {x}, s);
      assert states - {s} - {x} == states - {x} - {s};
    }
  }

  lemma {:induction false} TotalAgrees(a: map<State, nat>, b: map<State, nat>, states: set<State>)
    requires states <= a.Keys && states <= b.Keys && forall s :: s in states ==> a[s] == b[s]
    ensures Total(a, states) == Total(b, states)
    decreases |states|
  {
    if states != {} {
      var s :| s in states;
      TotalPick(a, states, s);
      TotalPick(b, states, s);
      TotalAgrees(a, b, states - {s});
    }
  }

  /** One more of a state makes the whole tally one more. */
  lemma TallyGrows(byState: map<State, nat>, s: State)
    ensures var after := byState[s := CountIn(byState, s) + 1];
      Total(after, after.Keys) == Total(byState, byState.Keys) + 1
  {
    var after := byState[s := CountIn(byState, s) + 1];
    TotalPick(after, after.Keys, s);
    if s in byState {
      TotalPick(byState, byState.Keys, s);
      assert after.Keys == byState.Keys;
      TotalAgrees(after, byState, after.Keys - {s});
    } else {
      assert after.Keys - {s} == byState.Keys;
      TotalAgrees(after, byState, byState.Keys);
    }
  }

  lemma {:induction false} AttemptsAddUp(w: World, done: seq<LaunchId>)
    ensures |done| == FailedOf(w, done) + UnanchoredOf(w, done) + |CandidatesOf(w, done)|
  {
    if done != [] { AttemptsAddUp(w, done[..|done| - 1]); }
  }

  // --- the pass -------------------------------------------------------------------------

  /** The counters after measuring exactly these launches. */
  ghost predicate Accounts(o: Outcome, w: World, done: seq<LaunchId>) {
    && o.attempted == |done|
    && o.failed == FailedOf(w, done) && o.reasons == ReasonsOf(w, done)
    && o.candidates == CandidatesOf(w, done)
    && o.routerCalls == RouterCallsOf(w, done) && o.controlCalls == ControlCallsOf(w, done)
    && Tallies(o.candidates, o.byState, o.written, o.repeats)
  }

  /** The candidates by whether they were stored, and by state. */
  ghost predicate Tallies(cs: seq<Candidate>, byState: map<State, nat>, written: nat, repeats: nat) {
    && written == StoredOf(cs) && written + repeats == |cs|
    && (forall s: State :: CountIn(byState, s) == InState(cs, s))
  }

  /** A tally that counts each state right sums to the number of candidates. */
  lemma {:induction false} TallySums(cs: seq<Candidate>, byState: map<State, nat>)
    requires forall s: State :: CountIn(byState, s) == InState(cs, s)
    ensures Total(byState, byState.Keys) == |cs|
    decreases |cs|
  {
    if cs == [] {
      TotalOfZeros(byState, byState.Keys);
    } else {
      var front, c := cs[..|cs| - 1], cs[|cs| - 1];
      assert CountIn(byState, c.state) == InState(cs, c.state) > 0;
      var before := byState[c.state := byState[c.state] - 1];
      forall s: State ensures CountIn(before, s) == InState(front, s) {
        assert CountIn(byState, s) == InState(cs, s);
      }
      TallySums(front, before);
      TallyGrows(before, c.state);
      assert before[c.state := CountIn(before, c.state) + 1] == byState;
    }
  }

  lemma {:induction false} TotalOfZeros(byState: map<State, nat>, states: set<State>)
    requires states <= byState.Keys && forall s: State :: CountIn(byState, s) == 0
    ensures Total(byState, states) == 0
    decreases |states|
  {
    if states != {} {
      var s :| s in states;
      TotalPick(byState, states, s);
      assert CountIn(byState, s) == 0;
      TotalOfZeros(byState, states - {s});
    }
  }

  lemma TalliesNext(cs: seq<Candidate>, byState: map<State, nat>, written: nat, repeats: nat, c: Candidate)
    requires Tallies(cs, byState, written, repeats)
    ensures Tallies(cs + [c], byState[c.state := CountIn(byState, c.state) + 1], written + (if c.stored then 1 else 0),
                    repeats + if c.stored then 0 else 1)
  {
    StoredNext(cs, c);
    forall s: State ensures InState(cs + [c], s) == InState(cs, s) + if c.state == s then 1 else 0 {
      InStateNext(cs, c, s);
    }
  }

  lemma StoredNext(cs: seq<Candidate>, c: Candidate)
    ensures StoredOf(cs + [c]) == StoredOf(cs) + if c.stored then 1 else 0
  {
    assert (cs + [c])[..|cs|] == cs;
  }

  lemma InStateNext(cs: seq<Candidate>, c: Candidate, s: State)
    ensures InState(cs + [c], s) == InState(cs, s) + if c.state == s then 1 else 0
  {
    assert (cs + [c])[..|cs|] == cs;
  }

  lemma OneMoreDone(w: World, done: seq<LaunchId>, launch: LaunchId)
    ensures var m, all := w.measure(launch), done + [launch];
      && FailedOf(w, all) == FailedOf(w, done) + (if m.Failed? then 1 else 0)
      && ReasonsOf(w, all) == (if m.Failed? && m.reason !in ReasonsOf(w, done) then ReasonsOf(w, done)
                               + [m.reason] else ReasonsOf(w, done))
      && CandidatesOf(w, all) == CandidatesOf(w, done)
           + (if m.Ran? && m.candidate.Some? then [m.candidate.value] else [])
      && RouterCallsOf(w, all) == RouterCallsOf(w, done) + (if m.Ran? then m.routerCalls else 0)
      && ControlCallsOf(w, all) == ControlCallsOf(w, done) + (if m.Ran? then m.controlCalls else 0)
  {
    assert (done + [launch])[..|done|] == done;
  }

  function WithFailure(o: Outcome, reason: nat): Outcome {
    o.(attempted := o.attempted + 1, failed := o.failed + 1,
       reasons := if reason in o.reasons then o.reasons else o.reasons + [reason])
  }

  function WithCalls(o: Outcome, m: Measured): Outcome
    requires m.Ran?
  {
    o.(attempted := o.attempted + 1, routerCalls := o.routerCalls + m.routerCalls,
       controlCalls := o.controlCalls + m.controlCalls)
  }

  function WithCandidate(o: Outcome, c: Candidate): Outcome {
    var o' := o.(candidates := o.candidates + [c], byState := o.byState[c.state := CountIn(o.byState, c.state) + 1]);
    if c.stored then o'.(written := o.written + 1) else o'.(repeats := o.repeats + 1)
  }

  lemma FailureCounted(o: Outcome, w: World, done: seq<LaunchId>, launch: LaunchId)
    requires Accounts(o, w, done) && w.measure(launch).Failed?
    ensures Accounts(WithFailure(o, w.measure(launch).reason), w, done + [launch])
  {
    OneMoreDone(w, done, launch);
  }

  lemma RunCounted(o: Outcome, w: World, done: seq<LaunchId>, launch: LaunchId)
    requires Accounts(o, w, done) && w.measure(launch).Ran? && w.measure(launch).candidate == None
    ensures Accounts(WithCalls(o, w.measure(launch)), w, done + [launch])
  {
    OneMoreDone(w, done, launch);
  }

  lemma MeasuredCounted(o: Outcome, w: World, done: seq<LaunchId>, launch: LaunchId)
    requires Accounts(o, w, done) && w.measure(launch).Ran? && w.measure(launch).candidate.Some?
    ensures Accounts(WithCandidate(WithCalls(o, w.measure(launch)), w.measure(launch).candidate.value), w,
                     done + [launch])
  {
    OneMoreDone(w, done, launch);
    TalliesNext(o.candidates, o.byState, o.written, o.repeats, w.measure(launch).candidate.value);
  }

  /** Adds one launch's result to the counters. */
  method Count(o: Outcome, m: Measured, ghost w: World, ghost done: seq<LaunchId>, ghost launch: LaunchId)
    returns (o': Outcome)
    requires Accounts(o, w, done) && m == w.measure(launch)
    ensures Accounts(o', w, done + [launch])
    ensures o'.result == o.result && o'.eligible == o.eligible && o'.notChecked == o.notChecked
      && o'.pairRemeasures == o.pairRemeasures
  {
    if m.Failed? {
      FailureCounted(o, w, done, launch);
      return WithFailure(o, m.reason);
    }
    o' := WithCalls(o, m);
    if m.candidate == None {
      RunCounted(o, w, done, launch);
    } else {
      MeasuredCounted(o, w, done, launch);
      o' := WithCandidate(o', m.candidate.value);
    }
  }

  /** One budget is spent, the last of them the number of candidates. */
  predicate OutOfBudget(o: Outcome, c: Config, w: World, check: nat) {
    w.now(check) > w.now(0) + c.maxRuntime || o.routerCalls >= c.maxRouterCalls || o.controlCalls >= c.maxControlCalls
    || o.attempted >= c.maxDeepCandidates
  }

  method MeasureChunk(o: Outcome, w: World, slice: seq<LaunchId>, ghost done: seq<LaunchId>) returns (o': Outcome)
    requires Accounts(o, w, done)
    ensures Accounts(o', w, done + slice)
    ensures o'.result == o.result && o'.eligible == o.eligible && o'.notChecked == o.notChecked
      && o'.pairRemeasures == o.pairRemeasures
  {
    o' := o;
    assert done + slice[..0] == done;
    for n := 0 to |slice|
      invariant Accounts(o', w, done + slice[..n])
      invariant o'.result == o.result && o'.eligible == o.eligible && o'.notChecked == o.notChecked
        && o'.pairRemeasures == o.pairRemeasures
    {
      var next := Count(o', w.measure(slice[n]), w, done + slice[..n], slice[n]);
      assert done + slice[..n] + [slice[n]] == done + slice[..n + 1];
      o' := next;
    }
    assert slice[..|slice|] == slice;
  }

  /** Every budget has something left, at the clock's reading number `check`. */
  ghost predicate HasBudget(w: World, c: Config, done: seq<LaunchId>, check: nat) {
    && w.now(check) <= w.now(0) + c.maxRuntime
    && RouterCallsOf(w, done) < c.maxRouterCalls && ControlCallsOf(w, done) < c.maxControlCalls
    && |done| < c.maxDeepCandidates
  }

  /** Where the chunks began: one after the other, each full but perhaps the last. */
  ghost predicate ChunkStarts(starts: seq<nat>, c: Config, attempted: nat, eligible: nat) {
    && (starts == [] <==> attempted == 0)
    && (starts != [] ==> starts[0] == 0 && attempted == Min(starts[|starts| - 1] + Chunk(c), eligible))
    && forall i :: 0 < i < |starts| ==> starts[i] == starts[i - 1] + Chunk(c)
  }

  /** A chunk is begun exactly while every budget has something left: each that was begun
      found that, and what was left undone found one of them spent. */
  ghost predicate StopsWhenSpent(w: World, c: Config, attempted: seq<LaunchId>, eligible: nat, starts: seq<nat>) {
    && ChunkStarts(starts, c, |attempted|, eligible)
    && (forall i :: 0 <= i < |starts| ==> starts[i] < |attempted| && HasBudget(w, c, attempted[..starts[i]], i + 1))
    && (|attempted| < eligible ==> !HasBudget(w, c, attempted, |starts| + 1))
  }

  /** Chunk after chunk, until the queues or a budget run out. */
  method WorkThrough(o: Outcome, w: World, c: Config, all: seq<LaunchId>) returns (o': Outcome, ghost starts: seq<nat>)
    requires Accounts(o, w, [])
    ensures o'.attempted <= |all| && Accounts(o', w, all[..o'.attempted])
    ensures o'.eligible == o.eligible && o'.pairRemeasures == o.pairRemeasures
    ensures StopsWhenSpent(w, c, all[..o'.attempted], |all|, starts)
  {
    var index, checks := 0, 1;
    o', starts := o, [];
    while index < |all|
      invariant 0 <= index <= |all| && Accounts(o', w, all[..index]) && checks == |starts| + 1
      invariant o'.eligible == o.eligible && o'.pairRemeasures == o.pairRemeasures
      invariant ChunkStarts(starts, c, index, |all|)
      invariant forall i :: 0 <= i < |starts| ==> starts[i] < index && HasBudget(w, c, all[..index][..starts[i]], i + 1)
      decreases |all| - index
    {
      if OutOfBudget(o', c, w, checks) { break; }
      checks := checks + 1;
      var end := Min(index + Chunk(c), |all|);
      var slice := all[index..end];
      o' := MeasureChunk(o', w, slice, all[..index]);
      assert all[..index] + slice == all[..end];
      ChunkBegun(w, c, all, index, end, starts);
      starts := starts + [index];
      index := end;
    }
  }

  lemma ChunkBegun(w: World, c: Config, all: seq<LaunchId>, index: nat, end: nat, starts: seq<nat>)
    requires index < |all| && end == Min(index + Chunk(c), |all|) && ChunkStarts(starts, c, index, |all|)
    requires forall i :: 0 <= i < |starts| ==> starts[i] < index && HasBudget(w, c, all[..index][..starts[i]], i + 1)
    requires HasBudget(w, c, all[..index], |starts| + 1)
    ensures ChunkStarts(starts + [index], c, end, |all|)
    ensures forall i :: 0 <= i < |starts + [index]| ==>
      (starts + [index])[i] < end && HasBudget(w, c, all[..end][..(starts + [index])[i]], i + 1)
  {
    var more := starts + [index];
    forall i | 0 <= i < |more| ensures more[i] < end && HasBudget(w, c, all[..end][..more[i]], i + 1) {
      if i < |starts| {
        assert all[..end][..starts[i]] == all[..index][..starts[i]];
      } else {
        assert all[..end][..index] == all[..index];
      }
    }
  }

  // --- which launches those are -----------------------------------------------------------

  /** The reservation: as many as asked for and as there is budget for. */
  ghost predicate Reserved(w: World, c: Config, pairs: seq<LaunchId>) {
    if c.pairRemeasure <= 0 || c.maxDeepCandidates == 0 then pairs == []
    else if c.pairRemeasure <= c.maxDeepCandidates then pairs == w.pairQueue(c.pairRemeasure)
    else pairs == w.pairQueue(c.maxDeepCandidates)
  }

  /** The launches of a queue that are not in `pairs`, in its order and none passed over. */
  ghost predicate FromTheFront(rest: seq<LaunchId>, queue: seq<LaunchId>, pairs: seq<LaunchId>) {
    && (forall x :: x in rest ==> x in queue && x !in pairs)
    && (forall i, j, a, b ::
          (0 <= i < |rest| && 0 <= j < |rest| && 0 <= a < b < |queue| && queue[a] == rest[i] && queue[b] == rest[j])
          ==> i < j)
    && (forall a, b :: 0 <= a < b < |queue| && queue[b] in rest && queue[a] !in pairs ==> queue[a] in rest)
  }

  /** Nothing newer is attempted before every reserved launch, and what is newer is
      attempted in its own order. */
  ghost predicate ReservedFirst(attempted: seq<LaunchId>, pairs: seq<LaunchId>, primary: seq<LaunchId>) {
    var k := Min(|attempted|, |pairs|);
    attempted[..k] == pairs[..k] && FromTheFront(attempted[k..], primary, pairs)
  }

  lemma {:induction false} WithoutInOrder(s: seq<LaunchId>, seen: seq<LaunchId>, k: nat)
    requires Distinct(s) && k <= |Without(s, seen)|
    ensures FromTheFront(Without(s, seen)[..k], s, seen)
  {
    if s != [] {
      var front, last := s[..|s| - 1], s[|s| - 1];
      var all, before := Without(s, seen), Without(front, seen);
      assert s == front + [last];
      assert forall a :: 0 <= a < |front| ==> s[a] == front[a] && front[a] != last;
      if k <= |before| {
        WithoutInOrder(front, seen, k);
        assert all[..k] == before[..k];
        QueueGrows(before[..k], front, seen, last);
      } else {
        WithoutInOrder(front, seen, |before|);
        assert before[..|before|] == before && all[..k] == before + [last];
        LastInOrder(before, front, seen, last);
      }
    }
  }

  lemma QueueGrows(rest: seq<LaunchId>, queue: seq<LaunchId>, pairs: seq<LaunchId>, last: LaunchId)
    requires FromTheFront(rest, queue, pairs) && last !in queue
    ensures FromTheFront(rest, queue + [last], pairs)
  {
    var q := queue + [last];
    forall i, j, a, b | 0 <= i < |rest| && 0 <= j < |rest| && 0 <= a < b < |q| && q[a] == rest[i] && q[b] == rest[j]
      ensures i < j
    {
      assert rest[j] in rest && q[b] in queue;
      assert q[a] == queue[a] && q[b] == queue[b];
    }
  }

  lemma LastInOrder(rest: seq<LaunchId>, queue: seq<LaunchId>, pairs: seq<LaunchId>, last: LaunchId)
    requires FromTheFront(rest, queue, pairs) && last !in pairs && last !in queue
    requires forall x :: x in queue && x !in pairs ==> x in rest
    ensures FromTheFront(rest + [last], queue + [last], pairs)
  {
    var r, q := rest + [last], queue + [last];
    forall i, j, a, b | 0 <= i < |r| && 0 <= j < |r| && 0 <= a < b < |q| && q[a] == r[i] && q[b] == r[j] ensures i < j {
      assert a < |queue| && q[a] == queue[a];
      assert q[a] in queue;
      assert i < |rest| && r[i] == rest[i];
      if b < |queue| {
        assert q[b] == queue[b] && queue[b] in queue;
        assert j < |rest| && r[j] == rest[j];
      }
    }
  }

  lemma EligibleInOrder(w: World, c: Config, k: nat)
    requires HonestQueues(w) && k <= |Eligible(w, c)|
    ensures ReservedFirst(Eligible(w, c)[..k], Queued(w, c), w.primary(c.maxLaunches))
  {
    var pairs, primary := Queued(w, c), w.primary(c.maxLaunches);
    var rest := Without(primary, pairs);
    var attempted := Eligible(w, c)[..k];
    assert Distinct(primary);
    if k <= |pairs| {
      assert attempted == pairs[..k] && attempted[k..] == [];
    } else {
      WithoutInOrder(primary, pairs, k - |pairs|);
      assert attempted[..|pairs|] == pairs == pairs[..|pairs|];
      assert attempted[|pairs|..] == rest[..k - |pairs|];
    }
  }

  ghost function Either(a: seq<LaunchId>, b: seq<LaunchId>): set<LaunchId> { set x | x in a + b }

  lemma EligibleAreBoth(w: World, c: Config)
    requires HonestQueues(w)
    ensures |Eligible(w, c)| == |Either(Queued(w, c), w.primary(c.maxLaunches))|
  {
    EligibleIsDistinct(w, c);
    var primary := w.primary(c.maxLaunches);
    forall x ensures x in Eligible(w, c) <==> x in Queued(w, c) + primary {
      assert x in Without(primary, Queued(w, c)) <==> x in primary && x !in Queued(w, c);
    }
    SizeOf(Eligible(w, c), Either(Queued(w, c), primary));
  }

  // --- the whole pass -----------------------------------------------------------------------

  /** What a pass that held the lease and found work reports of the launches it attempted. */
  ghost predicate AddsUp(o: Outcome, w: World, c: Config, attempted: seq<LaunchId>) {
    && Accounts(o, w, attempted) && Distinct(attempted)
    && o.eligible == o.attempted + o.notChecked
    && o.attempted == o.failed + UnanchoredOf(w, attempted) + |o.candidates|
    && |o.candidates| == o.written + o.repeats == Total(o.byState, o.byState.Keys)
    && o.attempted <= Max(0, c.maxDeepCandidates + Chunk(c) - 1)
    && (o.result.BudgetExhausted? <==> o.notChecked > 0) && (o.result.Success? <==> o.notChecked == 0)
  }

  /** No budget but the number of candidates was ever spent. */
  ghost predicate OnlyCandidatesBound(w: World, c: Config, attempted: seq<LaunchId>) {
    && (forall n :: w.now(n) <= w.now(0) + c.maxRuntime)
    && RouterCallsOf(w, attempted) < c.maxRouterCalls && ControlCallsOf(w, attempted) < c.maxControlCalls
  }

  const Nothing := Outcome(Success, 0, 0, 0, 0, 0, 0, [], 0, 0, map[], [], 0)

  lemma NothingAccounts(w: World, eligible: nat, pairs: nat)
    ensures Accounts(Nothing.(eligible := eligible, pairRemeasures := pairs), w, [])
  {
  }

  method RunPass(w: World, c: Config)
    returns (o: Outcome, ghost attempted: seq<LaunchId>, ghost pairs: seq<LaunchId>, ghost starts: seq<nat>)
    requires HonestQueues(w)
    ensures o.result.RunAlreadyActive? <==> !w.lease
    ensures o.result.NothingEligible? <==> w.lease && o.eligible == 0
    // both queues are eligible, each launch once
    ensures w.lease ==> Reserved(w, c, pairs) && o.pairRemeasures == |pairs|
    ensures w.lease ==> o.eligible == |Either(pairs, w.primary(c.maxLaunches))|
    // the reservation is spent before anything newer, and what is newer in its own order
    ensures w.lease ==> ReservedFirst(attempted, pairs, w.primary(c.maxLaunches))
    // the counters are those of the launches attempted, and stopped where a budget was spent
    ensures w.lease && o.eligible > 0 ==> AddsUp(o, w, c, attempted)
    ensures w.lease && o.eligible > 0 ==> StopsWhenSpent(w, c, attempted, o.eligible, starts)
    ensures !w.lease || o.eligible == 0 ==> attempted == [] && o.attempted == 0
    // so the whole reservation is attempted when nothing but the number of candidates binds
    ensures w.lease && OnlyCandidatesBound(w, c, attempted) ==>
      pairs <= attempted && |attempted| >= Min(c.maxDeepCandidates, o.eligible)
  {
    o, attempted, pairs, starts := Nothing, [], [], [];
    if !w.lease { o := o.(result := RunAlreadyActive); return; }
    var reserved := Queued(w, c);
    var eligible := reserved + Without(w.primary(c.maxLaunches), reserved);
    pairs := reserved;
    EligibleIsDistinct(w, c);
    EligibleAreBoth(w, c);
    o := o.(eligible := |eligible|, pairRemeasures := |reserved|);
    NothingAccounts(w, |eligible|, |reserved|);
    if |eligible| == 0 { o := o.(result := NothingEligible); return; }
    o, starts := WorkThrough(o, w, c, eligible);
    attempted := eligible[..o.attempted];
    EligibleInOrder(w, c, o.attempted);
    FinishedAddsUp(o, w, c, starts);
    if OnlyCandidatesBound(w, c, attempted) { ReservationIsSpent(w, c, attempted, pairs, o.eligible, starts); }
    o := Finished(o);
  }

  /** Selected but never reached is not checked, and makes the pass a short one. */
  function Finished(o: Outcome): Outcome {
    var notChecked := Max(0, o.eligible - o.attempted);
    o.(notChecked := notChecked, result := if notChecked > 0 then BudgetExhausted else Success)
  }

  lemma FinishedAddsUp(o: Outcome, w: World, c: Config, starts: seq<nat>)
    requires HonestQueues(w) && o.eligible == |Eligible(w, c)|
    requires o.attempted <= |Eligible(w, c)| && Accounts(o, w, Eligible(w, c)[..o.attempted])
    requires StopsWhenSpent(w, c, Eligible(w, c)[..o.attempted], o.eligible, starts)
    ensures AddsUp(Finished(o), w, c, Eligible(w, c)[..o.attempted])
  {
    EligibleIsDistinct(w, c);
    AttemptsAddUp(w, Eligible(w, c)[..o.attempted]);
    TallySums(o.candidates, o.byState);
    if starts != [] {
      assert HasBudget(w, c, Eligible(w, c)[..o.attempted][..starts[|starts| - 1]], |starts|);
    }
  }

  lemma ReservationIsSpent(w: World, c: Config, attempted: seq<LaunchId>, pairs: seq<LaunchId>, eligible: nat,
                           starts: seq<nat>)
    requires OnlyCandidatesBound(w, c, attempted) && StopsWhenSpent(w, c, attempted, eligible, starts)
    requires |pairs| <= Min(c.maxDeepCandidates, eligible) && |attempted| <= eligible
    requires attempted[..Min(|attempted|, |pairs|)] == pairs[..Min(|attempted|, |pairs|)]
    ensures pairs <= attempted && |attempted| >= Min(c.maxDeepCandidates, eligible)
  {
    assert w.now(|starts| + 1) <= w.now(0) + c.maxRuntime;
    assert pairs[..|pairs|] == pairs;
  }

  lemma EligibleIsDistinct(w: World, c: Config)
    requires HonestQueues(w)
    ensures Distinct(Eligible(w, c)) && |Queued(w, c)| <= Max(0, Min(c.pairRemeasure, c.maxDeepCandidates))
  {
    assert Distinct(w.pairQueue(PairBudget(c))) && Distinct(w.primary(c.maxLaunches));
    var a, b := Queued(w, c), Without(w.primary(c.maxLaunches), Queued(w, c));
    forall i, j | 0 <= i < j < |a + b| ensures (a + b)[i] != (a + b)[j] {
      if i < |a| <= j { assert b[j - |a|] in b; }
    }
  }
}
