/** Quotes pinned to the observation's block, and the one way they may come loose. */
module QuoteContext {
  import opened Common

  datatype Reason = Reverted | EmptyResult | RpcError | OtherFailure(code: nat)
  datatype Reply = Value(value: nat) | Fails(reason: Reason)
  datatype Tag = Anchor | Latest

  /** What a quote gives its caller: a value, the pool's own refusal, or no answer. */
  datatype Answer = Quoted(value: nat) | Nothing | Unavailable

  predicate PoolAnswered(r: Reason) { r.Reverted? || r.EmptyResult? }

  /** The catch-all is the only failure that may be about the block itself. */
  predicate BlockMayBeGone(r: Reason) { r.RpcError? }

  function AnswerOf(reply: Reply): Answer {
    if reply.Value? then Quoted(reply.value)
    else if PoolAnswered(reply.reason) then Nothing
    else Unavailable
  }

  datatype Call = Call(tag: Tag, reply: Reply)
  datatype Given = Given(answer: Answer, tag: Tag)

  /** `replies` is the endpoint: what it says to each call, by call number and tag. */
  class Quotes {
    const replies: (nat, Tag) -> Reply
    var anchored: bool
    var lastFailure: Option<Reason>
    /** Every endpoint call, and every answer given, in order. */
    var calls: seq<Call>
    ghost var given: seq<Given>

    ghost predicate Valid() reads this {
      // while it still claims to be anchored, nothing it gave was read elsewhere
      && (anchored ==> forall i :: 0 <= i < |given| ==> given[i].tag == Anchor)
      && (anchored ==> forall i :: 0 <= i < |calls| ==> calls[i].tag == Anchor)
      // one call a quote, and one more for the single retry
      && |calls| == |given| + (if anchored then 0 else 1)
    }

    constructor (endpoint: (nat, Tag) -> Reply)
      ensures Valid() && anchored && lastFailure == None && calls == [] && given == [] && replies == endpoint
    {
      replies, anchored, lastFailure, calls, given := endpoint, true, None, [], [];
    }

    method Ask(tag: Tag) returns (reply: Reply)
      modifies this`calls
      ensures reply == replies(|old(calls)|, tag) && calls == old(calls) + [Call(tag, reply)]
    {
      reply := replies(|calls|, tag);
      calls := calls + [Call(tag, reply)];
    }

    method Unanswered(reply: Reply) returns (answer: Answer)
      modifies this`lastFailure
      ensures answer == AnswerOf(reply)
      ensures lastFailure == if answer.Unavailable? then Some(reply.reason) else old(lastFailure)
    {
      answer := AnswerOf(reply);
      if answer.Unavailable? { lastFailure := Some(reply.reason); }
    }

    /** One quote. It reads at the anchor until the anchor fails in the one way that may
        mean the block is gone; from then on, for good, it reads at the latest block.
        Only the pool's own refusal comes back as nothing. */
    method Quote() returns (answer: Answer)
      requires Valid()
      modifies this
      ensures Valid() && |given| == |old(given)| + 1 && given[..|old(given)|] == old(given)
        && given[|old(given)|].answer == answer
      ensures !old(anchored) ==> !anchored
      ensures |calls| > |old(calls)| && calls[..|old(calls)|] == old(calls)
      ensures var first := calls[|old(calls)|]; var last := calls[|calls| - 1];
        && first.tag == (if old(anchored) then Anchor else Latest)
        && (anchored <==> old(anchored) && !(first.reply.Fails? && first.reply.reason.RpcError?))
        && (|calls| == |old(calls)| + 2 <==> old(anchored) && !anchored)
        && answer == AnswerOf(last.reply) && given[|old(given)|].tag == last.tag
        && (last.tag.Latest? <==> !anchored)
        && lastFailure == if answer.Unavailable? then Some(last.reply.reason) else old(lastFailure)
    {
      var reply := Ask(if anchored then Anchor else Latest);
      var tag := if anchored then Anchor else Latest;
      if anchored && reply.Fails? && !PoolAnswered(reply.reason) && BlockMayBeGone(reply.reason) {
        reply := Ask(Latest);
        tag := Latest;
        anchored := false;
      }
      answer := Unanswered(reply);
      given := given + [Given(answer, tag)];
    }
  }

  // --- quotes that overlap ---------------------------------------------------------------

  /** Where one quote stands between its awaits. */
  datatype Stage = Waiting(tag: Tag) | Retrying | Done(given: Given)

  /** `rpcErrors` counts the catch-all failures received at the anchor, `made` the
      endpoint calls. Both are history. */
  datatype Overlap = Overlap(anchored: bool, quotes: map<nat, Stage>, rpcErrors: nat, made: nat)

  datatype Event = Start(q: nat) | Reply(q: nat, reply: Reply)

  function Step(s: Overlap, e: Event): Overlap {
    match e
    case Start(q) =>
      if q in s.quotes then s
      else s.(quotes := s.quotes[q := Waiting(if s.anchored then Anchor else Latest)], made := s.made + 1)
    case Reply(q, reply) =>
      if q !in s.quotes then s
      else
        match s.quotes[q]
        case Done(_) => s
        case Retrying => s.(anchored := false, quotes := s.quotes[q := Done(Given(AnswerOf(reply), Latest))])
        case Waiting(tag) =>
          if tag.Anchor? && reply.Fails? && reply.reason.RpcError? then
            s.(quotes := s.quotes[q := Retrying], rpcErrors := s.rpcErrors + 1, made := s.made + 1)
          else s.(quotes := s.quotes[q := Done(Given(AnswerOf(reply), tag))])
  }

  function Run(s: Overlap, es: seq<Event>): Overlap
    decreases |es|
  {
    if es == [] then s else Run(Step(s, es[0]), es[1..])
  }

  const Fresh := Overlap(true, map[], 0, 0)

  ghost predicate Sound(s: Overlap) {
    && (s.anchored ==> forall q :: q in s.quotes ==>
        s.quotes[q] != Waiting(Latest) && (s.quotes[q].Done? ==> s.quotes[q].given.tag == Anchor))
    && (forall q :: q in s.quotes && (s.quotes[q].Retrying? || s.quotes[q] == Waiting(Latest)
                                      || (s.quotes[q].Done? && s.quotes[q].given.tag == Latest))
          ==> s.rpcErrors > 0)
    && (!s.anchored ==> s.rpcErrors > 0)
    && s.made == |s.quotes| + s.rpcErrors
  }

  lemma StepKeepsSound(s: Overlap, e: Event)
    requires Sound(s)
    ensures Sound(Step(s, e)) && (!s.anchored ==> !Step(s, e).anchored)
  {
  }

  /** However quotes overlap: while the context says anchored every answer given was
      read at the anchor, the change is one way, nothing is read at the latest block
      before some quote met the catch-all failure, and the endpoint is called once a
      quote and once more for each such failure. */
  lemma {:induction false} AnchoredMeansAnchored(s: Overlap, es: seq<Event>)
    requires Sound(s)
    ensures Sound(Run(s, es)) && (!s.anchored ==> !Run(s, es).anchored)
    decreases |es|
  {
    if es != [] {
      StepKeepsSound(s, es[0]);
      AnchoredMeansAnchored(Step(s, es[0]), es[1..]);
    }
  }

  // --- which quotes are read at the latest block ------------------------------------------

  /** The answer to a retry comes back: the one event that lets the context go. */
  predicate Loosens(s: Overlap, e: Event) { e.Reply? && e.q in s.quotes && s.quotes[e.q].Retrying? }

  ghost predicate EverLoosens(s: Overlap, es: seq<Event>)
    decreases |es|
  {
    es != [] && (Loosens(s, es[0]) || EverLoosens(Step(s, es[0]), es[1..]))
  }

  lemma {:induction false} LooseExactlyWhen(s: Overlap, es: seq<Event>)
    ensures !Run(s, es).anchored <==> !s.anchored || EverLoosens(s, es)
    decreases |es|
  {
    if es != [] { LooseExactlyWhen(Step(s, es[0]), es[1..]); }
  }

  /** The quote's own read at the anchor failed in the one way that may mean the block is gone. */
  predicate MeetsItsFailure(s: Overlap, e: Event, q: nat) {
    e.Reply? && e.q == q && q in s.quotes && s.quotes[q] == Waiting(Anchor) && e.reply.Fails?
      && e.reply.reason.RpcError?
  }

  ghost predicate EverMeetsItsFailure(s: Overlap, es: seq<Event>, q: nat)
    decreases |es|
  {
    es != [] && (MeetsItsFailure(s, es[0], q) || EverMeetsItsFailure(Step(s, es[0]), es[1..], q))
  }

  predicate ReadsLatest(stage: Stage) {
    match stage
    case Waiting(tag) => tag.Latest?
    case Retrying => true
    case Done(given) => given.tag.Latest?
  }

  lemma {:induction false} ReadsLatestExactlyWhen(s: Overlap, es: seq<Event>, q: nat)
    requires q in s.quotes
    ensures q in Run(s, es).quotes
    ensures ReadsLatest(Run(s, es).quotes[q]) <==> ReadsLatest(s.quotes[q]) || EverMeetsItsFailure(s, es, q)
    decreases |es|
  {
    if es != [] { ReadsLatestExactlyWhen(Step(s, es[0]), es[1..], q); }
  }

  /** However quotes overlap: one that starts after `before` reads at the latest block
      exactly when the answer to some earlier quote's retry was back by then, or its own
      read at the anchor meets the same failure. So the fallback is for the whole context
      and for good, and a quote already out when another falls back stays at the anchor. */
  lemma AnsweredAtLatestExactlyWhen(before: seq<Event>, q: nat, after: seq<Event>)
    requires q !in Run(Fresh, before).quotes
    ensures var started := Step(Run(Fresh, before), Start(q)); var end := Run(started, after);
      && q in started.quotes && q in end.quotes
      && (started.quotes[q] == Waiting(Latest) <==> EverLoosens(Fresh, before))
      && (end.quotes[q].Done? ==>
            (end.quotes[q].given.tag.Latest? <==> EverLoosens(Fresh, before) || EverMeetsItsFailure(started, after, q)))
  {
    LooseExactlyWhen(Fresh, before);
    ReadsLatestExactlyWhen(Step(Run(Fresh, before), Start(q)), after, q);
  }
}
