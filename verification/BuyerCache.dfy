/** Launch-window buying: measured once the window has closed, and then remembered,
    one row a token. */
module BuyerCache {
  import opened Common

  type Token = nat

  const WINDOW_BLOCKS := 10000

  datatype Distribution = Distribution(buyerCount: nat, totalBought: nat, topShare: Option<nat>,
                                       topThreeShare: Option<nat>)
  datatype Row = Row(token: Token, from: nat, to: nat, measuredAt: int, buyers: Distribution)

  function Closes(launch: nat): nat { launch + WINDOW_BLOCKS }

  predicate Covers(row: Row, launch: nat) { row.from == launch && row.to >= Closes(launch) }

  predicate Closed(launch: nat, head: int) { head >= Closes(launch) }

  /** No buyers is a row of its own shape, never a share of nothing. */
  function Stored(d: Distribution): Distribution {
    if d.buyerCount > 0 then
      d.(topShare := Some(if d.topShare.Some? then d.topShare.value else 0),
         topThreeShare := Some(if d.topThreeShare.Some? then d.topThreeShare.value else 0))
    else Distribution(0, 0, None, None)
  }

  /** The row a direct measurement of a closed window gives. `truth` is what the chain
      holds for it, which can no longer change. */
  function Direct(truth: (Token, nat) -> Distribution, token: Token, launch: nat, at: int): Row {
    Row(token, launch, Closes(launch), at, Stored(truth(token, launch)))
  }

  /** A row tells what the window's logs hold: no buyers as no shares, otherwise the shares,
      nought for one that was not worked out. */
  ghost predicate Tells(told: Distribution, holds: Distribution) {
    if holds.buyerCount == 0 then told == Distribution(0, 0, None, None)
    else
      && told.buyerCount == holds.buyerCount && told.totalBought == holds.totalBought
      && told.topShare == (if holds.topShare == None then Some(0) else holds.topShare)
      && told.topThreeShare == (if holds.topThreeShare == None then Some(0) else holds.topThreeShare)
  }

  datatype Write = Written | Lost | WrittenUnread

  /** One request and how the world treats it. */
  datatype Request = Request(token: Token, launch: nat, head: int, readable: bool, answers: bool, write: Write, at: int)

  // --- one request, as a function of the table ------------------------------------------

  predicate Hit(rows: map<Token, Row>, r: Request) { r.readable && r.token in rows && Covers(rows[r.token], r.launch) }

  predicate Calls(rows: map<Token, Row>, r: Request) { !Hit(rows, r) && Closed(r.launch, r.head) }

  predicate Lands(rows: map<Token, Row>, r: Request) { Calls(rows, r) && r.answers && !r.write.Lost? }

  function After(rows: map<Token, Row>, r: Request, truth: (Token, nat) -> Distribution): map<Token, Row> {
    if Lands(rows, r) then rows[r.token := Direct(truth, r.token, r.launch, r.at)] else rows
  }

  /** Every row is what a direct measurement of its own window gives, and was stored
      only when that window had closed. */
  ghost predicate Agrees(rows: map<Token, Row>, truth: (Token, nat) -> Distribution, heads: set<int>) {
    forall token :: token in rows ==>
      && rows[token] == Direct(truth, token, rows[token].from, rows[token].measuredAt)
      && exists h :: h in heads && Closed(rows[token].from, h)
  }

  class BuyerMeasurement {
    var rows: map<Token, Row>
    /** Log requests made so far. */
    var calls: nat
    ghost var heads: set<int>

    ghost predicate Valid(truth: (Token, nat) -> Distribution) reads this { Agrees(rows, truth, heads) }

    constructor ()
      ensures rows == map[] && calls == 0 && heads == {} && forall truth :: Valid(truth)
    {
      rows, calls, heads := map[], 0, {};
    }

    /** Nothing, or exactly the row of a direct measurement: from the table when it can
        be read and covers the window, else from the chain when the window is closed and
        the endpoint answers. A write that fails loses nothing but the memory of it. */
    method EnsureMeasured(r: Request, truth: (Token, nat) -> Distribution) returns (row: Option<Row>)
      requires Valid(truth)
      modifies this
      ensures Valid(truth) && heads == old(heads) + {r.head}
      // the row is of this very window, which some head asked about had closed, and tells what is in it
      ensures row.Some? ==>
        && row.value.token == r.token && row.value.from == r.launch && row.value.to == r.launch + 10000
        && Tells(row.value.buyers, truth(r.token, r.launch))
        && exists h :: h in heads && h >= r.launch + 10000
      // from the table when it can be read and holds the window; measured only when the window is closed
      ensures var held := r.readable && r.token in old(rows)
                && old(rows)[r.token].from == r.launch && old(rows)[r.token].to >= r.launch + 10000;
        var asked := !held && r.head >= r.launch + 10000;
        && (row == None <==> !held && !(asked && r.answers))
        && (held ==> row == Some(old(rows)[r.token]))
        && (row.Some? && !held ==> row.value.measuredAt == r.at)
        && calls == old(calls) + (if asked then 1 else 0)
        && rows == if asked && r.answers && !r.write.Lost? then old(rows)[r.token := row.value] else old(rows)
      ensures rows == After(old(rows), r, truth) && calls == old(calls) + if Calls(old(rows), r) then 1 else 0
    {
      heads := heads + {r.head};
      var cached := if r.readable && r.token in rows then Some(rows[r.token]) else None;
      if cached.Some? && Covers(cached.value, r.launch) { return cached; }
      if r.head < r.launch + WINDOW_BLOCKS { return None; }
      calls := calls + 1;
      if !r.answers { return None; }
      var d := truth(r.token, r.launch);
      var measured := Row(r.token, r.launch, r.launch + WINDOW_BLOCKS, r.at,
                          if d.buyerCount > 0
                          then Distribution(d.buyerCount, d.totalBought,
                                            Some(if d.topShare.Some? then d.topShare.value else 0),
                                            Some(if d.topThreeShare.Some? then d.topThreeShare.value else 0))
                          else Distribution(0, 0, None, None));
      if !r.write.Lost? { rows := rows[r.token := measured]; }
      row := Some(measured);
    }
  }

  // --- any number of requests -----------------------------------------------------------------

  function AfterAll(rows: map<Token, Row>, rs: seq<Request>, truth: (Token, nat) -> Distribution): map<Token, Row> {
    if rs == [] then rows else After(AfterAll(rows, rs[..|rs| - 1], truth), rs[|rs| - 1], truth)
  }

  predicate Holds(rows: map<Token, Row>, token: Token, launch: nat) { token in rows && Covers(rows[token], launch) }

  /** The one thing that makes the table forget a window: another window of the same
      token measured and written over it. */
  predicate Evicts(rows: map<Token, Row>, r: Request, token: Token, launch: nat) {
    r.token == token && r.launch != launch && Lands(rows, r)
  }

  lemma RememberedUnlessEvicted(rows: map<Token, Row>, r: Request, truth: (Token, nat) -> Distribution, token: Token,
                                launch: nat)
    requires Holds(rows, token, launch)
    ensures Holds(After(rows, r, truth), token, launch) <==> !Evicts(rows, r, token, launch)
  {
  }

  ghost predicate NeverEvicted(rows: map<Token, Row>, rs: seq<Request>, truth: (Token, nat) -> Distribution,
                               token: Token, launch: nat)
  {
    rs == [] || (NeverEvicted(rows, rs[..|rs| - 1], truth, token, launch)
                 && !Evicts(AfterAll(rows, rs[..|rs| - 1], truth), rs[|rs| - 1], token, launch))
  }

  ghost predicate HeldThroughout(rows: map<Token, Row>, rs: seq<Request>, truth: (Token, nat) -> Distribution,
                                 token: Token, launch: nat)
  {
    Holds(AfterAll(rows, rs, truth), token, launch)
      && (rs == [] || HeldThroughout(rows, rs[..|rs| - 1], truth, token, launch))
  }

  /** A window once written stays in the table through any run of requests exactly when
      no other window of its token is written meanwhile... */
  lemma {:induction false} HeldThroughoutExactlyWhen(rows: map<Token, Row>, rs: seq<Request>,
                                                     truth: (Token, nat) -> Distribution, token: Token, launch: nat)
    requires Holds(rows, token, launch)
    ensures HeldThroughout(rows, rs, truth, token, launch) <==> NeverEvicted(rows, rs, truth, token, launch)
  {
    if rs != [] {
      var before := AfterAll(rows, rs[..|rs| - 1], truth);
      HeldThroughoutExactlyWhen(rows, rs[..|rs| - 1], truth, token, launch);
      if Holds(before, token, launch) { RememberedUnlessEvicted(before, rs[|rs| - 1], truth, token, launch); }
    }
  }

  lemma {:induction false} HeldAt(rows: map<Token, Row>, rs: seq<Request>, truth: (Token, nat) -> Distribution,
                                  token: Token, launch: nat, i: nat)
    requires HeldThroughout(rows, rs, truth, token, launch) && i <= |rs|
    ensures Holds(AfterAll(rows, rs[..i], truth), token, launch)
  {
    if i == |rs| {
      assert rs[..i] == rs;
    } else {
      HeldAt(rows, rs[..|rs| - 1], truth, token, launch, i);
      assert rs[..|rs| - 1][..i] == rs[..i];
    }
  }

  /** ...and while it does, no request for it whose read succeeds asks for logs again. */
  lemma NoFurtherLogCall(rows: map<Token, Row>, rs: seq<Request>, truth: (Token, nat) -> Distribution, token: Token,
                         launch: nat, i: nat)
    requires Holds(rows, token, launch) && NeverEvicted(rows, rs, truth, token, launch)
    requires i < |rs| && rs[i].token == token && rs[i].launch == launch && rs[i].readable
    ensures !Calls(AfterAll(rows, rs[..i], truth), rs[i])
  {
    HeldThroughoutExactlyWhen(rows, rs, truth, token, launch);
    HeldAt(rows, rs, truth, token, launch, i);
  }

  /** Two launches of one token in turn ask for logs every time, however well the table
      works. */
  lemma TwoWindowsOfOneTokenNeverRest(rows: map<Token, Row>, truth: (Token, nat) -> Distribution, token: Token, a: nat,
                                      b: nat, head: int)
    requires a != b && Closed(a, head) && Closed(b, head) && Holds(rows, token, a)
    ensures var askB := Request(token, b, head, true, true, Written, 0);
      var askA := Request(token, a, head, true, true, Written, 0);
      && Calls(rows, askB) && Calls(After(rows, askB, truth), askA)
      && Holds(After(After(rows, askB, truth), askA, truth), token, a)
  {
  }
}
