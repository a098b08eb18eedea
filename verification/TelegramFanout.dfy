/** Telegram as a place a notice is delivered: from wallets to the chats they are
    connected to, one message a chat, one retry when the bot is told to wait. */
module TelegramFanout {
  import opened Common
  import opened PushGroups

  type Chat = nat

  /** `gone` is a chat that blocked the bot or no longer exists; `transient` a refusal
      that waiting may get past. */
  datatype Reply = Taken | Error(gone: bool, transient: bool, badRequest: bool)
  datatype Fate = Reached | Unlinked | Refused | Stops
  datatype Try = Try(chat: Chat, reply: Reply)

  /** `sendMessage` by chat and try number, and whether disconnecting a chat works. */
  datatype Bot = Bot(send: (Chat, nat) -> Reply, unlinks: Chat -> bool)

  datatype Result = Result(sent: seq<Wallet>, notSaved: nat, disabled: nat, other: nat)

  function Tries(bot: Bot, chat: Chat): (r: seq<Try>)
    ensures 1 <= |r| <= 2 && forall i :: 0 <= i < |r| ==> r[i].chat == chat
    ensures |r| == 2 ==> !r[0].reply.Taken?
  {
    var first := bot.send(chat, 0);
    [Try(chat, first)] + if first.Error? && first.transient then [Try(chat, bot.send(chat, 1))] else []
  }

  function LastReply(bot: Bot, chat: Chat): Reply { var r := Tries(bot, chat); r[|r| - 1].reply }

  /** What one chat's message comes to: a chat that is gone counts before anything else. */
  function FateOf(bot: Bot, chat: Chat): Fate {
    var reply := LastReply(bot, chat);
    if reply.Taken? then Reached
    else if reply.gone then (if bot.unlinks(chat) then Unlinked else Stops)
    else if reply.badRequest then Refused
    else Stops
  }

  /** One try; a second exactly after a refusal that waiting may get past. */
  lemma TriesMeaning(bot: Bot, chat: Chat)
    ensures Tries(bot, chat)[0] == Try(chat, bot.send(chat, 0))
    ensures |Tries(bot, chat)| == 2 <==> bot.send(chat, 0).Error? && bot.send(chat, 0).transient
    ensures |Tries(bot, chat)| == 2 ==> Tries(bot, chat)[1] == Try(chat, bot.send(chat, 1))
    ensures LastReply(bot, chat) ==
      if bot.send(chat, 0).Error? && bot.send(chat, 0).transient then bot.send(chat, 1) else bot.send(chat, 0)
  {
  }

  /** By the reply that counts: taken; gone and disconnected; refused for what it says; or
      a reason to stop, a chat that is gone and cannot be disconnected among them. */
  lemma FateMeaning(bot: Bot, chat: Chat)
    ensures var reply := LastReply(bot, chat);
      && (FateOf(bot, chat) == Reached <==> reply == Taken)
      && (FateOf(bot, chat) == Unlinked <==> reply != Taken && reply.gone && bot.unlinks(chat))
      && (FateOf(bot, chat) == Refused <==> reply != Taken && !reply.gone && reply.badRequest)
      && (FateOf(bot, chat) == Stops <==>
            reply != Taken && if reply.gone then !bot.unlinks(chat) else !reply.badRequest)
  {
  }

  function ChatsOf(links: map<Wallet, seq<Chat>>, w: Wallet): seq<Chat> { if w in links then links[w] else [] }

  ghost predicate Hears(links: map<Wallet, seq<Chat>>, bot: Bot, w: Wallet) {
    exists chat :: chat in ChatsOf(links, w) && FateOf(bot, chat) == Reached
  }

  /** The wallets of a notice that some chat of theirs was reached for, in order. */
  ghost function Hearing(links: map<Wallet, seq<Chat>>, bot: Bot, wallets: seq<Wallet>): seq<Wallet> {
    if wallets == [] then []
    else
      Hearing(links, bot, wallets[..|wallets| - 1])
      + if Hears(links, bot, wallets[|wallets| - 1]) then [wallets[|wallets| - 1]] else []
  }

  ghost function Unconnected(links: map<Wallet, seq<Chat>>, wallets: seq<Wallet>): nat {
    if wallets == [] then 0
    else Unconnected(links, wallets[..|wallets| - 1]) + if ChatsOf(links, wallets[|wallets| - 1]) == [] then 1 else 0
  }

  lemma {:induction false} UnconnectedAre(links: map<Wallet, seq<Chat>>, wallets: seq<Wallet>, lonely: set<Wallet>)
    requires Distinct(wallets)
    requires forall w :: w in lonely <==> w in wallets && (w !in links || links[w] == [])
    ensures Unconnected(links, wallets) == |lonely|
  {
    if wallets == [] {
      assert lonely == {};
    } else {
      var front, last := wallets[..|wallets| - 1], wallets[|wallets| - 1];
      assert forall w :: w in wallets <==> w in front || w == last;
      assert last !in front;
      UnconnectedAre(links, front, lonely - {last});
    }
  }

  ghost function Met(bot: Bot, chats: seq<Chat>, fate: Fate): nat {
    if chats == [] then 0
    else
      Met(bot, chats[..|chats| - 1], fate)
      + if FateOf(bot, chats[|chats| - 1]) == fate then 1 else 0
  }

  ghost function AllTries(bot: Bot, chats: seq<Chat>): seq<Try> {
    if chats == [] then [] else AllTries(bot, chats[..|chats| - 1]) + Tries(bot, chats[|chats| - 1])
  }

  // --- the map from chats to wallets, in insertion order ---------------------------------

  /** Some wallet of the notice is connected to the chat. */
  ghost predicate Written(links: map<Wallet, seq<Chat>>, wallets: seq<Wallet>, chat: Chat) {
    exists w :: w in wallets && chat in ChatsOf(links, w)
  }

  function Under(walletsOf: map<Chat, seq<Wallet>>, chat: Chat): seq<Wallet> {
    if chat in walletsOf then walletsOf[chat] else []
  }

  ghost predicate Ordered(order: seq<Chat>, walletsOf: map<Chat, seq<Wallet>>) {
    && Distinct(order) && (forall chat :: chat in order <==> chat in walletsOf)
    && (forall chat :: chat in walletsOf ==> walletsOf[chat] != [])
  }

  /** Under each chat stand the wallets of the notice that are connected to it. */
  ghost predicate Indexed(links: map<Wallet, seq<Chat>>, wallets: seq<Wallet>, order: seq<Chat>,
                          walletsOf: map<Chat, seq<Wallet>>)
  {
    && Ordered(order, walletsOf)
    && (forall chat, w :: w in Under(walletsOf, chat) <==> w in wallets && chat in ChatsOf(links, w))
  }

  lemma IndexedOrder(links: map<Wallet, seq<Chat>>, wallets: seq<Wallet>, order: seq<Chat>,
                     walletsOf: map<Chat, seq<Wallet>>)
    requires Indexed(links, wallets, order, walletsOf)
    ensures forall chat :: chat in order <==> Written(links, wallets, chat)
  {
    forall chat ensures chat in order <==> Written(links, wallets, chat) {
      if chat in order {
        var w := Under(walletsOf, chat)[0];
        assert w in Under(walletsOf, chat);
        assert w in wallets && chat in ChatsOf(links, w);
      }
      if w :| w in wallets && chat in ChatsOf(links, w) { assert w in Under(walletsOf, chat); }
    }
  }

  /** `b` is `a` with one more wallet connected to these chats. */
  ghost predicate Connected(a: map<Chat, seq<Wallet>>, b: map<Chat, seq<Wallet>>, w: Wallet, chats: seq<Chat>) {
    forall chat, x :: x in Under(b, chat) <==> x in Under(a, chat) || (x == w && chat in chats)
  }

  lemma ConnectedNext(a: map<Chat, seq<Wallet>>, b: map<Chat, seq<Wallet>>, w: Wallet, chats: seq<Chat>, i: nat)
    requires i < |chats| && Connected(a, b, w, chats[..i])
    ensures Connected(a, b[chats[i] := Under(b, chats[i]) + [w]], w, chats[..i + 1])
  {
    var next := b[chats[i] := Under(b, chats[i]) + [w]];
    forall chat, x ensures x in Under(next, chat) <==> x in Under(a, chat) || (x == w && chat in chats[..i + 1]) {
      assert chats[..i + 1] == chats[..i] + [chats[i]];
      assert x in Under(b, chat) <==> x in Under(a, chat) || (x == w && chat in chats[..i]);
    }
  }

  method AddChats(w: Wallet, chats: seq<Chat>, order: seq<Chat>, walletsOf: map<Chat, seq<Wallet>>)
    returns (order': seq<Chat>, walletsOf': map<Chat, seq<Wallet>>)
    requires Ordered(order, walletsOf)
    ensures Ordered(order', walletsOf')
    ensures Connected(walletsOf, walletsOf', w, chats)
  {
    order', walletsOf' := order, walletsOf;
    for i := 0 to |chats|
      invariant Ordered(order', walletsOf')
      invariant Connected(walletsOf, walletsOf', w, chats[..i])
    {
      var chat := chats[i];
      ConnectedNext(walletsOf, walletsOf', w, chats, i);
      if chat !in walletsOf' { order' := order' + [chat]; }
      walletsOf' := walletsOf'[chat := Under(walletsOf', chat) + [w]];
    }
    assert chats[..|chats|] == chats;
  }

  lemma IndexedNext(links: map<Wallet, seq<Chat>>, wallets: seq<Wallet>, n: nat, order: seq<Chat>,
                    walletsOf: map<Chat, seq<Wallet>>, order': seq<Chat>, walletsOf': map<Chat, seq<Wallet>>)
    requires n < |wallets| && Indexed(links, wallets[..n], order, walletsOf)
    requires Ordered(order', walletsOf') && Connected(walletsOf, walletsOf', wallets[n], ChatsOf(links, wallets[n]))
    ensures Indexed(links, wallets[..n + 1], order', walletsOf')
  {
    forall chat, w ensures w in Under(walletsOf', chat) <==> w in wallets[..n + 1] && chat in ChatsOf(links, w) {
      assert wallets[..n + 1] == wallets[..n] + [wallets[n]];
      assert w in Under(walletsOf, chat) <==> w in wallets[..n] && chat in ChatsOf(links, w);
    }
  }

  method IndexChats(links: map<Wallet, seq<Chat>>, wallets: seq<Wallet>)
    returns (order: seq<Chat>, walletsOf: map<Chat, seq<Wallet>>, notSaved: nat)
    ensures Indexed(links, wallets, order, walletsOf) && notSaved == Unconnected(links, wallets)
  {
    order, walletsOf, notSaved := [], map[], 0;
    for n := 0 to |wallets|
      invariant Indexed(links, wallets[..n], order, walletsOf) && notSaved == Unconnected(links, wallets[..n])
    {
      var w := wallets[n];
      assert wallets[..n + 1][..n] == wallets[..n] && wallets[..n + 1][n] == w;
      var chats := ChatsOf(links, w);
      if chats == [] { notSaved := notSaved + 1; }
      var more, moreOf := AddChats(w, chats, order, walletsOf);
      IndexedNext(links, wallets, n, order, walletsOf, more, moreOf);
      order, walletsOf := more, moreOf;
    }
    assert wallets[..|wallets|] == wallets;
  }

  method Delivered(wallets: seq<Wallet>, delivered: set<Wallet>, ghost links: map<Wallet, seq<Chat>>, ghost bot: Bot)
    returns (sent: seq<Wallet>)
    requires forall w :: w in wallets ==> (w in delivered <==> Hears(links, bot, w))
    ensures sent == Hearing(links, bot, wallets)
  {
    sent := [];
    for n := 0 to |wallets|
      invariant sent == Hearing(links, bot, wallets[..n])
    {
      assert wallets[..n + 1][..n] == wallets[..n] && wallets[..n + 1][n] == wallets[n];
      if wallets[n] in delivered { sent := sent + [wallets[n]]; }
    }
    assert wallets[..|wallets|] == wallets;
  }

  /** The bot's side of the conversation: every message handed to it, in order. */
  class BotClient {
    const answers: Bot
    var log: seq<Try>

    constructor (answersNow: Bot)
      ensures answers == answersNow && log == []
    {
      answers, log := answersNow, [];
    }

    method SendMessage(chat: Chat, attempt: nat) returns (reply: Reply)
      modifies this
      ensures reply == answers.send(chat, attempt) && log == old(log) + [Try(chat, reply)]
    {
      reply := answers.send(chat, attempt);
      log := log + [Try(chat, reply)];
    }

    /** Waits out one transient refusal, once. */
    method Deliver(chat: Chat) returns (reply: Reply)
      modifies this
      ensures reply == LastReply(answers, chat) && log == old(log) + Tries(answers, chat)
    {
      reply := SendMessage(chat, 0);
      if reply.Error? && reply.transient {
        reply := SendMessage(chat, 1);
      }
    }
  }

  class TelegramClient {
    /** The chats each wallet is connected to. */
    var links: map<Wallet, seq<Chat>>

    constructor (connected: map<Wallet, seq<Chat>>)
      ensures links == connected
    {
      links := connected;
    }

    method UnlinkChat(chat: Chat)
      modifies this
      ensures links.Keys == old(links.Keys)
      ensures forall w :: w in links ==> forall c :: c in links[w] <==> c in old(links)[w] && c != chat
    {
      links := map w | w in links :: Without(links[w], chat);
    }

    /** One message to one chat, tried again once; a chat that is gone is disconnected. */
    method WriteTo(bot: BotClient, chat: Chat, ghost before: map<Wallet, seq<Chat>>, ghost tried: seq<Chat>)
      returns (fate: Fate)
      requires LinksAfter(before, links, bot.answers, tried)
      modifies this, bot
      ensures fate == FateOf(bot.answers, chat) && LinksAfter(before, links, bot.answers, tried + [chat])
      ensures bot.log == old(bot.log) + Tries(bot.answers, chat)
    {
      var reply := bot.Deliver(chat);
      assert forall c :: c in tried + [chat] <==> c in tried || c == chat;
      if reply.Taken? { return Reached; }
      if reply.gone {
        if !bot.answers.unlinks(chat) { return Stops; }
        UnlinkChat(chat);
        return Unlinked;
      }
      fate := if reply.badRequest then Refused else Stops;
    }

    /** Chat after chat, until one has to stop the pass. */
    method FanOut(bot: BotClient, chats: seq<Chat>, walletsOf: map<Chat, seq<Wallet>>)
      returns (finished: bool, delivered: set<Wallet>, disabled: nat, other: nat, ghost tried: nat)
      requires forall chat :: chat in chats ==> chat in walletsOf
      modifies this, bot
      ensures tried <= |chats| && LinksAfter(old(links), links, bot.answers, chats[..tried])
      ensures bot.log == old(bot.log) + AllTries(bot.answers, chats[..tried])
      ensures finished ==> tried == |chats| && forall i :: 0 <= i < |chats| ==> FateOf(bot.answers, chats[i]) != Stops
      ensures !finished ==> tried > 0 && FateOf(bot.answers, chats[tried - 1]) == Stops
      ensures finished ==> forall w :: w in delivered <==> ToldBy(bot.answers, chats, walletsOf, w)
      ensures finished ==> disabled == Met(bot.answers, chats, Unlinked) && other == Met(bot.answers, chats, Refused)
    {
      finished, delivered, disabled, other, tried := false, {}, 0, 0, 0;
      ghost var before := bot.log;
      for n := 0 to |chats|
        invariant tried == n && LinksAfter(old(links), links, bot.answers, chats[..n])
        invariant bot.log == before + AllTries(bot.answers, chats[..n])
        invariant forall i :: 0 <= i < n ==> FateOf(bot.answers, chats[i]) != Stops
        invariant forall w :: w in delivered <==> ToldBy(bot.answers, chats[..n], walletsOf, w)
        invariant disabled == Met(bot.answers, chats[..n], Unlinked) && other == Met(bot.answers, chats[..n], Refused)
      {
        var chat := chats[n];
        assert chats[..n + 1] == chats[..n] + [chat];
        ToldNext(bot.answers, chats, n, walletsOf);
        tried := n + 1;
        var fate := WriteTo(bot, chat, old(links), chats[..n]);
        assert bot.log == before + AllTries(bot.answers, chats[..n + 1]);
        match fate
        case Reached => delivered := delivered + set w | w in walletsOf[chat];
        case Unlinked => disabled := disabled + 1;
        case Refused => other := other + 1;
        case Stops => return;
      }
      assert chats[..|chats|] == chats;
      finished := true;
    }

    /** Writes to every chat of these wallets once. It returns normally exactly when no
        chat's message has to stop the pass; then a wallet was told if and only if one
        of its chats took the message, and every chat was reached, disconnected or
        refused. What was written is one message a chat, tried again at most once. */
    method Send(bot: BotClient, wallets: seq<Wallet>)
      returns (result: Option<Result>, ghost order: seq<Chat>, ghost tried: nat)
      modifies this, bot
      ensures Distinct(order) && forall chat :: chat in order <==> Written(old(links), wallets, chat)
      ensures tried <= |order| && LinksAfter(old(links), links, bot.answers, order[..tried])
      ensures bot.log == old(bot.log) + AllTries(bot.answers, order[..tried])
      ensures result.Some? <==> forall i :: 0 <= i < |order| ==> FateOf(bot.answers, order[i]) != Stops
      ensures result == None ==> tried > 0 && FateOf(bot.answers, order[tried - 1]) == Stops
      ensures result.Some? ==>
        && tried == |order|
        && result.value.sent == Hearing(old(links), bot.answers, wallets)
        && result.value.notSaved == Unconnected(old(links), wallets)
        && result.value.disabled == Met(bot.answers, order, Unlinked)
             && result.value.other == Met(bot.answers, order, Refused)
        && Met(bot.answers, order, Reached) + result.value.disabled + result.value.other == |order|
    {
      var chats, walletsOf, notSaved := IndexChats(links, wallets);
      order := chats;
      IndexedOrder(links, wallets, chats, walletsOf);
      var finished, delivered, disabled, other;
      finished, delivered, disabled, other, tried := FanOut(bot, chats, walletsOf);
      if !finished { return None, order, tried; }
      NothingStops(bot.answers, order);
      DeliveredHear(old(links), bot.answers, wallets, chats, walletsOf, delivered);
      var sent := Delivered(wallets, delivered, old(links), bot.answers);
      result := Some(Result(sent, notSaved, disabled, other));
    }
  }

  /** Only the chats found gone among those written to are no longer connected. */
  ghost predicate LinksAfter(before: map<Wallet, seq<Chat>>, after: map<Wallet, seq<Chat>>, bot: Bot,
                             tried: seq<Chat>)
  {
    && after.Keys == before.Keys
    && forall w, c :: w in after ==> (c in after[w] <==> c in before[w] && !(c in tried && FateOf(bot, c) == Unlinked))
  }

  ghost predicate ToldBy(bot: Bot, chats: seq<Chat>, walletsOf: map<Chat, seq<Wallet>>, w: Wallet) {
    exists i :: 0 <= i < |chats| && FateOf(bot, chats[i]) == Reached && w in Under(walletsOf, chats[i])
  }

  lemma ToldNext(bot: Bot, chats: seq<Chat>, n: nat, walletsOf: map<Chat, seq<Wallet>>)
    requires n < |chats|
    ensures forall w :: ToldBy(bot, chats[..n + 1], walletsOf, w) <==>
              ToldBy(bot, chats[..n], walletsOf, w)
                || (FateOf(bot, chats[n]) == Reached && w in Under(walletsOf, chats[n]))
    ensures AllTries(bot, chats[..n + 1]) == AllTries(bot, chats[..n]) + Tries(bot, chats[n])
    ensures forall fate ::
              Met(bot, chats[..n + 1], fate)
              == Met(bot, chats[..n], fate) + if FateOf(bot, chats[n]) == fate then 1 else 0
  {
    var a, b := chats[..n], chats[..n + 1];
    assert b[..n] == a && b[n] == chats[n];
    forall w ensures ToldBy(bot, b, walletsOf, w) <==>
        ToldBy(bot, a, walletsOf, w) || (FateOf(bot, chats[n]) == Reached && w in Under(walletsOf, chats[n]))
    {
      if ToldBy(bot, a, walletsOf, w) {
        var i :| 0 <= i < |a| && FateOf(bot, a[i]) == Reached && w in Under(walletsOf, a[i]);
        assert b[i] == a[i];
      }
    }
  }

  function Without(chats: seq<Chat>, chat: Chat): (r: seq<Chat>)
    ensures forall c :: c in r <==> c in chats && c != chat
  {
    if chats == [] then []
    else
      assert forall c :: c in chats <==> c == chats[0] || c in chats[1..];
      (if chats[0] == chat then [] else [chats[0]]) + Without(chats[1..], chat)
  }

  lemma DeliveredHear(links: map<Wallet, seq<Chat>>, bot: Bot, wallets: seq<Wallet>, order: seq<Chat>,
                      walletsOf: map<Chat, seq<Wallet>>, delivered: set<Wallet>)
    requires Indexed(links, wallets, order, walletsOf)
    requires forall w :: w in delivered <==> ToldBy(bot, order, walletsOf, w)
    ensures forall w :: w in wallets ==> (w in delivered <==> Hears(links, bot, w))
  {
    forall w | w in wallets ensures w in delivered <==> Hears(links, bot, w) {
      if w in delivered {
        var i :| 0 <= i < |order| && FateOf(bot, order[i]) == Reached && w in Under(walletsOf, order[i]);
        assert order[i] in ChatsOf(links, w);
      }
      if Hears(links, bot, w) {
        var chat :| chat in ChatsOf(links, w) && FateOf(bot, chat) == Reached;
        assert w in Under(walletsOf, chat);
        var i :| 0 <= i < |order| && order[i] == chat;
        assert FateOf(bot, order[i]) == Reached;
      }
    }
  }

  // --- what the counters add up to -----------------------------------------------------------

  /** Every distinct chat is reached, disconnected, refused, or stops the pass. */
  lemma {:induction false} ChatsAreConserved(bot: Bot, chats: seq<Chat>)
    ensures Met(bot, chats, Reached) + Met(bot, chats, Unlinked) + Met(bot, chats, Refused)
      + Met(bot, chats, Stops) == |chats|
  {
    if chats != [] { ChatsAreConserved(bot, chats[..|chats| - 1]); }
  }

  /** When no chat stops the pass, the other three fates are all of them. */
  lemma {:induction false} NothingStops(bot: Bot, chats: seq<Chat>)
    requires forall i :: 0 <= i < |chats| ==> FateOf(bot, chats[i]) != Stops
    ensures Met(bot, chats, Reached) + Met(bot, chats, Unlinked) + Met(bot, chats, Refused) == |chats|
  {
    if chats != [] { NothingStops(bot, chats[..|chats| - 1]); }
  }

  ghost function TriesOf(log: seq<Try>, chat: Chat): nat {
    if log == [] then 0 else TriesOf(log[..|log| - 1], chat) + if log[|log| - 1].chat == chat then 1 else 0
  }

  ghost function TakenBy(log: seq<Try>, chat: Chat): nat {
    if log == [] then 0
    else
      TakenBy(log[..|log| - 1], chat)
      + if log[|log| - 1].chat == chat && log[|log| - 1].reply.Taken? then 1 else 0
  }

  lemma {:induction false} TriesAppend(a: seq<Try>, b: seq<Try>, chat: Chat)
    ensures TriesOf(a + b, chat) == TriesOf(a, chat) + TriesOf(b, chat)
    ensures TakenBy(a + b, chat) == TakenBy(a, chat) + TakenBy(b, chat)
  {
    if b == [] {
      assert a + b == a;
    } else {
      TriesAppend(a, b[..|b| - 1], chat);
      assert (a + b)[..|a + b| - 1] == a + b[..|b| - 1];
    }
  }

  lemma OneChatsTries(bot: Bot, chat: Chat, c: Chat)
    ensures TriesOf(Tries(bot, chat), c) == if c == chat then |Tries(bot, chat)| else 0
    ensures TakenBy(Tries(bot, chat), c) == if c == chat && LastReply(bot, chat).Taken? then 1 else 0
  {
    var t := Tries(bot, chat);
    assert t[..1][..0] == [] && t[..1][0] == t[0];
    assert TriesOf(t[..1], c) == if c == chat then 1 else 0;
    assert TakenBy(t[..1], c) == if c == chat && t[0].reply.Taken? then 1 else 0;
    if |t| == 1 { assert t[..1] == t; } else { assert t[..|t| - 1] == t[..1]; }
  }

  /** A chat is written to at most twice for one notice and takes at most one message;
      a chat outside the list is not written to. */
  lemma {:induction false} OneMessageAChat(bot: Bot, chats: seq<Chat>, c: Chat)
    requires Distinct(chats)
    ensures c in chats ==>
      TriesOf(AllTries(bot, chats), c) == |Tries(bot, c)|
        && TakenBy(AllTries(bot, chats), c) == if LastReply(bot, c).Taken? then 1 else 0
    ensures c !in chats ==> TriesOf(AllTries(bot, chats), c) == 0 && TakenBy(AllTries(bot, chats), c) == 0
  {
    if chats != [] {
      var front, last := chats[..|chats| - 1], chats[|chats| - 1];
      OneMessageAChat(bot, front, c);
      TriesAppend(AllTries(bot, front), Tries(bot, last), c);
      OneChatsTries(bot, last, c);
      assert c in chats <==> c in front || c == last;
      assert last !in front;
    }
  }

  /** What the fan-out reports as sent is an answer the planner's books may rely on:
      wallets of the notice only, none twice. */
  lemma {:induction false} HearingIsASelection(links: map<Wallet, seq<Chat>>, bot: Bot, wallets: seq<Wallet>)
    ensures forall w :: w in Hearing(links, bot, wallets) <==> w in wallets && Hears(links, bot, w)
    ensures Distinct(wallets) ==> Distinct(Hearing(links, bot, wallets))
  {
    if wallets != [] {
      var front, last := wallets[..|wallets| - 1], wallets[|wallets| - 1];
      HearingIsASelection(links, bot, front);
      assert forall w :: w in wallets <==> w in front || w == last;
    }
  }
}
