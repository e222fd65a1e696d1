/** `ServiceCheckSubscription`: the deep link to the channel, the
    classification of the channel bot's `getChatMember` answer, and the
    callback of the "I subscribed" button, which marks a user subscribed and
    sends the bonus offer, or asks to subscribe first. */
module Subscription {
  import opened Common
  import opened Telegram
  import opened Store
  import opened Texts
  import CallbackQueryService

  // ---------------------------------------------------------------------
  // Deep link

  /** The part of the deep link before the user's id. */
  function LinkLead(channel: string): string
  {
    "https://t.me/" + channel + "?start="
  }

  /** `generateDeepLink`: the channel's link whose `start` parameter is the
      user's id; the parameter reads back as exactly that id. */
  function DeepLink(channel: string, id: Int64): (link: string)
    ensures StartsWith(link, LinkLead(channel))
    ensures CanonicalInt(link[|LinkLead(channel)|..]) == Some(id)
  {
    var link := LinkLead(channel) + IntToString(id);
    assert link[..|LinkLead(channel)|] == LinkLead(channel);
    assert link[|LinkLead(channel)|..] == IntToString(id);
    CanonicalIntOfIntToString(id);
    link
  }

  /** Two users of one channel never share a deep link. */
  lemma DeepLinkInjective(channel: string, i: Int64, j: Int64)
    requires DeepLink(channel, i) == DeepLink(channel, j)
    ensures i == j
  {
    assert CanonicalInt(DeepLink(channel, i)[|LinkLead(channel)|..]) == Some(i);
  }

  // ---------------------------------------------------------------------
  // Membership

  /** What `Http::get` of the channel bot's `getChatMember` gives: an
      exception, or a response with its success and its decoded JSON body
      (`null` when the body is not JSON). */
  datatype MemberAnswer = Unreachable | Answered(successful: bool, body: Json)

  /** `in_array($status, ['member', 'administrator', 'creator'])`, loosely
      compared. */
  predicate MemberStatus(status: Json)
  {
    assert !IsDigit("member"[0]) && !IsDigit("administrator"[0]) && !IsDigit("creator"[0]);
    LooseEqualsWord(status, "member") || LooseEqualsWord(status, "administrator") ||
    LooseEqualsWord(status, "creator")
  }

  /** `checkUserSubscription`: a member only when the response is
      successful, its `ok` is truthy and its `result.status` is one of the
      member statuses. A missing key or a body that is not an object raises
      an `ErrorException` inside the `try`, which turns it into `false`, as
      does a failed request. */
  function IsMember(a: MemberAnswer): (b: bool)
    ensures b ==>
      a.Answered? && a.successful && a.body.JObj? &&
      "ok" in a.body.fields && Truthy(a.body.fields["ok"])
  {
    match a
    case Unreachable => false
    case Answered(successful, body) =>
      if !successful then false
      else
        match body
        case JObj(data) =>
          if "ok" !in data || !Truthy(data["ok"]) || "result" !in data then false
          else (
            match data["result"]
            case JObj(result) => "status" in result && MemberStatus(result["status"])
            case _ => false)
        case _ => false
  }

  /** A successful answer with a truthy `ok` and a string `result.status`
      is a membership exactly for the three member statuses: `left`,
      `kicked`, `restricted` and anything else are not, whatever other
      fields the answer and its `result` carry. */
  lemma MembershipByStatus(data: map<string, Json>, result: map<string, Json>, status: string)
    requires "ok" in data && Truthy(data["ok"])
    requires "result" in data && data["result"] == JObj(result)
    requires "status" in result && result["status"] == JStr(status)
    ensures IsMember(Answered(true, JObj(data))) <==> status == "member" || status == "administrator" || status == "creator"
  {
  }

  /** A failed request, an unsuccessful response and an answer with a falsy
      `ok` never confirm a membership, whatever the status says. */
  lemma NoMembershipWithoutOk(a: MemberAnswer)
    requires a.Unreachable? || !a.successful || (a.body.JObj? && "ok" in a.body.fields && !Truthy(a.body.fields["ok"]))
    ensures !IsMember(a)
  {
  }

  // ---------------------------------------------------------------------
  // The subscription button

  const Prefix := "subscribed_"
  const ButtonText := "Попробовать и перейти"

  /** The user the button names: `str_replace('subscribed_', '', $data)`,
      matched against `telegram_id` when it is the decimal spelling of an
      id. */
  function Target(data: string): Option<Int64>
  {
    CanonicalInt(RemoveAll(data, Prefix))
  }

  /** The data names a user only when, once every `subscribed_` is removed,
      what is left is exactly that user's id. */
  lemma TargetSpellsId(data: string)
    ensures Target(data).Some? ==> IntToString(Target(data).value) == RemoveAll(data, Prefix)
  {
  }

  /** The data `subscribed_{id}` names the user `id`. */
  lemma TargetOfButton(id: Int64)
    ensures Target(Prefix + IntToString(id)) == Some(id)
  {
    var s := IntToString(id);
    assert (Prefix + s)[..|Prefix|] == Prefix;
    assert (Prefix + s)[|Prefix|..] == s;
    assert Prefix[0] !in s;
    RemoveAllAbsent(s, Prefix);
    CanonicalIntOfIntToString(id);
  }

  /** The deep link's `start` parameter, put after the prefix, names the
      user the link was made for. */
  lemma DeepLinkNamesTarget(channel: string, id: Int64)
    ensures Target(Prefix + DeepLink(channel, id)[|LinkLead(channel)|..]) == Some(id)
  {
    var link := LinkLead(channel) + IntToString(id);
    assert link[|LinkLead(channel)|..] == IntToString(id);
    TargetOfButton(id);
  }

  /** The bonus offer, sent to the presser's chat with one button opening
      the redirect URL. */
  function BonusMessage(w: Wording, presser: Int64, url: string): Action
  {
    SendMessage(presser, w.bonus, Some([[UrlButton(ButtonText, url)]]))
  }

  /** `handleSubscriptionCallback` for the presser `presser`, the channel
      bot's answer about the presser, and the redirect URL, absent when
      `route()` cannot build it. Data without the prefix and an unknown
      user are ignored. A member gets the flag and the bonus offer, inside a
      `try` that swallows a missing route and Telegram errors; anyone else
      gets the prompt to subscribe, whose Telegram errors escape. */
  function HandleSpec(t: Tables, env: Env, presser: Int64, data: string, answer: MemberAnswer, url: Option<string>, w: Wording): Step<()>
  {
    if !StartsWith(data, Prefix) then Step(t, Ok(()))
    else
      match Target(data)
      case None => Step(t, Ok(()))
      case Some(id) =>
        if id !in t.users then Step(t, Ok(()))
        else ReplySpec(t, env, presser, id, answer, url, w)
  }

  /** The handler once the button has named the known user `id`. */
  function ReplySpec(t: Tables, env: Env, presser: Int64, id: Int64, answer: MemberAnswer, url: Option<string>, w: Wording): Step<()>
    requires id in t.users
  {
    if IsMember(answer) then
      var marked := t.(users := t.users[id := t.users[id].(isSubscribed := true)]);
      match url
      case None => Step(marked, Ok(()))
      case Some(u) => Step(Deliver(marked, env, BonusMessage(w, presser, u)).after, Ok(()))
    else Deliver(t, env, SendMessage(presser, w.subscribePrompt, None))
  }

  /** Data that is not a subscription button, or that names no known user,
      changes nothing and sends nothing. */
  lemma IgnoresUnknown(t: Tables, env: Env, presser: Int64, data: string, answer: MemberAnswer, url: Option<string>, w: Wording)
    requires !StartsWith(data, Prefix) || Target(data).None? || Target(data).value !in t.users
    ensures HandleSpec(t, env, presser, data, answer, url, w) == Step(t, Ok(()))
  {
  }

  /** A member's press on a known user's button: that user's flag is set,
      and the bonus offer is the only call, made when the URL exists and kept
      when Telegram accepts it. */
  lemma ReplyMarks(t: Tables, env: Env, presser: Int64, id: Int64, answer: MemberAnswer, url: Option<string>, w: Wording)
    requires id in t.users && IsMember(answer)
    ensures var s := ReplySpec(t, env, presser, id, answer, url, w);
      s.result.Ok? &&
      s.after == t.(users := t.users[id := t.users[id].(isSubscribed := true)],
                    outbox := t.outbox +
                      (if url.Some? && BonusMessage(w, presser, url.value) !in env.failures then [BonusMessage(w, presser, url.value)] else []))
  {
    var marked := t.(users := t.users[id := t.users[id].(isSubscribed := true)]);
    if url.Some? {
      var bonus := BonusMessage(w, presser, url.value);
      assert ReplySpec(t, env, presser, id, answer, url, w).after == Deliver(marked, env, bonus).after;
    } else {
      assert t.outbox + [] == t.outbox;
    }
  }

  /** A confirmed membership marks the user the button names, whoever
      pressed it, and nothing else; the bonus offer goes to the presser when
      the URL exists and Telegram accepts it, and the handler ends normally
      either way. */
  lemma ConfirmedMarksTarget(t: Tables, env: Env, presser: Int64, id: Int64, answer: MemberAnswer, url: Option<string>, w: Wording)
    requires id in t.users && IsMember(answer)
    ensures var s := HandleSpec(t, env, presser, Prefix + IntToString(id), answer, url, w);
      s.result.Ok? &&
      s.after.users == t.users[id := t.users[id].(isSubscribed := true)] &&
      s.after.catalog == t.catalog && s.after.states == t.states && s.after.responses == t.responses &&
      s.after.outbox == t.outbox +
        (if url.Some? && BonusMessage(w, presser, url.value) !in env.failures then [BonusMessage(w, presser, url.value)] else [])
  {
    var data := Prefix + IntToString(id);
    TargetOfButton(id);
    assert StartsWith(data, Prefix);
    assert HandleSpec(t, env, presser, data, answer, url, w) == ReplySpec(t, env, presser, id, answer, url, w);
    ReplyMarks(t, env, presser, id, answer, url, w);
  }

  /** Without a confirmed membership the flags stay as they are and the
      presser is asked to subscribe; only Telegram refusing that prompt
      makes the handler fail. */
  lemma UnconfirmedAsks(t: Tables, env: Env, presser: Int64, id: Int64, answer: MemberAnswer, url: Option<string>, w: Wording)
    requires id in t.users && !IsMember(answer)
    ensures var s := HandleSpec(t, env, presser, Prefix + IntToString(id), answer, url, w);
      s.after.users == t.users &&
      (s.result.Ok? <==> SendMessage(presser, w.subscribePrompt, None) !in env.failures) &&
      (s.result.Ok? ==> s.after == t.(outbox := t.outbox + [SendMessage(presser, w.subscribePrompt, None)])) &&
      (s.result.Err? ==> s.after == t)
  {
    TargetOfButton(id);
    assert StartsWith(Prefix + IntToString(id), Prefix);
  }

  /** The frame of the reply to a known user's button: at most that user's
      flag turns true and at most one message is sent; only a refused prompt
      fails. */
  lemma ReplyFrame(t: Tables, env: Env, presser: Int64, id: Int64, answer: MemberAnswer, url: Option<string>, w: Wording)
    requires id in t.users
    ensures var s := ReplySpec(t, env, presser, id, answer, url, w);
      s.after == t.(users := s.after.users, outbox := s.after.outbox) &&
      s.after.users.Keys == t.users.Keys &&
      (forall u :: u in t.users ==>
        s.after.users[u] == t.users[u] || s.after.users[u] == t.users[u].(isSubscribed := true)) &&
      |t.outbox| <= |s.after.outbox| <= |t.outbox| + 1 && s.after.outbox[..|t.outbox|] == t.outbox &&
      (s.result.Err? ==> !IsMember(answer) && s.after.users == t.users && s.result.failure.TelegramRaised?)
  {
    var s := ReplySpec(t, env, presser, id, answer, url, w);
    if IsMember(answer) {
      ReplyMarks(t, env, presser, id, answer, url, w);
      var marked := t.users[id := t.users[id].(isSubscribed := true)];
      assert s.after.users == marked;
      forall u | u in t.users
        ensures marked[u] == t.users[u] || marked[u] == t.users[u].(isSubscribed := true)
      {
      }
      assert s.after.outbox[..|t.outbox|] == t.outbox;
    } else {
      assert s == Deliver(t, env, SendMessage(presser, w.subscribePrompt, None));
      assert s.after.users == t.users;
    }
  }

  /** For any data, the handler changes at most the `is_subscribed` flag of
      one user, to true, and sends at most one message; it fails only on a
      refused prompt, never after marking anyone. */
  lemma OnlySubscriptionFlag(t: Tables, env: Env, presser: Int64, data: string, answer: MemberAnswer, url: Option<string>, w: Wording)
    ensures var s := HandleSpec(t, env, presser, data, answer, url, w);
      s.after == t.(users := s.after.users, outbox := s.after.outbox) &&
      s.after.users.Keys == t.users.Keys &&
      (forall u :: u in t.users ==>
        s.after.users[u] == t.users[u] || s.after.users[u] == t.users[u].(isSubscribed := true)) &&
      |t.outbox| <= |s.after.outbox| <= |t.outbox| + 1 && s.after.outbox[..|t.outbox|] == t.outbox &&
      (s.result.Err? ==> !IsMember(answer) && s.after.users == t.users && s.result.failure.TelegramRaised?)
  {
    if StartsWith(data, Prefix) && Target(data).Some? && Target(data).value in t.users {
      var id := Target(data).value;
      assert HandleSpec(t, env, presser, data, answer, url, w) == ReplySpec(t, env, presser, id, answer, url, w);
      ReplyFrame(t, env, presser, id, answer, url, w);
    } else {
      assert HandleSpec(t, env, presser, data, answer, url, w) == Step(t, Ok(()));
      assert t.outbox[..|t.outbox|] == t.outbox;
    }
  }

  /** The handler keeps the tables consistent. */
  lemma HandleConsistent(t: Tables, env: Env, presser: Int64, data: string, answer: MemberAnswer, url: Option<string>, w: Wording)
    requires Consistent(t)
    ensures Consistent(HandleSpec(t, env, presser, data, answer, url, w).after)
  {
    OnlySubscriptionFlag(t, env, presser, data, answer, url, w);
  }

  /** `handleSubscriptionCallback` on the database, with the channel bot's
      answer about the presser and the redirect URL as inputs. */
  method HandleSubscriptionCallback(db: World, query: CallbackQueryService.CallbackQuery, answer: MemberAnswer, url: Option<string>)
    returns (r: Result<()>)
    requires db.Valid()
    modifies db`users, db`outbox
    ensures db.Valid()
    ensures db.Snap() == HandleSpec(old(db.Snap()), db.env, query.from, query.data, answer, url, db.wording).after
    ensures r == HandleSpec(old(db.Snap()), db.env, query.from, query.data, answer, url, db.wording).result
  {
    HandleConsistent(db.Snap(), db.env, query.from, query.data, answer, url, db.wording);
    if !StartsWith(query.data, Prefix) {
      return Ok(());
    }
    var telegramId := RemoveAll(query.data, Prefix);
    var target := CanonicalInt(telegramId);
    if target.None? || target.value !in db.users {
      return Ok(());
    }
    r := Reply(db, query.from, target.value, answer, url);
  }

  /** The member check and the reply for the known user `id`. */
  method Reply(db: World, presser: Int64, id: Int64, answer: MemberAnswer, url: Option<string>) returns (r: Result<()>)
    requires id in db.users
    modifies db`users, db`outbox
    ensures db.Snap() == ReplySpec(old(db.Snap()), db.env, presser, id, answer, url, db.wording).after
    ensures r == ReplySpec(old(db.Snap()), db.env, presser, id, answer, url, db.wording).result
  {
    if IsMember(answer) {
      db.users := db.users[id := db.users[id].(isSubscribed := true)];
      if url.Some? {
        var sent := db.Send(BonusMessage(db.wording, presser, url.value));
      }
      r := Ok(());
    } else {
      r := db.Send(SendMessage(presser, db.wording.subscribePrompt, None));
    }
  }
}
