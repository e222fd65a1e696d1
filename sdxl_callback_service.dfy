/** `SDXLCallbackService`: the image generation service calls back with a
    JSON payload; the bot answers the chat with the image, a "still
    processing" notice or an error notice, and answers the call with a JSON
    status. */
module SdxlCallbackService {
  import opened Common
  import opened Telegram
  import opened Store

  /** An HTTP answer: its status code and its flat JSON body. */
  datatype HttpReply = HttpReply(code: int, body: map<string, string>)

  const MissingRequestId := "Отсутствует request_id"
  const UnknownError := "Извините, произошла неизвестная ошибка."
  const StillProcessing := "Ваше изображение все еще обрабатывается. Пожалуйста, подождите."

  /** `$data['result'][0] ?? null`: the first element of a list, the entry
      under key 0 of an object, the first character of a non-empty string;
      null for anything else. */
  function FirstResult(data: map<string, Json>): (v: Json)
    ensures "result" !in data ==> v == JNull
    ensures "result" in data && data["result"].JArr? && data["result"].items != [] ==> v == data["result"].items[0]
    ensures "result" in data && (data["result"] == JArr([]) || data["result"].JNull? || data["result"].JBool? || data["result"].JNum?) ==>
      v == JNull
    ensures "result" in data && data["result"].JObj? ==>
      v == (if "0" in data["result"].fields then data["result"].fields["0"] else JNull)
    ensures "result" in data && data["result"].JStr? ==>
      v == (if data["result"].s == [] then JNull else JStr([data["result"].s[0]]))
  {
    if "result" !in data then JNull
    else match data["result"]
      case JArr(items) => if items == [] then JNull else items[0]
      case JObj(m) => if "0" in m then m["0"] else JNull
      case JStr(s) => if s == [] then JNull else JStr([s[0]])
      case _ => JNull
  }

  /** `handleProcessingStatus`: a truthy first result is sent as a photo by
      its URL; otherwise the chat is told to wait. */
  function ProcessingSpec(t: Tables, env: Env, data: map<string, Json>, chat: Int64): Step<()>
  {
    var url := FirstResult(data);
    if Truthy(url) then Deliver(t, env, SendPhotoUrl(chat, url))
    else Deliver(t, env, SendMessage(chat, StillProcessing, None))
  }

  /** `processDalleCallback($request, $chatId)` on the decoded payload. A
      payload whose `request_id` is unset or null is refused with 400. The
      `switch` compares the status loosely with "processing"; every other
      status, "success" among them, gets the error notice. A payload without
      a status fails on the undefined key. Telegram errors are not caught. */
  function ProcessDalleCallback(t: Tables, env: Env, data: map<string, Json>, chat: Int64): Step<HttpReply>
  {
    if "request_id" !in data || data["request_id"] == JNull then
      Step(t, Ok(HttpReply(400, map["error" := MissingRequestId])))
    else if "status" !in data then
      Step(t, Err(RuntimeError("Undefined array key \"status\"")))
    else
      assert !IsDigit("processing"[0]);
      var sent :=
        if LooseEqualsWord(data["status"], "processing") then ProcessingSpec(t, env, data, chat)
        else Deliver(t, env, SendMessage(chat, UnknownError, None));
      match sent.result
      case Err(f) => Step(sent.after, Err(f))
      case Ok(_) => Step(sent.after, Ok(HttpReply(200, map["status" := "success"])))
  }

  /** What the chat receives for a payload with a request id and a status. */
  function Notice(data: map<string, Json>, chat: Int64): Action
    requires "status" in data
  {
    assert !IsDigit("processing"[0]);
    if LooseEqualsWord(data["status"], "processing") then
      if Truthy(FirstResult(data)) then SendPhotoUrl(chat, FirstResult(data))
      else SendMessage(chat, StillProcessing, None)
    else SendMessage(chat, UnknownError, None)
  }

  /** Without a request id: 400 and nothing sent. */
  lemma NoRequestIdRefused(t: Tables, env: Env, data: map<string, Json>, chat: Int64)
    requires "request_id" !in data || data["request_id"] == JNull
    ensures ProcessDalleCallback(t, env, data, chat) == Step(t, Ok(HttpReply(400, map["error" := MissingRequestId])))
  {
  }

  /** With a request id and a status: exactly one call to the chat, the
      status "success" in the answer, and nothing else touched. */
  lemma OneNoticePerCallback(t: Tables, env: Env, data: map<string, Json>, chat: Int64)
    requires "request_id" in data && data["request_id"] != JNull && "status" in data
    requires Notice(data, chat) !in env.failures
    ensures ProcessDalleCallback(t, env, data, chat) ==
      Step(t.(outbox := t.outbox + [Notice(data, chat)]), Ok(HttpReply(200, map["status" := "success"])))
  {
  }

  /** A processing payload with a usable first result sends that image; one
      without sends the wait notice; any other status sends the error notice,
      whatever the payload holds besides. */
  lemma NoticeCases(data: map<string, Json>, chat: Int64)
    requires "status" in data
    ensures data["status"] == JStr("processing") && Truthy(FirstResult(data)) ==>
      Notice(data, chat) == SendPhotoUrl(chat, FirstResult(data))
    ensures data["status"] == JStr("processing") && !Truthy(FirstResult(data)) ==>
      Notice(data, chat) == SendMessage(chat, StillProcessing, None)
    ensures data["status"] == JStr("success") ==> Notice(data, chat) == SendMessage(chat, UnknownError, None)
    ensures data["status"].JNum? || data["status"].JNull? ==> Notice(data, chat) == SendMessage(chat, UnknownError, None)
  {
  }

  /** Whatever the payload, no table but the outbox changes, and at most one
      call goes out. */
  lemma StoresNothing(t: Tables, env: Env, data: map<string, Json>, chat: Int64)
    ensures var after := ProcessDalleCallback(t, env, data, chat).after;
      after == t.(outbox := after.outbox) &&
      |t.outbox| <= |after.outbox| <= |t.outbox| + 1 && after.outbox[..|t.outbox|] == t.outbox
  {
  }
}
