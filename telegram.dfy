/** What the bot sends out: Telegram Bot API calls made through the Telegram
    facade, and requests to the text and image generation service. Parse
    modes and JSON encoding of keyboards are not represented. */
module Telegram {
  import opened Common

  /** An inline keyboard button: one that sends callback data back to the
      bot, or one that opens a URL. */
  datatype Button =
    | CallbackButton(text: string, callbackData: string)
    | UrlButton(text: string, url: string)

  /** `['inline_keyboard' => $keyboard]`: rows of buttons. */
  type Keyboard = seq<seq<Button>>

  /** The generation service a request goes to. */
  datatype Api = ChatGpt | Sdxl

  datatype Action =
    | SendMessage(chat: Int64, text: string, keyboard: Option<Keyboard>)
    | SendChatAction(chat: Int64, action: string)
    | UploadPhoto(chat: Int64, path: string)        // sendPhoto with a local file
    | SendMediaGroup(chat: Int64, fileIds: seq<string>)
    | SendPhotoUrl(chat: Int64, url: Json)          // sendPhoto with a remote file
    | AnswerCallbackQuery(queryId: string)
    | Generate(api: Api, chat: Int64, prompt: string)

  predicate IsTelegramCall(a: Action)
  {
    !a.Generate?
  }

  /** The outside world as the handlers see it: Telegram answers each call
      in `failures` with an error (a TelegramResponseException carrying that
      description), call by call, so one call to a chat may go through and
      the next be refused; and `files` holds the local picture files, each
      with the file ids of the photo sizes Telegram returns when it is
      uploaded. */
  datatype Env = Env(failures: map<Action, string>, files: map<string, seq<string>>)

  /** The error Telegram answers `a` with, if any. */
  function Refusal(env: Env, a: Action): (r: Option<string>)
    ensures r.Some? <==> IsTelegramCall(a) && a in env.failures
    ensures r.Some? ==> r.value == env.failures[a]
  {
    if IsTelegramCall(a) && a in env.failures then Some(env.failures[a]) else None
  }
}
