# Quiz bot core, modelled in Dafny

This project models the core of a Laravel Telegram bot. The bot runs a
multiple-choice quiz about neural networks. Once a user has completed it, the
bot forwards one free-text request to a text or image generation service. It
also grants a channel-subscription bonus and records click-throughs to two
partner sites.

The model covers these parts:

- **The persisted world** (`Store`). It holds the question catalog with the
  answers and pictures of each question, plus three tables: `users`,
  `user_states` and `user_quiz_responses`, all keyed by Telegram id. Every
  call the bot makes to Telegram or to a generation service goes into an
  outbox.
  - `Store.Tables` is the value of the world; every handler is specified on it.
  - `Store.World` is the class the handler methods update in place.
  - Which Telegram calls fail, and with what description, is fixed call by
    call by `Telegram.Env`. A handler can therefore fail halfway, after some
    of its calls went through.
  - The long fixed texts the bot sends are `Texts.Wording`.
  - `Store.Consistent` (as `World.Valid` on the class) says the question ids
    are distinct and every state and response row belongs to a user. Every
    entry point that changes the database keeps it.
- **The quiz engine** (`QuizService`, `CallbackQueryService`). It picks the
  next question, which is the smallest id above the current one. It sends the
  question, loops over the pictures and caches their file ids, records every
  answer, and moves on or completes the quiz. Completing counts the score,
  wipes the responses and sets `quiz_completed`.
- **The older, stateless callback service** (`LegacyCallbackQueryService`).
  It grades an answer, replies with the next question, the completion text or
  the retry text, and stores nothing.
- **Answer buttons** (`QuizCommand`, `CallbackData`):
  - the keyboard loop, which lays out two buttons per row;
  - the `question_{qid}_answer_{aid}` encoding, and the decoding by `explode`
    with the PHP `(int)` cast.
- **Result messages** (`ResultMessageTrait`, and `QuizService.ResultMessage`).
  The score falls into one of three tiers, with boundaries at 2 and 5.
- **The message gate** (`MessageGate`, `BotController`,
  `ChatGptMessageService`, `SdxlMessageService`):
  - a command text is left alone;
  - any other text creates the user;
  - only a user whose quiz is completed gets exactly one generation request,
    and then returns to `initial_state`;
  - a "bot was blocked" error marks the user inactive.
- **The image-generation callback** (`SdxlCallbackService`):
  - a payload without a request id gets 400 and sends nothing;
  - a payload without a status fails on the undefined key and sends nothing;
  - otherwise the status selects exactly one message to the chat.
- **The subscription button** (`Subscription`):
  - the deep link, and the classification of the channel bot's
    `getChatMember` answer;
  - the callback, which flags the user the button names, while checking the
    membership of whoever pressed it.
- **The click-through redirects** (`RedirectController`).

Every handler is a specification function on `Tables` that returns a `Step`
(the new tables and the result). The properties the code promises are proved
as lemmas about these functions. A handler that changes the database is also a
method on `World`, whose `ensures` ties the new state to its function. Two
handlers store nothing and are functions only: the older callback service and
the image-generation callback.

What the code does is modelled as written, including where it is surprising:

- The new callback service moves on from the question named in the
  callback, whatever answer was given (`ProcessAdvances`).
- `requestChatGPT` and `requestSDXL` reset the state of the user whose
  Telegram id equals the chat id (`ResetFollowsChat`).
- The subscription flag goes to the user named in the button, while the
  membership checked is the presser's (`ConfirmedMarksTarget`).

When `Question::find` returns null, the code fails with an error when it calls
`answers()` on null. The model keeps that error path as an error result
(`RuntimeError`) instead of assuming the question exists.

## Model

| member | source | states |
|---|---|---|
| Catalog.NextQuestionId | app/Services/Telegram/QuizService/QuizService.php:20-26 | `min('id')` over the greater ids: none exactly when every id is at most the current one; otherwise greater than the current id, present in the catalog, and no greater than any other id above the current one |
| Catalog.IndexOf | app/Services/Telegram/QuizService/QuizService.php:28 | the position found holds the id; none means no row has it |
| Catalog.Find | app/Services/Telegram/CallbackQueryService/CallbackQueryService.php:60 | `Question::find`: the question returned is in the catalog with that id; none means no row has it |
| Catalog.CountAtMost | app/Services/Telegram/QuizService/QuizService.php:18 | the count of ids up to the current one never exceeds the catalog size |
| Catalog.CountAtMostSorted | app/Services/Telegram/QuizService/QuizService.php:18 | in an id-ordered catalog, the count of ids up to the k-th id is k + 1 |
| Catalog.CountAtMostNone | app/Services/Telegram/QuizService/QuizService.php:18 | when every id is above the current one, the count is 0 |
| Catalog.NextInSortedTable | app/Services/Telegram/QuizService/QuizService.php:18-20 | in an id-ordered catalog the next question after the k-th is the (k+1)-th, shown as number k + 2 |
| Catalog.NoNextAfterLast | app/Services/Telegram/QuizService/QuizService.php:20-26 | the last question of an id-ordered catalog has no next question |
| Catalog.HasCorrectAnswerIff | app/Services/Telegram/CallbackQueryService/CallbackQueryService.php:60-64 | an answer is correct iff the question has an answer with that id flagged correct |
| Common.Explode | app/Services/Telegram/CallbackQueryService/CallbackQueryService.php:31 | `explode('_', ...)` gives at least one piece, and no piece holds `_` |
| Common.ImplodeExplode | app/Services/Telegram/CallbackQueryService/CallbackQueryService.php:31 | joining the pieces with `_` gives the data back |
| Common.CastOfIntToString | app/Services/Telegram/CallbackQueryService/CallbackQueryService.php:51-52 | the `(int)` cast of an interpolated 64-bit int gives the int back |
| Common.PhpIntCast | app/Services/Telegram/CallbackQueryService/CallbackQueryService.php:51-52 | `(int)` on a string: text that, after leading whitespace, is empty or starts with neither a digit nor a sign casts to 0 |
| Common.ExplodeCount | app/Services/Telegram/CallbackQueryService/CallbackQueryService.php:31 | `explode` gives one piece more than the text has `_` |
| Common.ExplodeHead | app/Services/Telegram/CallbackQueryService/CallbackQueryService.php:31-32 | the first piece is a given word, with more pieces after it, iff the text starts with that word and `_` |
| Common.RemoveAll | app/Services/Telegram/ServiceCheckSubscription/ServiceCheckSubscription.php:58 | `str_replace` with an empty replacement never lengthens the text |
| Common.RemoveAllAbsent | app/Services/Telegram/ServiceCheckSubscription/ServiceCheckSubscription.php:58 | text that cannot contain the pattern is left unchanged |
| Common.CanonicalInt | app/Services/Telegram/ServiceCheckSubscription/ServiceCheckSubscription.php:61 | a route or data string matches a `telegram_id` only when it is that id's decimal spelling |
| Common.CanonicalIntOfIntToString | app/Services/Telegram/ServiceCheckSubscription/ServiceCheckSubscription.php:61 | every id's decimal spelling matches that id |
| CallbackData.Decode | app/Services/Telegram/CallbackQueryService/CallbackQueryService.php:31-52 | data is read as an answer iff it starts with `question_` and holds exactly three `_` |
| CallbackData.DecodeReads | app/Services/Telegram/CallbackQueryService/CallbackQueryService.php:31-52 | data `question_{q}_{m}_{a}` whose pieces hold no `_` reads as the `(int)` casts of q and a, whatever m is |
| CallbackData.NoUnderscoreInId | app/Telegram/Commands/QuizCommand.php:52 | an interpolated id never holds `_` |
| CallbackData.Encode | app/Telegram/Commands/QuizCommand.php:52 | button data always starts with `question_`; `ExplodeEncode` and `DecodeEncode` give its pieces and its round trip |
| CallbackData.ExplodeEncode | app/Telegram/Commands/QuizCommand.php:52-59 | button data splits into exactly `question`, the question id, `answer` and the answer id |
| CallbackData.DecodeEncode | app/Telegram/Commands/QuizCommand.php:52 | round trip: decoding a button's data gives back its question id and answer id |
| CallbackData.EncodeInjective | app/Telegram/Commands/QuizCommand.php:52-59 | two buttons with different ids never carry the same data |
| CallbackData.ThirdPieceIgnored | app/Services/Telegram/CallbackQueryService/CallbackQueryService.php:32-52 | piece 2 is never checked, so any middle word without `_` decodes the same |
| CallbackData.SubscriptionDataIgnored | app/Services/Telegram/CallbackQueryService/CallbackQueryService.php:32 | `subscribed_{id}` data is not answer data |
| ResultMessageTrait.TierOf | app/Traits/ResultMessageTrait.php:10-16 | every score has exactly one tier: up to 2, 3 to 5, 6 and above |
| ResultMessageTrait.TierMonotone | app/Traits/ResultMessageTrait.php:10-16 | a higher score never gets a lower tier |
| ResultMessageTrait.TierLabelsDistinct | app/Traits/ResultMessageTrait.php:11-15 | the three labels differ |
| ResultMessageTrait.RankTitleIsTier | app/Traits/ResultMessageTrait.php:10-16 | the if/elseif chain picks the label of the score's tier |
| ResultMessageTrait.Title | app/Traits/ResultMessageTrait.php:18 | the title names the score's tier |
| ResultMessageTrait.Additional | app/Traits/ResultMessageTrait.php:19 | the additional text opens with the score, which `(int)` reads back |
| ResultMessageTrait.GetResultMessage | app/Traits/ResultMessageTrait.php:8-25 | the record holds exactly a title naming the tier and an additional text that opens with the score |
| Store.Deliver | app/Services/Telegram/CallbackQueryService/CallbackQueryService.php:84-88 | a Telegram call either succeeds and is appended to the outbox, or raises the error Telegram gives that call and changes nothing |
| Store.WithUser | app/Services/Telegram/CallbackQueryService/CallbackQueryService.php:56 | `firstOrCreate`: the user exists afterwards, existing rows are kept, and nothing else changes |
| Store.WithStateColumn | app/Http/Controllers/TelegramBotController.php:112-115 | `updateOrCreate` with only `state`: that row's state is set, its current question is kept (none for a new row), and other rows are unchanged |
| Store.WithUserConsistent | app/Services/Telegram/CallbackQueryService/CallbackQueryService.php:56 | creating a user keeps every state and response row tied to a user |
| Store.World.Send | app/Services/Telegram/QuizService/QuizService.php:51-55 | one Telegram call on the database, as `Deliver` |
| Store.World.FirstOrCreate | app/Services/Telegram/CallbackQueryService/CallbackQueryService.php:56 | `firstOrCreate` on the database, as `WithUser` |
| QuizCommand.Name | app/Telegram/Commands/QuizCommand.php:13-20 | `getName()` is `quiz`, so the command text is `/quiz` |
| QuizCommand.Buttons | app/Telegram/Commands/QuizCommand.php:49-60 | one button per answer, in order, each with the answer's text and encoded data |
| QuizCommand.CreateQuestionKeyboard | app/Telegram/Commands/QuizCommand.php:41-68 | the step-2 loop builds exactly the rows `Rows` specifies |
| QuizCommand.PairsStep | app/Telegram/Commands/QuizCommand.php:46-66 | one loop turn adds a row of two buttons, or of one at the end |
| QuizCommand.PairsShape | app/Telegram/Commands/QuizCommand.php:46-66 | n buttons make ceil(n/2) rows of one or two buttons, all of two except maybe the last |
| QuizCommand.PairsInOrder | app/Telegram/Commands/QuizCommand.php:46-61 | concatenating the rows gives the buttons in order |
| QuizCommand.RowsShape | app/Telegram/Commands/QuizCommand.php:43-67 | n answers make ceil(n/2) non-empty rows of at most two buttons, all of two but the last; no answers make no rows |
| QuizCommand.RowsInOrder | app/Telegram/Commands/QuizCommand.php:46-61 | the k-th button of the flattened keyboard is answer k's, and its data decodes to the question and that answer |
| QuizCommand.StartId | app/Telegram/Commands/QuizCommand.php:27-29 | the start question is the cached id if there is one, else the first question's id, else an error |
| QuizCommand.HandleSpec | app/Telegram/Commands/QuizCommand.php:22-38 | no contract of its own; `HandleShowsStart` and `QuizCommand.HandleConsistent` state what `handle()` does |
| QuizCommand.HandleConsistent | app/Telegram/Commands/QuizCommand.php:22-38 | the command changes only the outbox, so it keeps the tables consistent |
| QuizCommand.Handle | app/Telegram/Commands/QuizCommand.php:22-38 | `handle()` on the database: typing action, then the start question with its keyboard |
| QuizCommand.HandleShowsStart | app/Telegram/Commands/QuizCommand.php:22-38 | on success the start question exists and the only change is the typing action and that question with its keyboard |
| QuizService.CountCorrect | app/Services/Telegram/QuizService/QuizService.php:171-180 | the score never exceeds the number of responses; it equals that number iff all are correct, and is 0 iff none is |
| QuizService.CountCorrectAppend | app/Services/Telegram/QuizService/QuizService.php:171-180 | one more response adds one to the score exactly when it is correct |
| QuizService.ResultLabel | app/Services/Telegram/QuizService/QuizService.php:184-190 | no contract of its own; `ResultLabelIsTier` proves it gives the trait's tier label for every score |
| QuizService.ResultLabelIsTier | app/Services/Telegram/QuizService/QuizService.php:184-190 | this label agrees with the trait's tier for every score |
| QuizService.HeaderThen | app/Services/Telegram/QuizService/QuizService.php:195 | the header names the score's tier |
| QuizService.ResultMessage | app/Services/Telegram/QuizService/QuizService.php:182-196 | the message names the score's tier, and after its header comes the score, which `(int)` reads back |
| QuizService.FetchFileId | app/Services/Telegram/QuizService/QuizService.php:97-120 | an upload happens iff the file exists and Telegram accepts it; only then can the id change, to the last photo size's id; otherwise nothing changes |
| QuizService.RunPictures | app/Services/Telegram/QuizService/QuizService.php:57-74 | the loop visits every picture once |
| QuizService.CachedIds | app/Services/Telegram/QuizService/QuizService.php:67-73 | the group holds at most one id per picture |
| QuizService.RunAllHad | app/Services/Telegram/QuizService/QuizService.php:57-65 | `$allImagesHaveIds` stays true iff every picture had an id before the loop |
| QuizService.RunKeepsCached | app/Services/Telegram/QuizService/QuizService.php:62-114 | a picture that had an id keeps it; one that gets a new id had none |
| QuizService.RunGroup | app/Services/Telegram/QuizService/QuizService.php:67-73 | the group is exactly the pictures that have an id after their fetch step, in picture order |
| QuizService.RunAllCached | app/Services/Telegram/QuizService/QuizService.php:61-74 | when every picture has an id, nothing is uploaded, no picture changes, and the group has every id |
| QuizService.RunSendsUploads | app/Services/Telegram/QuizService/QuizService.php:62-106 | the loop sends only uploads of pictures that had no id |
| QuizService.SetPicture | app/Services/Telegram/QuizService/QuizService.php:112-113 | saving one picture keeps every question id in place |
| QuizService.SetPictureSame | app/Services/Telegram/QuizService/QuizService.php:112-113 | saving a picture unchanged leaves the catalog as it was |
| QuizService.SetPictures | app/Services/Telegram/QuizService/QuizService.php:61-74 | replacing a question's pictures keeps every question id in place |
| QuizService.SendQuestionSends | app/Services/Telegram/QuizService/QuizService.php:48-94 | a fully sent question appends the text, the uploads, a media group of every id exactly when there are pictures and all had ids, then the keyboard; only the pictures change |
| QuizService.SendQuestionOpens | app/Services/Telegram/QuizService/QuizService.php:51-55 | a fully sent question starts with its text |
| QuizService.FetchAndSaveTelegramFileId | app/Services/Telegram/QuizService/QuizService.php:97-120 | the method stores the fetched picture and appends the upload, as `FetchFileId` |
| QuizService.LoopStep | app/Services/Telegram/QuizService/QuizService.php:61 | one loop turn moves a picture from the pending part to the done part |
| QuizService.SetPictureOfSetPictures | app/Services/Telegram/QuizService/QuizService.php:112-113 | saving picture k after replacing the pictures is replacing them with picture k updated |
| QuizService.SetPicturesSame | app/Services/Telegram/QuizService/QuizService.php:61-74 | replacing the pictures with themselves changes nothing |
| QuizService.VisitPicture | app/Services/Telegram/QuizService/QuizService.php:62-73 | one picture of the loop: fetched and stored when it has no file id, reporting whether it had one and the file id it has afterwards |
| QuizService.SendPictures | app/Services/Telegram/QuizService/QuizService.php:57-74 | the `foreach` loop stores the fetched pictures, appends the uploads, and returns `$allImagesHaveIds` and `$mediaGroup` |
| QuizService.SendQuestion | app/Services/Telegram/QuizService/QuizService.php:48-94 | `sendQuestion` on the database, as `SendQuestionSpec` |
| QuizService.SendQuestionSpec | app/Services/Telegram/QuizService/QuizService.php:48-94 | no contract of its own; `SendQuestionSends`, `SendQuestionOpens`, `SendQuestionFailsLate` and `SendQuestionFrame` state what `sendQuestion` does |
| QuizService.SendQuestionFailsLate | app/Services/Telegram/QuizService/QuizService.php:51-93 | when the text is accepted and a later call is refused, the error escapes with the text, the uploads, the stored pictures and an accepted media group already in place |
| QuizService.QuestionText | app/Services/Telegram/QuizService/QuizService.php:30 | no contract of its own; `SendNextQuestionShowsNumber` states the number it shows |
| QuizService.SendNextQuestionSpec | app/Services/Telegram/QuizService/QuizService.php:16-45 | no contract of its own; the `SendNextQuestion…` lemmas state what `sendNextQuestion` does |
| QuizService.SendNextQuestionAtEnd | app/Services/Telegram/QuizService/QuizService.php:20-26 | with no greater id the answer is false and nothing changes |
| QuizService.SendNextQuestionFalseAtEnd | app/Services/Telegram/QuizService/QuizService.php:20-26 | the answer is false only when no id is greater |
| QuizService.SendQuestionFrame | app/Services/Telegram/QuizService/QuizService.php:48-94 | sending a question changes no user, state or response, and keeps every question id in place |
| QuizService.SendNextQuestionAdvances | app/Services/Telegram/QuizService/QuizService.php:35-42 | on true the user is `quiz_in_progress` on the smallest greater id; no other state, user or response changes |
| QuizService.SendNextQuestionShowsNumber | app/Services/Telegram/QuizService/QuizService.php:18-30 | on true the first message is the next question's text under the number `QuestionIndex`, one more than the count of ids up to the current one |
| QuizService.SendNextQuestionRefused | app/Services/Telegram/QuizService/QuizService.php:33-38 | when Telegram refuses a call, the state is not updated |
| QuizService.SendNextQuestionConsistent | app/Services/Telegram/QuizService/QuizService.php:35-38 | moving on keeps the tables consistent |
| QuizService.SendNextQuestion | app/Services/Telegram/QuizService/QuizService.php:16-45 | `sendNextQuestion` on the database, as `SendNextQuestionSpec` |
| QuizService.CompleteQuizEnds | app/Services/Telegram/QuizService/QuizService.php:139-166 | after completion the user has no responses and is `quiz_completed` with no question; exactly the two messages are sent; other users keep their rows |
| QuizService.CompleteQuizRefused | app/Services/Telegram/QuizService/QuizService.php:139-152 | a refused closing message fails before the responses are wiped |
| QuizService.CompleteQuizHalfDone | app/Services/Telegram/QuizService/QuizService.php:139-161 | closing message accepted, result message refused: the error escapes after the responses are wiped, every state stays as it was (no `quiz_completed`), and only the closing message was sent |
| QuizService.CompleteQuizConsistent | app/Services/Telegram/QuizService/QuizService.php:155-166 | completing keeps the tables consistent |
| QuizService.CompleteQuizReports | app/Services/Telegram/QuizService/QuizService.php:135-161 | the score is counted before the wipe: the second message names its tier and carries the score |
| QuizService.ResetUserQuizResponses | app/Services/Telegram/QuizService/QuizService.php:123-127 | the user's responses are deleted and nothing else changes |
| QuizService.CloseQuiz | app/Services/Telegram/QuizService/QuizService.php:139-166 | the steps of `completeQuiz` on the database, as `CompleteQuizSteps` |
| QuizService.CompleteQuizSteps | app/Services/Telegram/QuizService/QuizService.php:139-166 | no contract of its own; `CompleteQuizEnds`, `CompleteQuizRefused`, `CompleteQuizHalfDone` and `CompleteQuizConsistent` state the steps of `completeQuiz` |
| QuizService.CompleteQuizSpec | app/Services/Telegram/QuizService/QuizService.php:130-169 | no contract of its own; `CompleteQuizReports` states that the score is counted before the wipe |
| QuizService.CompleteQuiz | app/Services/Telegram/QuizService/QuizService.php:130-169 | `completeQuiz` on the database, as `CompleteQuizSpec` |
| CallbackQueryService.Entity | app/Services/Telegram/CallbackQueryService/CallbackQueryService.php:102 | an escaped character holds no `<`, `>`, `"` or `'` |
| CallbackQueryService.HtmlSpecialChars | app/Services/Telegram/CallbackQueryService/CallbackQueryService.php:102 | `htmlspecialchars` leaves no tag or quote character and keeps plain text unchanged |
| CallbackQueryService.DecodeEntity | app/Services/Telegram/CallbackQueryService/CallbackQueryService.php:102 | one escaped character decodes back to itself |
| CallbackQueryService.HtmlRoundTrip | app/Services/Telegram/CallbackQueryService/CallbackQueryService.php:102 | escaping loses nothing: decoding gives the explanation back |
| CallbackQueryService.Explanation | app/Services/Telegram/CallbackQueryService/CallbackQueryService.php:97-105 | an explanation is shown iff it is set and not empty, and then holds the escaped text |
| CallbackQueryService.ReplyExplains | app/Services/Telegram/CallbackQueryService/CallbackQueryService.php:73-81 | a wrong answer gets "❌ Неверно."; a right one gets "✅ Верно!", followed by the escaped explanation exactly when there is a non-empty one |
| CallbackQueryService.Record | app/Services/Telegram/CallbackQueryService/CallbackQueryService.php:67-70 | one response is appended to the user's list; other users' lists are unchanged |
| CallbackQueryService.ProcessUnknownQuestion | app/Services/Telegram/CallbackQueryService/CallbackQueryService.php:56-64 | an id naming no question fails after creating the user and changes nothing else |
| CallbackQueryService.ProcessRecords | app/Services/Telegram/CallbackQueryService/CallbackQueryService.php:56-88 | every answer, right or wrong, appends exactly one response before the verdict; a refused verdict stops right there |
| CallbackQueryService.ProcessNextRefused | app/Services/Telegram/CallbackQueryService/CallbackQueryService.php:84-93 | verdict accepted, next question refused: the error escapes with the response recorded and the state unchanged |
| CallbackQueryService.ProcessAdvances | app/Services/Telegram/CallbackQueryService/CallbackQueryService.php:51-93 | moving on starts from the callback's question, not the stored one, whatever the answer's correctness |
| CallbackQueryService.AfterReplyAdvances | app/Services/Telegram/CallbackQueryService/CallbackQueryService.php:91-93 | when a next question exists, the quiz is not completed |
| CallbackQueryService.ProcessCompletes | app/Services/Telegram/CallbackQueryService/CallbackQueryService.php:84-93 | after the last question the quiz completes: verdict, closing and result sent; responses wiped; `quiz_completed` |
| CallbackQueryService.AfterReplyCompletes | app/Services/Telegram/CallbackQueryService/CallbackQueryService.php:91-93 | `completeQuiz` runs exactly when `sendNextQuestion` is false |
| CallbackQueryService.ProcessConsistent | app/Services/Telegram/CallbackQueryService/CallbackQueryService.php:46-94 | processing keeps the tables consistent |
| CallbackQueryService.AfterReplyConsistent | app/Services/Telegram/CallbackQueryService/CallbackQueryService.php:91-93 | moving on or completing keeps the tables consistent |
| CallbackQueryService.HandleIgnoresOtherData | app/Services/Telegram/CallbackQueryService/CallbackQueryService.php:31-38 | data that is not an answer changes nothing but the acknowledgement |
| CallbackQueryService.HandleButton | app/Services/Telegram/CallbackQueryService/CallbackQueryService.php:31-38 | an answer button's press is processed with its question and answer ids, then acknowledged |
| CallbackQueryService.HandleAcknowledges | app/Services/Telegram/CallbackQueryService/CallbackQueryService.php:30-42 | the query is acknowledged exactly when nothing failed and Telegram accepts; no Telegram error escapes |
| CallbackQueryService.HandleConsistent | app/Services/Telegram/CallbackQueryService/CallbackQueryService.php:22-43 | handling a callback keeps the tables consistent |
| CallbackQueryService.ProcessSpec | app/Services/Telegram/CallbackQueryService/CallbackQueryService.php:46-94 | no contract of its own; the `Process…` lemmas state what `processCallbackData` does |
| CallbackQueryService.AfterReply | app/Services/Telegram/CallbackQueryService/CallbackQueryService.php:91-93 | no contract of its own; the `AfterReply…` lemmas state it |
| CallbackQueryService.HandleSpec | app/Services/Telegram/CallbackQueryService/CallbackQueryService.php:22-43 | no contract of its own; the `Handle…` lemmas state what `handleCallbackQuery` does |
| CallbackQueryService.RecordResponse | app/Services/Telegram/CallbackQueryService/CallbackQueryService.php:67-70 | the response row is stored, as `Record` |
| CallbackQueryService.ProcessCallbackData | app/Services/Telegram/CallbackQueryService/CallbackQueryService.php:46-94 | `processCallbackData` on the database, as `ProcessSpec` |
| CallbackQueryService.MoveOn | app/Services/Telegram/CallbackQueryService/CallbackQueryService.php:91-93 | next question or completion on the database, as `AfterReply` |
| CallbackQueryService.HandleCallbackQuery | app/Services/Telegram/CallbackQueryService/CallbackQueryService.php:22-43 | `handleCallbackQuery` on the database, as `HandleSpec` |
| LegacyCallbackQueryService.Reply | app/Services/CallbackQueryService.php:39-61 | the reply goes to the chat and has a keyboard iff the answer is right and a next id exists and is non-zero |
| LegacyCallbackQueryService.ReplyNeverFails | app/Services/CallbackQueryService.php:40-43 | the next question always exists, so the reply never fails |
| LegacyCallbackQueryService.RightAnswerGetsNext | app/Services/CallbackQueryService.php:39-45 | a right answer gets the question with the smallest greater id, with its keyboard |
| LegacyCallbackQueryService.RightAnswerAtEnd | app/Services/CallbackQueryService.php:46-54 | a right answer to the last question gets the completion text with no keyboard |
| LegacyCallbackQueryService.WrongAnswerRetries | app/Services/CallbackQueryService.php:55-61 | a wrong answer gets the retry text pointing to `/quiz`, no keyboard, no next question |
| LegacyCallbackQueryService.StoresNothing | app/Services/CallbackQueryService.php:13-62 | only the outbox changes, by at most the reply and the acknowledgement |
| LegacyCallbackQueryService.Acknowledges | app/Services/CallbackQueryService.php:19-24 | the acknowledgement is the last call, made exactly when processing did not fail and Telegram accepts; other data gets only the acknowledgement |
| LegacyCallbackQueryService.ProcessSpec | app/Services/CallbackQueryService.php:28-62 | no contract of its own; the reply lemmas above state what `processCallbackData` sends |
| LegacyCallbackQueryService.HandleSpec | app/Services/CallbackQueryService.php:13-25 | no contract of its own; `StoresNothing` and `Acknowledges` state what `handleCallbackQuery` does |
| MessageGate.IsCommand | app/Http/Controllers/TelegramBotController.php:85-95 | the search loop answers true iff the text is `/` followed by a configured command name |
| MessageGate.RegistryCommands | app/Http/Controllers/TelegramBotController.php:85-95 | `/start` and `/quiz` are commands; text not starting with `/` never is |
| MessageGate.GateIgnoresCommands | app/Http/Controllers/TelegramBotController.php:60 | command texts change nothing and send nothing |
| MessageGate.GateCreatesUser | app/Http/Controllers/TelegramBotController.php:64 | any other text leaves the sender in the users table |
| MessageGate.GateRejects | app/Http/Controllers/TelegramBotController.php:70-75 | without `quiz_completed`, only the notice is sent, with no request, and states and responses stay |
| MessageGate.GateRequests | app/Http/Controllers/TelegramBotController.php:76-121 | with `quiz_completed`, exactly one request and its reply are sent, and only the state column of the chat id's row becomes `initial_state` |
| MessageGate.OneRequestPerCompletion | app/Http/Controllers/TelegramBotController.php:70-115 | in a private chat the next text after a request is rejected |
| MessageGate.ResetFollowsChat | app/Http/Controllers/TelegramBotController.php:107-115 | in a chat whose id is not the sender's, the sender stays `quiz_completed` |
| MessageGate.CatchBlockedCases | app/Services/Telegram/ChatGPTMessageService/ChatGPTMessageService.php:58-70 | a "bot was blocked" Telegram error ends normally with only the user's status set to `неактивный`; anything else passes through unchanged |
| MessageGate.GateConsistent | app/Http/Controllers/TelegramBotController.php:60-121 | the gate keeps the tables consistent, with or without the services' catch |
| MessageGate.GateSpec | app/Http/Controllers/TelegramBotController.php:60-80 | no contract of its own; the `Gate…` lemmas state it |
| MessageGate.RequestSpec | app/Http/Controllers/TelegramBotController.php:98-121 | no contract of its own; `GateRequests` and `ResetFollowsChat` state what `requestChatGPT` does |
| MessageGate.CatchBlocked | app/Services/Telegram/ChatGPTMessageService/ChatGPTMessageService.php:58-70 | no contract of its own; `CatchBlockedCases` states the catch |
| MessageGate.MarkInactive | app/Services/Telegram/ChatGPTMessageService/ChatGPTMessageService.php:63-66 | an existing user's status becomes `неактивный`; nothing else changes |
| MessageGate.GateCatchingBlocked | app/Services/Telegram/ChatGPTMessageService/ChatGPTMessageService.php:33-71 | the gate and its catch on the database, as `CatchBlocked` of `GateSpec` |
| MessageGate.SetState | app/Http/Controllers/TelegramBotController.php:112-115 | `updateOrCreate` of the state column, as `WithStateColumn` |
| MessageGate.Request | app/Http/Controllers/TelegramBotController.php:98-121 | `requestChatGPT` on the database, as `RequestSpec` |
| MessageGate.Gate | app/Http/Controllers/TelegramBotController.php:60-80 | the gate on the database, as `GateSpec` |
| ChatGptMessageService.HandleBlocked | app/Services/Telegram/ChatGPTMessageService/ChatGPTMessageService.php:58-67 | a blocked bot ends normally with the sender inactive, states and responses kept, and no reply delivered |
| ChatGptMessageService.HandleOtherFailure | app/Services/Telegram/ChatGPTMessageService/ChatGPTMessageService.php:68-70 | any other Telegram error is thrown on |
| ChatGptMessageService.HandleMessageSpec | app/Services/Telegram/ChatGPTMessageService/ChatGPTMessageService.php:23-72 | no contract of its own; the lemmas above state it |
| ChatGptMessageService.HandleMessage | app/Services/Telegram/ChatGPTMessageService/ChatGPTMessageService.php:23-72 | `handleMessage` on the database, as `HandleMessageSpec` |
| SdxlMessageService.HandleIgnores | app/Services/Telegram/SDXLMessageService/SDXLMessageService.php:34 | a message without text, or a command, does nothing |
| SdxlMessageService.HandleRequestsOnce | app/Services/Telegram/SDXLMessageService/SDXLMessageService.php:43-106 | a completed user in a private chat gets one image request and its reply, and is back at `initial_state` |
| SdxlMessageService.HandleBlocked | app/Services/Telegram/SDXLMessageService/SDXLMessageService.php:54-66 | a blocked bot marks the sender inactive and ends normally; other Telegram errors are thrown on |
| SdxlMessageService.HandleMessageSpec | app/Services/Telegram/SDXLMessageService/SDXLMessageService.php:23-68 | no contract of its own; the lemmas above state it |
| SdxlMessageService.HandleMessage | app/Services/Telegram/SDXLMessageService/SDXLMessageService.php:23-68 | `handleMessage` on the database, as `HandleMessageSpec` |
| BotController.WebhookRoutes | app/Http/Controllers/TelegramBotController.php:29-42 | callbacks go to the callback service, messages to the gate, other updates do nothing; the answer is always "Ok" when the handler returns |
| BotController.CallbackNeverRaisesTelegram | app/Http/Controllers/TelegramBotController.php:36-48 | a callback update never fails with a Telegram error |
| BotController.TextlessMessageFails | app/Http/Controllers/TelegramBotController.php:56-85 | a message without text fails on `isCommand(string)` and changes nothing |
| BotController.WebhookConsistent | app/Http/Controllers/TelegramBotController.php:29-42 | the webhook keeps the tables consistent |
| BotController.ChatGptMessageSpec | app/Http/Controllers/TelegramBotController.php:51-81 | no contract of its own; `TextlessMessageFails` and the gate lemmas state it |
| BotController.WebhookSpec | app/Http/Controllers/TelegramBotController.php:29-42 | no contract of its own; `WebhookRoutes` and `CallbackNeverRaisesTelegram` state it |
| BotController.ChatGptMessage | app/Http/Controllers/TelegramBotController.php:51-81 | `ChatGPTMessage` on the database, as `ChatGptMessageSpec` |
| BotController.ProcessingWebhook | app/Http/Controllers/TelegramBotController.php:29-42 | `processingWebhook` on the database, as `WebhookSpec` |
| SdxlCallbackService.FirstResult | app/Services/Telegram/SDXLCallbackService/SDXLCallbackService.php:46 | `$data['result'][0] ?? null` as PHP reads it: the first element of a non-empty list, key `0` of an object, the first character of a non-empty string; null for a missing `result`, an empty list or string, an object without key `0`, null, a boolean or a number |
| SdxlCallbackService.NoRequestIdRefused | app/Services/Telegram/SDXLCallbackService/SDXLCallbackService.php:19-22 | without a request id: 400 and nothing sent |
| SdxlCallbackService.OneNoticePerCallback | app/Services/Telegram/SDXLCallbackService/SDXLCallbackService.php:24-39 | with a request id and a status: exactly one call to the chat and `{'status': 'success'}` |
| SdxlCallbackService.NoticeCases | app/Services/Telegram/SDXLCallbackService/SDXLCallbackService.php:24-55 | processing with a usable URL sends the photo, without one the wait notice; `success` and any other status get the error notice |
| SdxlCallbackService.StoresNothing | app/Services/Telegram/SDXLCallbackService/SDXLCallbackService.php:13-68 | no table but the outbox changes, by at most one call |
| SdxlCallbackService.ProcessingSpec | app/Services/Telegram/SDXLCallbackService/SDXLCallbackService.php:43-56 | no contract of its own; `NoticeCases` states which message it sends |
| SdxlCallbackService.ProcessDalleCallback | app/Services/Telegram/SDXLCallbackService/SDXLCallbackService.php:13-40 | no contract of its own; `NoRequestIdRefused`, `OneNoticePerCallback` and `StoresNothing` state it |
| Subscription.DeepLink | app/Services/Telegram/ServiceCheckSubscription/ServiceCheckSubscription.php:16-20 | the link is the channel's `?start=` link, and its parameter reads back as the user's id |
| Subscription.DeepLinkInjective | app/Services/Telegram/ServiceCheckSubscription/ServiceCheckSubscription.php:16-20 | two users never share a deep link |
| Subscription.IsMember | app/Services/Telegram/ServiceCheckSubscription/ServiceCheckSubscription.php:23-47 | a membership needs a successful response with a truthy `ok` |
| Subscription.MembershipByStatus | app/Services/Telegram/ServiceCheckSubscription/ServiceCheckSubscription.php:37-38 | for any answer with a truthy `ok` and a `result` object whose `status` is a string, whatever other fields they carry: a member iff the status is member, administrator or creator |
| Subscription.NoMembershipWithoutOk | app/Services/Telegram/ServiceCheckSubscription/ServiceCheckSubscription.php:37-46 | a failed request, an unsuccessful response or a falsy `ok` is never a membership |
| Subscription.TargetOfButton | app/Services/Telegram/ServiceCheckSubscription/ServiceCheckSubscription.php:58-61 | `subscribed_{id}` names the user `id` |
| Subscription.Target | app/Services/Telegram/ServiceCheckSubscription/ServiceCheckSubscription.php:58-61 | no contract of its own; `TargetSpellsId` and `TargetOfButton` state which user the data names |
| Subscription.TargetSpellsId | app/Services/Telegram/ServiceCheckSubscription/ServiceCheckSubscription.php:58-61 | the user the data names is the one whose id is spelled by the data without the prefix |
| Subscription.DeepLinkNamesTarget | app/Services/Telegram/ServiceCheckSubscription/ServiceCheckSubscription.php:16-58 | the deep link's parameter after the prefix names the linked user |
| Subscription.IgnoresUnknown | app/Services/Telegram/ServiceCheckSubscription/ServiceCheckSubscription.php:57-106 | data without the prefix, or naming no user, changes nothing and sends nothing |
| Subscription.ReplyMarks | app/Services/Telegram/ServiceCheckSubscription/ServiceCheckSubscription.php:65-94 | for a member, only the named user's flag turns true and the only call is the bonus offer, kept when the URL exists and Telegram accepts it; the reply ends normally |
| Subscription.ConfirmedMarksTarget | app/Services/Telegram/ServiceCheckSubscription/ServiceCheckSubscription.php:54-94 | a confirmed membership sets `is_subscribed` on the named user, whoever pressed, and nothing else; the bonus goes to the presser when the URL exists and Telegram accepts; no failure escapes |
| Subscription.UnconfirmedAsks | app/Services/Telegram/ServiceCheckSubscription/ServiceCheckSubscription.php:95-103 | otherwise the flags stay and the presser gets the prompt; only a refused prompt fails |
| Subscription.ReplyFrame | app/Services/Telegram/ServiceCheckSubscription/ServiceCheckSubscription.php:65-103 | the reply to a known user's button sets at most that user's flag, sends at most one message, and fails only on a refused prompt |
| Subscription.OnlySubscriptionFlag | app/Services/Telegram/ServiceCheckSubscription/ServiceCheckSubscription.php:49-108 | for any data, at most one user's `is_subscribed` turns true and at most one message is sent; failure only on a refused prompt |
| Subscription.HandleConsistent | app/Services/Telegram/ServiceCheckSubscription/ServiceCheckSubscription.php:70 | the handler keeps the tables consistent |
| Subscription.HandleSubscriptionCallback | app/Services/Telegram/ServiceCheckSubscription/ServiceCheckSubscription.php:49-108 | `handleSubscriptionCallback` on the database, as `HandleSpec` |
| Subscription.Reply | app/Services/Telegram/ServiceCheckSubscription/ServiceCheckSubscription.php:65-103 | for a known user: a member gets the flag and the bonus offer with Telegram errors swallowed, anyone else gets the prompt, as `ReplySpec` |
| Subscription.ReplySpec | app/Services/Telegram/ServiceCheckSubscription/ServiceCheckSubscription.php:65-103 | no contract of its own; `ConfirmedMarksTarget` and `UnconfirmedAsks` state it |
| Subscription.HandleSpec | app/Services/Telegram/ServiceCheckSubscription/ServiceCheckSubscription.php:49-108 | no contract of its own; `IgnoresUnknown`, `OnlySubscriptionFlag` and `Subscription.HandleConsistent` state it |
| RedirectController.Mark | app/Http/Controllers/RedirectController.php:18-36 | the site's flag is set, the other site's flag and the other fields are kept |
| RedirectController.RouteId | app/Http/Controllers/RedirectController.php:16-34 | a route parameter matches an id only when it spells it |
| RedirectController.KnownUserClicks | app/Http/Controllers/RedirectController.php:16-41 | a known user's click sets that site's flag and redirects to the site; no other row changes |
| RedirectController.UnknownUserGoesHome | app/Http/Controllers/RedirectController.php:23-45 | an unknown id redirects to `/` and changes nothing |
| RedirectController.OwnFlagOnly | app/Http/Controllers/RedirectController.php:18-37 | a click never touches the other site's flag, the subscription flag or the status |
| RedirectController.ClickIdempotent | app/Http/Controllers/RedirectController.php:18-37 | repeating a click changes nothing more and redirects the same way |
| RedirectController.ClicksCommute | app/Http/Controllers/RedirectController.php:18-37 | clicking both links in either order gives the same tables |
| RedirectController.ClickConsistent | app/Http/Controllers/RedirectController.php:16-26 | a click keeps the tables consistent |
| RedirectController.ClickSpec | app/Http/Controllers/RedirectController.php:16-26 | no contract of its own; the click lemmas above state it |
| RedirectController.Click | app/Http/Controllers/RedirectController.php:16-26 | the shared handler body on the database, as `ClickSpec` |
| RedirectController.HandleRedirect | app/Http/Controllers/RedirectController.php:12-27 | `handleRedirect` on the database, as `ClickSpec` for NeuroHolst |
| RedirectController.HandleNeurotexterRedirect | app/Http/Controllers/RedirectController.php:30-46 | `handleNeurotexterRedirect` on the database, as `ClickSpec` for NeuroTexter |

## Left out

- Telegram and HTTP I/O: every Telegram call is an outbox entry. Whether a
  call fails, and with what description, is `Env.failures`, keyed by the call
  itself. So the same call made twice by one handler gets the same answer
  both times; time-dependent answers such as rate limits that lift are not
  modelled. The photo sizes an upload returns are
  `Env.files`, which also stands for `file_exists`. The generation
  services' replies, the `getChatMember` answer and the redirect URL built
  by `route()` are handler inputs.
- The SDK's `commandsHandler` runs the commands before the controller looks at
  the update. That dispatch is not modelled; `QuizCommand.Handle` models the
  command itself.
- The command registry comes from configuration. It is fixed to `start` and
  `quiz`.
- The `Cache` lookup of `QuizCommand::handle` is the `cached` input.
- Logging, `parse_mode`, JSON encoding of keyboards and the HTML markup of the
  texts are not modelled.
- The long texts are carried by `Texts.Wording`, so the handlers are proved
  for any texts. The world is built with any texts; the bot's own are
  `Texts.QuizWording`.
- Database ids: states and responses are keyed by Telegram id rather than by
  the internal user id. The two are in one-to-one correspondence.
- Subscription.Target, RedirectController.RouteId: MySQL's lenient
  string-to-number comparison is not modelled. A string matches a
  `telegram_id` only when it is that id's exact decimal spelling, so inputs
  such as `"0123"` or `"12abc"` match no user here.
- Subscription.IsMember: a body or `result` that is a bare JSON string is
  treated like any other non-object, as `false`.
- QuizService.FetchFileId: an upload accepted with an empty list of photo
  sizes is treated as storing nothing.
- Common.PhpIntCast: strings in exponent form (`"1e3"`) are not modelled. Its own
  contract states only that text without a leading digit or sign casts to 0;
  the value read from a decimal spelling is stated by `CastOfIntToString`.
- Concurrency and database races: each handler runs alone.
- `app/Console/Commands/GetStatistics.php` is not part of this model. It is a
  read-only report with floating-point percentages.
- The HTTP clients of the generation services are not part of this model.
  Their replies are inputs.
