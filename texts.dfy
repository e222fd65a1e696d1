/** The long fixed texts the bot sends verbatim. They
    are kept apart so that the handlers can be specified for any texts and
    the database carries the ones the bot uses. */
module Texts {
  /** The closing message of a completed quiz. */
  const CompletionText: string :=
    "<strong>" + "ВОПРОС #7" + "\n\n🤩 Кажется вы уже прониклись нейросетями. Самое время попробовать свои навыки в деле. Поможет вам в этом <a href=\"https://neuro-texter.ru/\">НейроТекстер</a>. \n\nСгенерируйте изображение собаки, которая катается на скейтборде по магазину. \n                            \n🖥 Просто отправьте запрос сообщением и через минуту <a href=\"https://neuro-texter.ru/\">НейроТекстер</a>\nпришлёт результат. Посмотрим, что у вас получится.\n            " + "</strong>"

  /** The fixed text after the score and its opening tag, up to the end of
      the bold block. */
  const ScoreTail: string :=
    "\n\n😳 Неожиданные результаты, верно?</strong>" + "\n\nТеперь ты точно убедился, что нейросети - важная часть современного мира и сейчас самое время начать их изучать.\n\n🎁 А чтобы старт был легче, держи бонусные токены для НейроТекстера (https://neuro-texter.ru/).\n\nС ними ты сможешь создать курсовую, рекламный пост, стихотворение, картинку и много чего еще. Скорее переходи: https://neuro-texter.ru" + "</strong>"

  /** The bonus offer sent once a channel subscription is confirmed. */
  const SubscriptionBonus: string :=
    "🤫 Делимся с тобой секретным сервисом «НейроХолст», который способен генерировать картинки на уровне DALL-E и Midjourney.\n\nТебе не понадобятся VPN, зарубежная карта и даже знание английского языка.\n\n👇 Пробуй прямо сейчас 👇\n\n      💰Это БЕСПЛАТНО💰 "

  /** The prompt sent when the subscription is not confirmed. */
  const SubscriptionPrompt: string :=
    "❗️ Кажется, ты ещё не подписался на наш канал. Пожалуйста, подпишись, чтобы получить дополнительный бонус."

  /** The long fixed texts: the closing message of a completed quiz, the
      tail of its result message, and the two replies to the subscription
      button. */
  datatype Wording = Wording(closing: string, scoreTail: string, bonus: string, subscribePrompt: string)

  /** The texts the bot sends: `completeQuiz`'s closing message, the tail of
      `getResultMessage`, and `handleSubscriptionCallback`'s bonus offer and
      prompt. */
  const QuizWording := Wording(CompletionText, ScoreTail, SubscriptionBonus, SubscriptionPrompt)
}
