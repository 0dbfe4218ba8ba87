/** The dialog history shared by both chat front ends: its entries, and the transitions the two
    dialog hooks implement identically (the introduction question, a typed user message, the
    token-limit screen). */
module Dialog {
  import opened Wrappers
  import opened ChatResponse

  datatype Speaker = User | System

  /** One entry of the dialog history; every optional field is absent unless set. */
  datatype DialogItem = DialogItem(
    speaker: Speaker,
    text: string,
    withCard: Option<bool>,
    questionId: Option<string>,
    isIntroduction: Option<bool>,
    showGoToAction: Option<bool>,
    withFeedback: Option<bool>,
    deeplink: Option<string>,
    recommendQuestions: Option<seq<QuestionSuggest>>,
    noticeButtonText: Option<string>)

  /** An entry with only a speaker and a text. */
  function Entry(speaker: Speaker, text: string): DialogItem {
    DialogItem(speaker, text, None, None, None, None, None, None, None, None)
  }

  /** The introduction as the session supplied it: nothing, a bare reply text, or a suggested
      question object whose two fields may be missing. */
  datatype IntroText = NoIntro | IntroString(text: string)
                     | IntroObject(questionContent: Option<string>, questionText: Option<string>)

  /** The question and reply texts read from the introduction; "" when absent. A bare string
      supplies only the reply. */
  function IntroTexts(intro: IntroText): (string, string) {
    match intro
    case NoIntro => ("", "")
    case IntroString(t) => ("", t)
    case IntroObject(q, t) => (OrElse(q, ""), OrElse(t, ""))
  }

  /** The entries the introduction option appends: a user question and a system reply sharing
      one question id, both marked as introduction, or nothing when either text is empty. */
  function IntroEntries(intro: IntroText, questionId: string, noticeButtonText: string): (entries: seq<DialogItem>)
    ensures |entries| == 2 <==> intro.IntroObject? && Truthy(intro.questionContent) && Truthy(intro.questionText)
    ensures |entries| != 2 ==> entries == []
    ensures |entries| == 2 ==>
      && entries[0].speaker == User && entries[0].text == intro.questionContent.value
      && entries[1].speaker == System && entries[1].text == intro.questionText.value
      && entries[0].questionId == entries[1].questionId == Some(questionId)
      && entries[0].isIntroduction == entries[1].isIntroduction == Some(true)
      && entries[1].noticeButtonText == Some(noticeButtonText)
  {
    var (question, reply) := IntroTexts(intro);
    if question != "" && reply != "" then
      [Entry(User, question).(questionId := Some(questionId), isIntroduction := Some(true)),
       Entry(System, reply).(questionId := Some(questionId), isIntroduction := Some(true),
                             noticeButtonText := Some(noticeButtonText))]
    else []
  }

  /** A bare introduction string never adds anything, whatever it says. */
  lemma IntroStringAddsNothing(text: string, questionId: string, noticeButtonText: string)
    ensures IntroEntries(IntroString(text), questionId, noticeButtonText) == []
  {
  }

  /** `addUserMessage`: one user entry, with the given id when it is truthy, else a fresh one. */
  function AddUserMessage(history: seq<DialogItem>, text: string, questionId: Option<string>, freshId: string)
    : (r: seq<DialogItem>)
    ensures |r| == |history| + 1 && r[..|history|] == history
    ensures r[|history|].speaker == User && r[|history|].text == text
    ensures r[|history|].questionId == Some(if Truthy(questionId) then questionId.value else freshId)
  {
    history + [Entry(User, text).(questionId := Some(OrElse(questionId, freshId)))]
  }

  /** Adding user messages one after another keeps them in order, untouched. */
  lemma AddUserMessagesKeepOrder(history: seq<DialogItem>, a: string, b: string, ida: string, idb: string)
    ensures var h := AddUserMessage(AddUserMessage(history, a, None, ida), b, None, idb);
      |h| == |history| + 2 && h[..|history|] == history && h[|history|].text == a && h[|history| + 1].text == b
  {
    var h1 := AddUserMessage(history, a, None, ida);
    var h := AddUserMessage(h1, b, None, idb);
    assert h[..|history|] == h1[..|history|];
  }

  /** The token-limit screen's history: one system entry offering the way out, with the custom
      message when it is truthy, else the code table's token-limit text. */
  function TokenLimitHistory(customMessage: Option<string>, tokenLimitText: string): (h: seq<DialogItem>)
    ensures |h| == 1 && h[0].speaker == System && h[0].showGoToAction == Some(true)
    ensures h[0].text == (if Truthy(customMessage) then customMessage.value else tokenLimitText)
  {
    [Entry(System, OrElse(customMessage, tokenLimitText)).(showGoToAction := Some(true))]
  }

  /** The one-entry history shown on an error screen. */
  function ErrorScreenHistory(text: string): (h: seq<DialogItem>)
    ensures |h| == 1 && h[0] == Entry(System, text)
  {
    [Entry(System, text)]
  }
}
