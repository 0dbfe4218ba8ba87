/** The customer-service front end's dialog hook: the option-click request cycle with its
    loading guard and reply mapping, and the screen transitions around it. The code-to-text table
    of this front end's service layer is a parameter (`codeText`). */
module CsDialog {
  import opened Wrappers
  import opened ChatResponse
  import opened Dialog

  const TokenLimitOption := "查詢次數已達上限"

  datatype CsDialog = CsDialog(
    inputText: string,
    history: seq<DialogItem>,
    selectedOption: Option<string>,
    showIntro: bool,
    idleErrorVisible: bool,
    frontendErrorVisible: bool,
    showRecord: bool,
    isLoading: bool,
    intro: IntroText,
    noticeButtonText: string)

  const InitialDialog := CsDialog("", [], None, true, false, false, false, false, NoIntro, "注意事項")

  /** The result of clicking an option: ignored while a request is in flight, otherwise the
      request goes out under `questionId`. */
  datatype Click = Ignored | Sent(state: CsDialog, questionId: string)

  /** The first half of `handleOptionClick`: the loading guard, the question id, and the user
      entry that is added only when no (truthy) existing id is given. */
  function StartOption(st: CsDialog, option: string, existingId: Option<string>, freshId: string): (c: Click)
    ensures c.Ignored? <==> st.isLoading
    ensures c.Sent? ==>
      && c.questionId == (if Truthy(existingId) then existingId.value else freshId)
      && c.state.isLoading && c.state.selectedOption == Some(option)
      && c.state.history == st.history +
           (if Truthy(existingId) then [] else [Entry(User, option).(questionId := Some(c.questionId))])
  {
    if st.isLoading then Ignored
    else
      var questionId := OrElse(existingId, freshId);
      var history := if Truthy(existingId) then st.history
                     else st.history + [Entry(User, option).(questionId := Some(questionId))];
      Sent(st.(isLoading := true, selectedOption := Some(option), history := history), questionId)
  }

  /** How the request ended. */
  datatype Outcome = Replied(response: Response) | Failed

  /** The system entry for a reply. With a truthy generated text: the error message if truthy,
      else the generated text, feedback buttons iff the type is "200", the deeplink and the
      suggestions only when present. Otherwise: the reply's `data.response` if truthy, else the
      code's text, no card, and the way-out button only for the token-limit code. */
  function ReplyEntry(response: Response, questionId: string, codeText: string -> string): (e: DialogItem)
    ensures e.speaker == System && e.questionId == Some(questionId)
    ensures var mo := response.messageObject;
      mo.Some? && Truthy(mo.value.genText) ==>
        && e.text == (if Truthy(mo.value.errorMessage) then mo.value.errorMessage.value else mo.value.genText.value)
        && e.withFeedback == Some(response.responseType == Some("200"))
        && (e.deeplink.Some? <==> Truthy(mo.value.deeplink))
        && (e.recommendQuestions.Some? <==> mo.value.questionSuggest.Some? && |mo.value.questionSuggest.value| > 0)
        && e.withCard.None? && e.showGoToAction.None?
    ensures var mo := response.messageObject;
      !(mo.Some? && Truthy(mo.value.genText)) ==>
        var fromData := if response.data.Some? then response.data.value.response else None;
        && e.text == (if Truthy(fromData) then fromData.value else codeText(response.code))
        && e.withCard == Some(false)
        && (e.showGoToAction == Some(true) <==> response.code == TokenLimitError)
        && (e.showGoToAction.None? <==> response.code != TokenLimitError)
        && e.withFeedback.None? && e.deeplink.None? && e.recommendQuestions.None?
  {
    var mo := response.messageObject;
    if mo.Some? && Truthy(mo.value.genText) then
      var o := mo.value;
      var base := Entry(System, OrElse(o.errorMessage, o.genText.value))
                    .(withFeedback := Some(response.responseType == Some("200")), questionId := Some(questionId));
      var withLink := if Truthy(o.deeplink) then base.(deeplink := o.deeplink) else base;
      if o.questionSuggest.Some? && |o.questionSuggest.value| > 0
      then withLink.(recommendQuestions := o.questionSuggest) else withLink
    else
      var fromData := if response.data.Some? then response.data.value.response else None;
      var base := Entry(System, OrElse(fromData, codeText(response.code)))
                    .(withCard := Some(false), questionId := Some(questionId));
      if response.code == TokenLimitError then base.(showGoToAction := Some(true)) else base
  }

  /** The second half of `handleOptionClick`: loading is cleared and exactly one system entry is
      appended; a failed request gets the system-error text. */
  function CompleteOption(st: CsDialog, questionId: string, outcome: Outcome, codeText: string -> string)
    : (r: CsDialog)
    ensures !r.isLoading
    ensures |r.history| == |st.history| + 1 && r.history[..|st.history|] == st.history
    ensures r.history[|st.history|].speaker == System && r.history[|st.history|].questionId == Some(questionId)
    ensures outcome.Failed? ==> r.history[|st.history|] == Entry(System, codeText(SystemError)).(questionId := Some(questionId))
    ensures r.selectedOption == st.selectedOption && r.inputText == st.inputText
  {
    var entry := match outcome
      case Replied(response) => ReplyEntry(response, questionId, codeText)
      case Failed => Entry(System, codeText(SystemError)).(questionId := Some(questionId));
    st.(isLoading := false, history := st.history + [entry])
  }

  /** A whole click cycle from an idle dialog: the history gains the user entry (unless an id was
      supplied) and then one system entry carrying the same question id, and loading ends. */
  lemma OptionCycle(st: CsDialog, option: string, existingId: Option<string>, freshId: string,
                    outcome: Outcome, codeText: string -> string)
    requires !st.isLoading
    ensures var c := StartOption(st, option, existingId, freshId);
      c.Sent? &&
      var r := CompleteOption(c.state, c.questionId, outcome, codeText);
      var added := if Truthy(existingId) then 0 else 1;
      && !r.isLoading
      && |r.history| == |st.history| + added + 1
      && r.history[..|st.history|] == st.history
      && r.history[|r.history| - 1].questionId == Some(c.questionId)
      && (added == 1 ==> r.history[|st.history|].speaker == User && r.history[|st.history|].questionId == Some(c.questionId))
  {
    var c := StartOption(st, option, existingId, freshId);
    var r := CompleteOption(c.state, c.questionId, outcome, codeText);
    assert r.history[..|st.history|] == c.state.history[..|st.history|];
  }

  /** While a request is in flight every further click is ignored: at most one request at a time. */
  lemma OneRequestAtATime(st: CsDialog, first: string, second: string, existingId: Option<string>,
                          id1: string, id2: string)
    requires !st.isLoading
    ensures StartOption(st, first, existingId, id1).Sent?
    ensures StartOption(StartOption(st, first, existingId, id1).state, second, None, id2).Ignored?
  {
  }

  /** The token-limit screen: the history becomes one way-out entry and the selection names it. */
  function TokenLimit(st: CsDialog, customMessage: Option<string>, codeText: string -> string): (r: CsDialog)
    ensures r.history == TokenLimitHistory(customMessage, codeText(TokenLimitError))
    ensures r.selectedOption == Some(TokenLimitOption)
    ensures r.inputText == st.inputText && r.isLoading == st.isLoading && r.showRecord == st.showRecord
  {
    st.(selectedOption := Some(TokenLimitOption), history := TokenLimitHistory(customMessage, codeText(TokenLimitError)))
  }

  /** The idle-timeout screen: one system entry, the input cleared, the idle flag raised. */
  function IdleTimeout(st: CsDialog, idleText: string): (r: CsDialog)
    ensures r.history == [Entry(System, idleText)] && r.inputText == "" && r.idleErrorVisible
    ensures r.frontendErrorVisible == st.frontendErrorVisible && r.selectedOption == st.selectedOption
  {
    st.(history := ErrorScreenHistory(idleText), idleErrorVisible := true, inputText := "")
  }

  /** The front-end error screen: one system entry, the input cleared, the error flag raised. */
  function FrontendError(st: CsDialog, frontendText: string): (r: CsDialog)
    ensures r.history == [Entry(System, frontendText)] && r.inputText == "" && r.frontendErrorVisible
    ensures r.idleErrorVisible == st.idleErrorVisible && r.selectedOption == st.selectedOption
  {
    st.(history := ErrorScreenHistory(frontendText), frontendErrorVisible := true, inputText := "")
  }

  /** Retrying clears the selection and both error screens, and keeps the history. */
  function Retry(st: CsDialog): (r: CsDialog)
    ensures r.selectedOption.None? && !r.idleErrorVisible && !r.frontendErrorVisible
    ensures r.history == st.history && r.inputText == st.inputText
  {
    st.(selectedOption := None, idleErrorVisible := false, frontendErrorVisible := false)
  }

  /** Either error screen followed by a retry leaves no error screen showing. */
  lemma RetryLeavesErrorScreens(st: CsDialog, idleText: string, frontendText: string)
    ensures var r := Retry(IdleTimeout(st, idleText)); !r.idleErrorVisible && !r.frontendErrorVisible
    ensures var r := Retry(FrontendError(st, frontendText)); !r.idleErrorVisible && !r.frontendErrorVisible
    ensures Retry(IdleTimeout(st, idleText)).history == [Entry(System, idleText)]
  {
  }

  /** Closing clears the selection and the input and hides the record, keeping the history. */
  function Close(st: CsDialog): (r: CsDialog)
    ensures r.selectedOption.None? && r.inputText == "" && !r.showRecord && r.history == st.history
  {
    st.(selectedOption := None, inputText := "", showRecord := false)
  }

  /** `toggleConsumptionDetails`: flips whether the record is shown. */
  function ToggleDetails(st: CsDialog): (r: CsDialog)
    ensures r.showRecord == !st.showRecord && r.history == st.history
  {
    st.(showRecord := !st.showRecord)
  }

  lemma ToggleDetailsTwice(st: CsDialog)
    ensures ToggleDetails(ToggleDetails(st)) == st
  {
  }

  /** `resetConversation`: empty history, no selection, empty input, record and intro hidden. */
  function Reset(st: CsDialog): (r: CsDialog)
    ensures r.history == [] && r.selectedOption.None? && r.inputText == "" && !r.showRecord && !r.showIntro
    ensures r.isLoading == st.isLoading && r.intro == st.intro
  {
    st.(history := [], selectedOption := None, inputText := "", showRecord := false, showIntro := false)
  }

  /** Resetting twice is resetting once, and whatever happened before, two dialogs that agree on
      loading, introduction, error flags and notice text agree after a reset. */
  lemma ResetForgetsConversation(a: CsDialog, b: CsDialog)
    requires a.isLoading == b.isLoading && a.intro == b.intro && a.noticeButtonText == b.noticeButtonText
    requires a.idleErrorVisible == b.idleErrorVisible && a.frontendErrorVisible == b.frontendErrorVisible
    ensures Reset(Reset(a)) == Reset(a)
    ensures Reset(a) == Reset(b)
  {
  }

  /** The introduction option: the history grows by the two introduction entries, or not at all. */
  function IntroOption(st: CsDialog, questionId: string): (r: CsDialog)
    ensures r.history == st.history + IntroEntries(st.intro, questionId, st.noticeButtonText)
    ensures |r.history| == |st.history| + 2 <==>
      st.intro.IntroObject? && Truthy(st.intro.questionContent) && Truthy(st.intro.questionText)
    ensures |r.history| != |st.history| + 2 ==> r == st
  {
    var entries := IntroEntries(st.intro, questionId, st.noticeButtonText);
    if entries == [] then st else st.(history := st.history + entries)
  }

  /** A typed user message. */
  function UserMessage(st: CsDialog, text: string, questionId: Option<string>, freshId: string): (r: CsDialog)
    ensures |r.history| == |st.history| + 1 && r.history[..|st.history|] == st.history
    ensures r.history[|st.history|].speaker == User
  {
    st.(history := AddUserMessage(st.history, text, questionId, freshId))
  }
}
