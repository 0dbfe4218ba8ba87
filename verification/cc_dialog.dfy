/** The credit-card front end's dialog hook: the screen transitions on its dialog history. */
module CcDialog {
  import opened Wrappers
  import opened ChatResponse
  import opened Dialog
  import ApiService

  datatype CcDialog = CcDialog(
    inputText: string,
    history: seq<DialogItem>,
    idleErrorVisible: bool,
    frontendErrorVisible: bool,
    showRecord: bool,
    isLoading: bool,
    intro: IntroText,
    noticeButtonText: string)

  const InitialDialog := CcDialog("", [], false, false, false, false, NoIntro, "注意事項")

  /** The token-limit screen: the history becomes one way-out entry, with the custom message or
      the service's token-limit text. */
  function TokenLimit(st: CcDialog, customMessage: Option<string>): (r: CcDialog)
    ensures |r.history| == 1 && r.history[0].speaker == System && r.history[0].showGoToAction == Some(true)
    ensures r.history[0].text == (if Truthy(customMessage) then customMessage.value
                                  else ApiService.CodeMessage(TokenLimitError))
    ensures r.history[0].text != ""
    ensures r.inputText == st.inputText && r.showRecord == st.showRecord && r.isLoading == st.isLoading
  {
    st.(history := TokenLimitHistory(customMessage, ApiService.CodeMessage(TokenLimitError)))
  }

  /** The screen does not depend on what was said before: any two dialogs that differ only in
      their history look the same after it. */
  lemma TokenLimitForgetsHistory(st: CcDialog, other: seq<DialogItem>, customMessage: Option<string>)
    ensures TokenLimit(st, customMessage) == TokenLimit(st.(history := other), customMessage)
  {
  }

  /** The idle-timeout screen: one system entry, the input cleared, the idle flag raised. */
  function IdleTimeout(st: CcDialog, idleText: string): (r: CcDialog)
    ensures r.history == [Entry(System, idleText)] && r.inputText == "" && r.idleErrorVisible
    ensures r.frontendErrorVisible == st.frontendErrorVisible && r.showRecord == st.showRecord
  {
    st.(history := ErrorScreenHistory(idleText), idleErrorVisible := true, inputText := "")
  }

  /** The front-end error screen: one system entry, the input cleared, the error flag raised. */
  function FrontendError(st: CcDialog, frontendText: string): (r: CcDialog)
    ensures r.history == [Entry(System, frontendText)] && r.inputText == "" && r.frontendErrorVisible
    ensures r.idleErrorVisible == st.idleErrorVisible && r.showRecord == st.showRecord
  {
    st.(history := ErrorScreenHistory(frontendText), frontendErrorVisible := true, inputText := "")
  }

  /** Showing an error screen twice is showing it once. */
  lemma ErrorScreensIdempotent(st: CcDialog, idleText: string, frontendText: string)
    ensures IdleTimeout(IdleTimeout(st, idleText), idleText) == IdleTimeout(st, idleText)
    ensures FrontendError(FrontendError(st, frontendText), frontendText) == FrontendError(st, frontendText)
  {
  }

  /** `toggleConsumptionDetails`: flips whether the record is shown. */
  function ToggleDetails(st: CcDialog): (r: CcDialog)
    ensures r.showRecord == !st.showRecord && r.history == st.history
  {
    st.(showRecord := !st.showRecord)
  }

  lemma ToggleDetailsTwice(st: CcDialog)
    ensures ToggleDetails(ToggleDetails(st)) == st
  {
  }

  /** `resetConversation`: empty history, empty input, record hidden; error flags untouched. */
  function Reset(st: CcDialog): (r: CcDialog)
    ensures r.history == [] && r.inputText == "" && !r.showRecord
    ensures r.idleErrorVisible == st.idleErrorVisible && r.frontendErrorVisible == st.frontendErrorVisible
    ensures r.isLoading == st.isLoading && r.intro == st.intro
  {
    st.(history := [], inputText := "", showRecord := false)
  }

  /** Reset after an error screen keeps its flag raised: nothing in this hook lowers it. */
  lemma ResetKeepsErrorScreen(st: CcDialog, idleText: string)
    ensures Reset(IdleTimeout(st, idleText)).idleErrorVisible
    ensures Reset(Reset(st)) == Reset(st)
  {
  }

  /** The introduction option: the history grows by the two introduction entries, or not at all. */
  function IntroOption(st: CcDialog, questionId: string): (r: CcDialog)
    ensures r.history == st.history + IntroEntries(st.intro, questionId, st.noticeButtonText)
    ensures |r.history| == |st.history| + 2 <==>
      st.intro.IntroObject? && Truthy(st.intro.questionContent) && Truthy(st.intro.questionText)
    ensures |r.history| != |st.history| + 2 ==> r == st
  {
    var entries := IntroEntries(st.intro, questionId, st.noticeButtonText);
    if entries == [] then st else st.(history := st.history + entries)
  }

  /** A typed user message: exactly one user entry at the end, earlier entries untouched. */
  function UserMessage(st: CcDialog, text: string, questionId: Option<string>, freshId: string): (r: CcDialog)
    ensures |r.history| == |st.history| + 1 && r.history[..|st.history|] == st.history
    ensures r.history[|st.history|].speaker == User && r.history[|st.history|].text == text
  {
    st.(history := AddUserMessage(st.history, text, questionId, freshId))
  }
}
