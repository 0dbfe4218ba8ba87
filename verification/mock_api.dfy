/** The mock chat service: the reply to a user input is chosen by the first keyword rule, in a
    fixed order, whose keywords all occur in the lower-cased input; with no match the reply echoes
    the input. Also the mock's code-to-text table. */
module MockApi {
  import opened Wrappers
  import opened JsString
  import opened ChatResponse

  const SuccessMessage := "處理成功"

  /** What a rule answers: a consumption overview, or an error code with its message. */
  datatype Reply = ModuleReply(overview: ConsumptionModule) | ErrorReply(code: string, message: string)

  const MonthPeriod := "2025/01/01 ~ 2025/01/31 期間：<br>"
  const CategoryText := MonthPeriod + "您在百貨公司類別的信用卡消費次數為 17 次，總金額 (折合臺幣) 為 4,000 元。<br>若您查詢的消費類別未列於圖表的前五大項中，可點擊「更多」查看完整的類別明細。"

  /** The texts the rules answer with. */
  const OneStoreText := MonthPeriod + "您在星巴克的信用卡消費次數為 12 次，總金額 (折合臺幣) 為 18,600 元。其中 2025/01/15 的消費金額最高，共 3,500 元。"
  const ChartText := MonthPeriod + "您的信用卡消費次數為 17 次，總金額 (折合臺幣) 為 100,000 元。其中 2025/01/01 的消費金額最高，共 8,000 元。"
  const DateText := "您在 2025/01/01 的信用卡消費次數為 17 次，總金額 (折合臺幣) 為 32,600 元。"
  const TwoStoresText := "您在 2025/01/01 在麥當勞、SOGO 百貨的信用卡消費次數為 22 次，總金額 (折合臺幣) 為 20,000 元。"
  const TwoStoresChartText := MonthPeriod + "您在麥當勞的信用卡消費次數為 17 次，總金額 (折合臺幣) 為 32,200 元。其中 2025/01/01 的消費金額最高，共 8,000 元。<br>您在SOGO 百貨的信用卡消費次數為 8 次，總金額 (折合臺幣) 為 32,200 元。其中 2025/01/25 的消費金額最高，共 6,000 元。"
  const HighestText := MonthPeriod + "您最高額的單筆消費為金額 (折合臺幣) 1,000 元。"
  const AmountCountText := MonthPeriod + "您的信用卡單筆消費金額大於 (≥) 1,000 元的筆數共 17 筆，總金額 (折合臺幣) 為 66,000 元。"
  const NoDataText := "查無符合條件的消費，或消費明細尚未出帳。"
  const SystemErrorText := "目前系統發生非預期的狀況，請您稍後再試或聯繫客服。(Error Code)"
  const BusinessKeywordText := "您的問題包含業務專屬關鍵字，請重新提問。"
  const SensitiveDataText := "請勿輸入個人資料 (如身分證字號、聯絡方式等)。建議您詢問其他問題。"
  const KeywordText := "您的問題包含無法處理的關鍵字，請重新提問。"
  const TopicContentText := "您的問題主題不適合在此討論，請重新提問。"
  const TokenLimitText := "您的問題已達到處理上限，請縮短問題或分多次提問。"
  const IdleTimeoutText := "因長時間未操作，系統已自動登出，請重新登入。"
  const StoreLimitText := "目前一次只能查詢 2 間店家的消費資訊。"
  const MultipleCategoriesText := "目前一次只能查詢 1 種消費類別的資訊。"
  const LowSimilarityText := "您的問題相似度過低，請重新提問。"

  /** The keywords of each rule, in the order the service tests them: ten consumption modules,
      then ten errors. A rule applies when all of its keywords occur in the lower-cased input. */
  const RuleKeywords: seq<seq<string>> := [
    ["全負餅"], ["一店"], ["一線"], ["無線"], ["兩店"], ["二線"], ["消費類別"], ["最高消費"], ["金額大於"], ["無資訊"],
    ["系統"], ["業務"], ["機敏"], ["關鍵字"], ["主題"], ["上限"], ["閒置"], ["特店", "超過"], ["類別", "超過"], ["相似度"]
  ]

  /** Index of the first error rule, after the consumption modules. */
  const FirstErrorRule := 10

  /** The reply of rule `i`. */
  function RuleReply(i: nat): Reply
    requires i < |RuleKeywords|
  {
    if i == 0 then ModuleReply(ConsumptionModule(CategoryModule, NegativePieRecord, CategoryText))
    else if i == 1 then ModuleReply(ConsumptionModule(OneStoresChart, OneStoresChartRecord, OneStoreText))
    else if i == 2 then ModuleReply(ConsumptionModule(Chart, ChartRecord, ChartText))
    else if i == 3 then ModuleReply(ConsumptionModule(Date, DateRecord, DateText))
    else if i == 4 then ModuleReply(ConsumptionModule(TwoStores, TwoStoresRecord, TwoStoresText))
    else if i == 5 then ModuleReply(ConsumptionModule(TwoStoresChart, TwoStoresChartRecord, TwoStoresChartText))
    else if i == 6 then ModuleReply(ConsumptionModule(CategoryModule, CategoryRecord, CategoryText))
    else if i == 7 then ModuleReply(ConsumptionModule(Highest, HighestRecord, HighestText))
    else if i == 8 then ModuleReply(ConsumptionModule(AmountCount, AmountCountRecord, AmountCountText))
    else if i == 9 then ModuleReply(ConsumptionModule(NoData, NoDataRecord, NoDataText))
    else if i == 10 then ErrorReply(SystemError, SystemErrorText)
    else if i == 11 then ErrorReply(BusinessKeywordError, BusinessKeywordText)
    else if i == 12 then ErrorReply(SensitiveDataError, SensitiveDataText)
    else if i == 13 then ErrorReply(KeywordError, KeywordText)
    else if i == 14 then ErrorReply(TopicContentError, TopicContentText)
    else if i == 15 then ErrorReply(TokenLimitError, TokenLimitText)
    else if i == 16 then ErrorReply(IdleTimeoutError, IdleTimeoutText)
    else if i == 17 then ErrorReply(StoreLimitError, StoreLimitText)
    else if i == 18 then ErrorReply(MultipleCategoriesError, MultipleCategoriesText)
    else ErrorReply(LowSimilarityError, LowSimilarityText)
  }

  /** The first ten rules give a consumption module, the rest an error. */
  lemma RuleKind(i: nat)
    requires i < |RuleKeywords|
    ensures RuleReply(i).ModuleReply? <==> i < FirstErrorRule
  {
  }

  predicate Applies(keywords: seq<string>, lower: string) {
    forall k :: 0 <= k < |keywords| ==> Includes(lower, keywords[k])
  }

  /** The index of the first rule, from `from` on, that applies. */
  function FirstMatch(lower: string, from: nat): (r: Option<nat>)
    requires from <= |RuleKeywords|
    ensures r.Some? ==> from <= r.value < |RuleKeywords| && Applies(RuleKeywords[r.value], lower)
    ensures r.Some? ==> forall j :: from <= j < r.value ==> !Applies(RuleKeywords[j], lower)
    ensures r.None? ==> forall j :: from <= j < |RuleKeywords| ==> !Applies(RuleKeywords[j], lower)
    decreases |RuleKeywords| - from
  {
    if from == |RuleKeywords| then None
    else if Applies(RuleKeywords[from], lower) then Some(from)
    else FirstMatch(lower, from + 1)
  }

  /** The text the mock echoes when no rule applies. */
  function EchoText(userInput: string): string {
    "您的問題「" + userInput + "」已成功處理。"
  }

  /** The reply the mock resolves with for `userInput`. */
  function MockChat(userInput: string): (r: Response)
    ensures r.data.Some? <==> FirstMatch(ToLower(userInput), 0).None?
    ensures r.consumptionModule.Some? ==> r.code == Success && r.data.None?
  {
    match FirstMatch(ToLower(userInput), 0)
    case Some(i) =>
      (match RuleReply(i)
       case ModuleReply(m) => Response(Success, SuccessMessage, None, Some(m), None, None, None, NoSummary)
       case ErrorReply(code, message) => Response(code, message, None, None, None, None, None, NoSummary))
    case None =>
      Response(Success, SuccessMessage, Some(ResponseData(Some(EchoText(userInput)))), None, None, None, None, NoSummary)
  }

  /** The reply is decided by the first rule that applies: a module rule gives a success carrying
      its overview, an error rule its code and message with neither overview nor data. */
  lemma MockChatFollowsFirstRule(userInput: string, i: nat)
    requires i < |RuleKeywords| && Applies(RuleKeywords[i], ToLower(userInput))
    requires forall j :: 0 <= j < i ==> !Applies(RuleKeywords[j], ToLower(userInput))
    ensures RuleReply(i).ModuleReply? ==>
      MockChat(userInput).code == Success && MockChat(userInput).consumptionModule == Some(RuleReply(i).overview)
      && MockChat(userInput).data.None?
    ensures RuleReply(i).ErrorReply? ==>
      MockChat(userInput).code == RuleReply(i).code && MockChat(userInput).message == RuleReply(i).message
      && MockChat(userInput).consumptionModule.None? && MockChat(userInput).data.None?
  {
    var r := FirstMatch(ToLower(userInput), 0);
    assert r == Some(i);
  }

  /** Every rule keyword is free of ASCII letters, so case does not affect routing. */
  predicate NoAsciiLetters(kw: string) {
    forall j :: 0 <= j < |kw| ==> !IsAsciiUpper(kw[j]) && !IsAsciiLower(kw[j])
  }

  /** The keywords the lemmas below route on contain no ASCII letters. */
  lemma RoutedKeywordsHaveNoLetters()
    ensures NoAsciiLetters("全負餅") && NoAsciiLetters("一店") && NoAsciiLetters("一線")
    ensures NoAsciiLetters("消費類別") && NoAsciiLetters("特店") && NoAsciiLetters("超過")
  {
  }

  /** A keyword occurs in the lowered input iff it occurs in the input itself. */
  lemma KeywordInLowered(userInput: string, kw: string)
    requires NoAsciiLetters(kw)
    ensures Includes(ToLower(userInput), kw) <==> Includes(userInput, kw)
  {
    LowerIncludesKeyword(userInput, kw);
  }

  /** An input that satisfies any consumption-module rule gets a consumption module, whatever
      error keywords it also holds. */
  lemma ModuleKeywordsWin(userInput: string, i: nat)
    requires i < FirstErrorRule && Applies(RuleKeywords[i], ToLower(userInput))
    ensures MockChat(userInput).code == Success
    ensures MockChat(userInput).consumptionModule.Some?
  {
    var r := FirstMatch(ToLower(userInput), 0);
    assert r.Some? && r.value <= i;
    RuleKind(r.value);
    MockChatFollowsFirstRule(userInput, r.value);
  }

  /** "全負餅" gives the negative-pie record as a category module, before any other rule. */
  lemma NegativePieRoute(userInput: string)
    requires Includes(userInput, "全負餅")
    ensures MockChat(userInput).code == Success
    ensures MockChat(userInput).consumptionModule == Some(ConsumptionModule(CategoryModule, NegativePieRecord, CategoryText))
  {
    RoutedKeywordsHaveNoLetters();
    KeywordInLowered(userInput, "全負餅");
    assert RuleKeywords[0][0] == "全負餅";
    MockChatFollowsFirstRule(userInput, 0);
  }

  /** Both "上限" and "一線" (and neither earlier keyword): the chart module wins over the
      token-limit error. */
  lemma ChartBeatsTokenLimit(userInput: string)
    requires Includes(userInput, "上限") && Includes(userInput, "一線")
    requires !Includes(userInput, "全負餅") && !Includes(userInput, "一店")
    ensures MockChat(userInput).code == Success
    ensures MockChat(userInput).consumptionModule.Some? && MockChat(userInput).consumptionModule.value.moduleType == Chart
  {
    var lower := ToLower(userInput);
    RoutedKeywordsHaveNoLetters();
    KeywordInLowered(userInput, "全負餅");
    KeywordInLowered(userInput, "一店");
    KeywordInLowered(userInput, "一線");
    assert !Applies(RuleKeywords[0], lower) by { assert RuleKeywords[0][0] == "全負餅"; }
    assert !Applies(RuleKeywords[1], lower) by { assert RuleKeywords[1][0] == "一店"; }
    assert Applies(RuleKeywords[2], lower) by { assert RuleKeywords[2] == ["一線"]; }
    assert forall j :: 0 <= j < 2 ==> !Applies(RuleKeywords[j], lower);
    MockChatFollowsFirstRule(userInput, 2);
  }

  /** An input naming "消費類別" can never reach the multiple-categories error '009': it is
      answered by a consumption module first. */
  lemma ConsumptionCategoryNeverMultipleCategories(userInput: string)
    requires Includes(userInput, "消費類別")
    ensures MockChat(userInput).code != MultipleCategoriesError
    ensures MockChat(userInput).consumptionModule.Some?
  {
    RoutedKeywordsHaveNoLetters();
    KeywordInLowered(userInput, "消費類別");
    assert RuleKeywords[6][0] == "消費類別";
    ModuleKeywordsWin(userInput, 6);
  }

  /** Rule 17 is the only one answering '008'. */
  lemma StoreLimitRule(i: nat)
    requires i < |RuleKeywords| && RuleReply(i).ErrorReply? && RuleReply(i).code == StoreLimitError
    ensures i == 17
  {
  }

  /** '008' needs both "特店" and "超過": one of them alone never gives it. */
  lemma StoreLimitNeedsBoth(userInput: string)
    requires MockChat(userInput).code == StoreLimitError
    ensures Includes(userInput, "特店") && Includes(userInput, "超過")
  {
    var lower := ToLower(userInput);
    var r := FirstMatch(lower, 0);
    assert r.Some? && RuleReply(r.value).ErrorReply?;
    StoreLimitRule(r.value);
    assert RuleKeywords[17][0] == "特店" && RuleKeywords[17][1] == "超過";
    RoutedKeywordsHaveNoLetters();
    KeywordInLowered(userInput, "特店");
    KeywordInLowered(userInput, "超過");
  }

  /** A reply other than success carries neither a consumption module nor data, and its code is
      one of the ten error codes. */
  lemma ErrorRepliesAreBare(userInput: string)
    requires MockChat(userInput).code != Success
    ensures MockChat(userInput).consumptionModule.None? && MockChat(userInput).data.None?
    ensures MockChat(userInput).code in ErrorCodes
  {
  }

  /** With no rule applying the reply is a success echoing the input between 「」. */
  lemma DefaultEchoesInput(userInput: string)
    requires forall i :: 0 <= i < |RuleKeywords| ==> !Applies(RuleKeywords[i], ToLower(userInput))
    ensures MockChat(userInput).code == Success && MockChat(userInput).consumptionModule.None?
    ensures MockChat(userInput).data == Some(ResponseData(Some(EchoText(userInput))))
    ensures EchoText(userInput)[|"您的問題「"|..|"您的問題「"| + |userInput|] == userInput
  {
    assert FirstMatch(ToLower(userInput), 0).None?;
  }

  /** The mock's code-to-text table. */
  function MockCodeMessage(code: string): (text: string)
    ensures text != ""
    ensures text == "無法識別的回應代碼" <==> code !in ErrorCodes && code != Success
  {
    if code == SystemError then "目前系統發生非預期的狀況，請您稍後再試或聯繫客服。(Error Code)"
    else if code == BusinessKeywordError then "由於目前只提供信用卡「消費分析」的服務，建議您詢問其他問題。"
    else if code == SensitiveDataError then "請勿輸入個人資料 (如身分證字號、聯絡方式等)。建議您詢問其他問題。"
    else if code == KeywordError then "無法回應不合適的內容。建議您詢問其他問題。"
    else if code == TopicContentError then "無法回應不合適的內容。建議您詢問其他問題。"
    else if code == TokenLimitError then "您今日的詢問次數已達上限，請至「信用卡總覽」繼續查詢，或於隔日再次使用。"
    else if code == IdleTimeoutError then "因長時間未操作，系統已自動登出，請重新登入。"
    else if code == StoreLimitError then "目前一次只能查詢 2 間店家的消費資訊。建議您分批查詢或再次詢問。"
    else if code == MultipleCategoriesError then "目前一次只能查詢 1 種消費類別的資訊。建議您分批查詢或再次詢問。"
    else if code == LowSimilarityError then "感謝您的詢問與回覆。由於目前只提供信用卡「消費分析」的服務，建議您詢問其他問題。"
    else if code == Success then SuccessMessage
    else "無法識別的回應代碼"
  }

  /** '004' and '005' read the same; '200' reads as success; every other unknown code gets the
      "unrecognised code" text, which no known code produces. */
  lemma MockCodeMessageCases(code: string)
    ensures MockCodeMessage(KeywordError) == MockCodeMessage(TopicContentError)
    ensures MockCodeMessage(Success) == SuccessMessage
    ensures MockCodeMessage(code) == "無法識別的回應代碼" <==> code !in ErrorCodes && code != Success
  {
  }
}
