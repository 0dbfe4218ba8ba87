/** The chat API's reply as the client sees it, shared by the mock service, the real service and
    the two dialog hooks. */
module ChatResponse {
  import opened Wrappers

  /** The API result codes. */
  const SystemError := "001"
  const BusinessKeywordError := "002"
  const SensitiveDataError := "003"
  const KeywordError := "004"
  const TopicContentError := "005"
  const TokenLimitError := "006"
  const IdleTimeoutError := "007"
  const StoreLimitError := "008"
  const MultipleCategoriesError := "009"
  const LowSimilarityError := "010"
  const Success := "200"

  /** The ten error codes, in numeric order. */
  const ErrorCodes: seq<string> := [SystemError, BusinessKeywordError, SensitiveDataError, KeywordError,
    TopicContentError, TokenLimitError, IdleTimeoutError, StoreLimitError, MultipleCategoriesError,
    LowSimilarityError]

  /** A suggested question: what the home page shows, and the reply shown when it is chosen. */
  datatype QuestionSuggest = QuestionSuggest(questionContent: string, questionText: string)

  /** The generated-answer part of a reply. */
  datatype MessageObject = MessageObject(
    genText: Option<string>,
    errorMessage: Option<string>,
    deeplink: Option<string>,
    questionSuggest: Option<seq<QuestionSuggest>>,
    tid: Option<string>)

  /** The kinds of consumption overview a reply can carry. */
  datatype ModuleType = Chart | Date | TwoStoresChart | OneStoresChart | TwoStores | CategoryModule
                      | Highest | AmountCount | NoData

  /** The wire name of each module type. */
  function ModuleTypeName(t: ModuleType): string {
    match t
    case Chart => "chart"
    case Date => "date"
    case TwoStoresChart => "twoStoresChart"
    case OneStoresChart => "oneStoresChart"
    case TwoStores => "twoStores"
    case CategoryModule => "category"
    case Highest => "highest"
    case AmountCount => "amountCount"
    case NoData => "noData"
  }

  /** Distinct module types have distinct wire names. */
  lemma ModuleTypeNamesDistinct(a: ModuleType, b: ModuleType)
    ensures ModuleTypeName(a) == ModuleTypeName(b) <==> a == b
  {
  }

  /** The fixed consumption records the mock service answers with, by name. */
  datatype Fixture = ChartRecord | DateRecord | TwoStoresChartRecord | OneStoresChartRecord
                   | TwoStoresRecord | CategoryRecord | HighestRecord | AmountCountRecord
                   | NoDataRecord | NegativePieRecord

  datatype ConsumptionModule = ConsumptionModule(moduleType: ModuleType, data: Fixture, systemResponse: string)

  /** The `data` object of a reply; only its `response` text is read. */
  datatype ResponseData = ResponseData(response: Option<string>)

  /** The remaining summary fields of a real reply, carried through unchanged. */
  datatype Summary = Summary(
    purchaseSummary: Option<string>,
    period: Option<string>,
    amount: Option<int>,
    highestDate: Option<string>,
    highestAmount: Option<int>,
    details: Option<seq<(string, int)>>,
    requestLimitAmount: Option<int>,
    usedAmount: Option<int>)

  const NoSummary := Summary(None, None, None, None, None, None, None, None)

  /** A reply after the service layer: `code` and `message` are always present. */
  datatype Response = Response(
    code: string,
    message: string,
    data: Option<ResponseData>,
    consumptionModule: Option<ConsumptionModule>,
    messageObject: Option<MessageObject>,
    responseType: Option<string>,
    requestId: Option<string>,
    summary: Summary)
}
