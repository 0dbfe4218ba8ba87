/** The real chat service's client-side logic: the code-to-text table, the `tid` taken from the
    user's text, the normalisation of a server reply, the remembered request id, and the device
    strings of session initialisation. */
module ApiService {
  import opened Wrappers
  import opened JsString
  import opened ChatResponse
  import MockApi

  /** The service's code-to-text table: error codes get their text, everything else the empty
      string (a success shows the reply's own content). */
  function CodeMessage(code: string): (text: string)
    ensures text != "" <==> code in ErrorCodes
  {
    if code == SystemError then "目前系統發生非預期的狀況，請您稍後再試或聯繫客服。(Error Code)"
    else if code == BusinessKeywordError then "由於目前只提供信用卡「消費分析」的服務，建議您詢問其他問題。"
    else if code == SensitiveDataError then "請勿輸入個人資料 (如身分證字號、聯絡方式等)。建議您詢問其他問題。"
    else if code == KeywordError then "無法回應不合適的內容。建議您詢問其他問題。"
    else if code == TopicContentError then "無法回應不合適的內容。建議您詢問其他問題。"
    else if code == TokenLimitError then "您今日的詢問次數已達上限，請至「信用卡總覽」繼續查詢，或於隔日再次使用。"
    else if code == IdleTimeoutError then "因長時間未操作，系統已自動登出，請重新登入。"
    else if code == StoreLimitError then "目前一次只能查詢 2 間店家的消費資訊。建議您分批查詢或再次詢問。"
    else if code == MultipleCategoriesError then "目前一次只能查詢 1 種消費類別的資訊。建議您分批查詢或再次詢問。"
    else if code == LowSimilarityError then "感謝您的詢問與回覆。由於目前只提供信用卡「消費分析」的服務，建議您詢問其他問題。"
    else ""
  }

  /** The text is non-empty exactly for the ten error codes; '004' and '005' share theirs. */
  lemma CodeMessageCases(code: string)
    ensures CodeMessage(code) != "" <==> code in ErrorCodes
    ensures CodeMessage(KeywordError) == CodeMessage(TopicContentError)
  {
  }

  /** The two tables agree on every error code and differ on everything else: the mock names
      success and unknown codes, the real service leaves them empty. */
  lemma TablesAgreeOnErrors(code: string)
    ensures code in ErrorCodes ==> CodeMessage(code) == MockApi.MockCodeMessage(code)
    ensures code !in ErrorCodes ==> CodeMessage(code) == "" && MockApi.MockCodeMessage(code) != ""
  {
  }

  /** `/tid([A-Za-z0-9]+)/i` matches at `i`: the letters t, i, d in either case, then at least
      one ASCII letter or digit. */
  predicate TidAt(s: string, i: nat) {
    i + 4 <= |s| && ToLower(s[i..i + 3]) == "tid" && IsAsciiAlnum(s[i + 3])
  }

  /** The `i` flag in letter terms: each of t, i, d may be written in either case. */
  lemma TidAtEitherCase(s: string, i: nat)
    ensures TidAt(s, i) <==>
      i + 4 <= |s| && s[i] in "tT" && s[i + 1] in "iI" && s[i + 2] in "dD" && IsAsciiAlnum(s[i + 3])
  {
  }

  /** Length of the longest run of ASCII letters and digits at the start of `s`. */
  function AlnumRun(s: string): (n: nat)
    ensures n <= |s|
    ensures forall j :: 0 <= j < n ==> IsAsciiAlnum(s[j])
    ensures n < |s| ==> !IsAsciiAlnum(s[n])
  {
    if |s| == 0 || !IsAsciiAlnum(s[0]) then 0 else 1 + AlnumRun(s[1..])
  }

  /** The capture of the leftmost match at or after `from`. */
  function TidFrom(s: string, from: nat): (r: Option<string>)
    requires from <= |s|
    ensures r.None? <==> forall i :: from <= i < |s| ==> !TidAt(s, i)
    ensures r.Some? ==> (exists i :: from <= i < |s| && TidAt(s, i)
                                  && (forall j :: from <= j < i ==> !TidAt(s, j))
                                  && r.value == s[i + 3..i + 3 + AlnumRun(s[i + 3..])])
    ensures r.Some? ==> |r.value| >= 1 && forall j :: 0 <= j < |r.value| ==> IsAsciiAlnum(r.value[j])
    decreases |s| - from
  {
    if from == |s| then None
    else if TidAt(s, from) then
      assert s[from + 3..][0] == s[from + 3];
      Some(s[from + 3..from + 3 + AlnumRun(s[from + 3..])])
    else TidFrom(s, from + 1)
  }

  /** The `tid` sent with a chat request: the capture of the first match, or null. */
  function ExtractTid(userInput: string): (tid: Option<string>)
    ensures tid.None? <==> forall i :: 0 <= i < |userInput| ==> !TidAt(userInput, i)
    ensures tid.Some? ==> |tid.value| >= 1 && forall j :: 0 <= j < |tid.value| ==> IsAsciiAlnum(tid.value[j])
  {
    TidFrom(userInput, 0)
  }

  /** The capture is determined by the leftmost match: the maximal run of letters and digits
      after its "tid". */
  lemma {:induction false} TidFromLeftmost(s: string, from: nat, i: nat)
    requires from <= i < |s| && TidAt(s, i)
    requires forall j :: from <= j < i ==> !TidAt(s, j)
    ensures TidFrom(s, from) == Some(s[i + 3..i + 3 + AlnumRun(s[i + 3..])])
    decreases i - from
  {
    if from < i {
      assert !TidAt(s, from);
      TidFromLeftmost(s, from + 1, i);
      assert TidFrom(s, from) == TidFrom(s, from + 1);
    } else {
      assert TidAt(s, from);
    }
  }

  /** The capture stops at the first character that is not a letter or digit, and the letters
      t, i, d match in upper case too. */
  lemma ExtractTidStopsAtPunctuation()
    ensures ExtractTid("查 TID42x-7") == Some("42x")
  {
    var s := "查 TID42x-7";
    assert !TidAt(s, 0) by { assert ToLower(s[0..3])[0] == '查'; }
    assert !TidAt(s, 1) by { assert ToLower(s[1..4])[0] == ' '; }
    assert TidAt(s, 2) by {
      assert s[2..5] == "TID";
      assert ToLower("TID") == "tid";
    }
    assert s[5..5 + AlnumRun(s[5..])] == "42x" by {
      assert s[5..] == "42x-7";
      assert AlnumRun("42x-7") == 3;
    }
    TidFromLeftmost(s, 0, 2);
  }

  /** The body of a chat request. */
  datatype ChatRequestBody = ChatRequestBody(
    sessionId: Option<string>, message: string, isDefault: bool, tid: Option<string>)

  function RequestBody(sessionId: Option<string>, userInput: string): (body: ChatRequestBody)
    ensures body.message == userInput && !body.isDefault && body.sessionId == sessionId
    ensures body.tid.Some? <==> exists i :: 0 <= i < |userInput| && TidAt(userInput, i)
  {
    ChatRequestBody(sessionId, userInput, false, ExtractTid(userInput))
  }

  /** A reply as the server sends it: any field may be missing or empty. */
  datatype RawReply = RawReply(
    code: Option<string>,
    message: Option<string>,
    data: Option<ResponseData>,
    messageObject: Option<MessageObject>,
    responseType: Option<string>,
    requestId: Option<string>,
    summary: Summary)

  /** The reply handed to the dialog: a falsy code becomes '200', a falsy message the success
      text; the generated answer, type, request id and summary fields pass through; `data` is
      not carried over. */
  function Normalise(raw: RawReply): (r: Response)
    ensures r.code == (if Truthy(raw.code) then raw.code.value else Success)
    ensures r.message == (if Truthy(raw.message) then raw.message.value else MockApi.SuccessMessage)
    ensures r.messageObject == raw.messageObject && r.responseType == raw.responseType
    ensures r.requestId == raw.requestId && r.summary == raw.summary
    ensures r.data.None? && r.consumptionModule.None?
  {
    Response(OrElse(raw.code, Success), OrElse(raw.message, MockApi.SuccessMessage), None, None,
             raw.messageObject, raw.responseType, raw.requestId, raw.summary)
  }

  /** A normalised reply always has a non-empty code and message, and normalising it again (as a
      raw reply with the same fields) changes nothing. */
  lemma NormaliseIdempotent(raw: RawReply)
    ensures var r := Normalise(raw);
      r.code != "" && r.message != "" &&
      Normalise(RawReply(Some(r.code), Some(r.message), r.data, r.messageObject, r.responseType, r.requestId, r.summary)) == r
  {
  }

  /** The remembered request id after a reply: replaced only by a truthy one. */
  function RememberRequestId(current: Option<string>, raw: RawReply): (next: Option<string>)
    ensures Truthy(raw.requestId) ==> next == raw.requestId
    ensures !Truthy(raw.requestId) ==> next == current
  {
    if Truthy(raw.requestId) then raw.requestId else current
  }

  /** Replies without a request id never disturb the remembered one, however many arrive. */
  lemma {:induction false} RequestIdSurvivesBareReplies(current: Option<string>, replies: seq<RawReply>)
    requires forall k :: 0 <= k < |replies| ==> !Truthy(replies[k].requestId)
    ensures RememberAll(current, replies) == current
  {
    if |replies| > 0 {
      RequestIdSurvivesBareReplies(RememberRequestId(current, replies[0]), replies[1..]);
    }
  }

  /** The remembered id after a sequence of replies. */
  function RememberAll(current: Option<string>, replies: seq<RawReply>): Option<string>
    decreases |replies|
  {
    if |replies| == 0 then current else RememberAll(RememberRequestId(current, replies[0]), replies[1..])
  }

  /** `${pair[0]},${pair[1]}` for the device and device-version pairs. */
  function DeviceString(first: string, second: string): (s: string)
    ensures |s| == |first| + 1 + |second|
    ensures s[|first|] == ','
  {
    first + "," + second
  }

  /** When neither half contains a comma the server can split the string back into the pair. */
  lemma DeviceStringSplits(first: string, second: string)
    requires forall i :: 0 <= i < |first| ==> first[i] != ','
    requires forall i :: 0 <= i < |second| ==> second[i] != ','
    ensures Split(DeviceString(first, second), ',') == [first, second]
  {
    SplitTwo(first, second, ',');
    assert first + [','] + second == first + "," + second;
  }
}
