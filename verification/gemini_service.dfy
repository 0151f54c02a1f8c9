/**
 * The pure parts of the three calls to the generative-AI backend. The
 * backend itself is not modelled: each function takes the settled outcome of
 * the backend call (what it returned, or the message it threw) as a parameter
 * and computes what the service hands back to its caller.
 */
module GeminiService {
  import opened JsValues
  import opened JsStrings
  import opened Types

  // ---------------------------------------------------------------- chat

  /** How many of the most recent messages are forwarded as chat history. */
  const HistoryLimit: nat := 10

  const EmptyReplyText: string := "AI 未返回任何响应。"
  const TimeoutText: string := "模型连接超时或后端服务波动，请稍后再试。"

  /** A history entry in the backend's format: role `"user"` or `"model"` and one text part. */
  datatype ApiTurn = ApiTurn(role: string, text: string)

  /** What the chat session is created with and then sent. */
  datatype ChatRequest = ChatRequest(history: seq<ApiTurn>, message: string)

  /** `msg.role === 'ai' ? 'model' : 'user'` */
  function ApiRole(r: Role): (role: string)
    ensures role == "model" <==> r.Ai?
    ensures role == "user" <==> r.User?
  {
    var model, user := "model", "user";
    assert |model| != |user|;
    if r == Ai then model else user
  }

  /** Reads a backend turn back as a chat message. */
  function FromTurn(t: ApiTurn): ChatMessage {
    ChatMessage(if t.role == "model" then Ai else User, t.text)
  }

  /** A message in the backend's format: its text as the one part, and a role it can be read back from. */
  function ToTurn(m: ChatMessage): (t: ApiTurn)
    ensures t.text == m.content
    ensures FromTurn(t) == m
  {
    ApiTurn(ApiRole(m.role), m.content)
  }

  /** `history.slice(-10).map(...)`: the most recent messages in the backend's format, oldest first. */
  function RecentHistory(history: seq<ChatMessage>): (r: seq<ApiTurn>)
    ensures |r| == Min(HistoryLimit, |history|)
    ensures forall i :: 0 <= i < |r| ==> r[i] == ToTurn(history[|history| - |r| + i])
  {
    var window := Slice(history, -(HistoryLimit as int), |history|);
    seq(|window|, i requires 0 <= i < |window| => ToTurn(window[i]))
  }

  /** The conversion loses nothing: reading the turns back gives exactly the last messages. */
  lemma RecentHistoryIsWindow(history: seq<ChatMessage>)
    ensures var r := RecentHistory(history);
      && seq(|r|, i requires 0 <= i < |r| => FromTurn(r[i])) == history[|history| - |r|..]
      && (|history| >= HistoryLimit ==> |r| == HistoryLimit)
      && (|history| <= HistoryLimit ==> seq(|r|, i requires 0 <= i < |r| => FromTurn(r[i])) == history)
  {
    var r := RecentHistory(history);
    forall i | 0 <= i < |r|
      ensures FromTurn(r[i]) == history[|history| - |r|..][i]
    {
      var m := history[|history| - |r| + i];
      assert r[i] == ToTurn(m);
      assert m.role == Ai || m.role == User;
    }
  }

  /** The request the chat session is built from: the recent history and the new prompt. */
  function ChatRequestFor(prompt: string, history: seq<ChatMessage>): (req: ChatRequest)
    ensures req.message == prompt
    ensures |req.history| == Min(HistoryLimit, |history|)
    ensures forall i :: 0 <= i < |req.history| ==> req.history[i] == ToTurn(history[|history| - |req.history| + i])
  {
    ChatRequest(RecentHistory(history), prompt)
  }

  lemma TimeoutTextIsClean()
    ensures !Includes(TimeoutText, "xhr") && !Includes(TimeoutText, "500")
  {
    var t, x, f := TimeoutText, "xhr", "500";
    assert x[0] == 'x' && f[0] == '5';
    assert 'x' !in t && '5' !in t;
    NotIncludedWithoutHead(t, x);
    NotIncludedWithoutHead(t, f);
  }

  /**
   * The error the service rethrows: a fixed timeout message when the
   * backend's message mentions `xhr` or `500`, otherwise the backend's own.
   */
  function ReclassifyError(message: string): (r: string)
    ensures Includes(message, "xhr") || Includes(message, "500") ==> r == TimeoutText
    ensures !Includes(message, "xhr") && !Includes(message, "500") ==> r == message
    ensures !Includes(r, "xhr") && !Includes(r, "500")
  {
    TimeoutTextIsClean();
    if Includes(message, "xhr") || Includes(message, "500") then TimeoutText else message
  }

  /**
   * `brainstormGameIdea` once the backend has answered: the reply text, or a
   * fixed text when the reply has none; a thrown error is reclassified and
   * rethrown.
   */
  function BrainstormGameIdea(reply: Settled<Option<string>>): (r: Settled<string>)
    ensures r.Returned? <==> reply.Returned?
    ensures r.Returned? ==> r.value != ""
    ensures r.Returned? && Truthy(reply.value) ==> r.value == reply.value.value
    ensures r.Returned? && !Truthy(reply.value) ==> r.value == EmptyReplyText
    ensures r.Threw? ==> r.message == ReclassifyError(reply.message)
  {
    match reply
    case Returned(text) => Returned(OrElse(text, EmptyReplyText))
    case Threw(message) => Threw(ReclassifyError(message))
  }

  // -------------------------------------------------------------- sprites

  const SpritePromptPrefix: string := "A high-quality 2D pixel art sprite of "
  const SpritePromptSuffix: string := ". Pure white background, clean outlines, high contrast, retro 16-bit console style, game asset."

  /** The image prompt: the description, verbatim, inside a fixed template. */
  function SpritePrompt(description: string): (r: string)
    ensures |r| == |SpritePromptPrefix| + |description| + |SpritePromptSuffix|
    ensures r[..|SpritePromptPrefix|] == SpritePromptPrefix
    ensures r[|SpritePromptPrefix|..|r| - |SpritePromptSuffix|] == description
    ensures r[|r| - |SpritePromptSuffix|..] == SpritePromptSuffix
  {
    SpritePromptPrefix + description + SpritePromptSuffix
  }

  /** Different descriptions give different prompts. */
  lemma SpritePromptInjective(a: string, b: string)
    requires SpritePrompt(a) == SpritePrompt(b)
    ensures a == b
  {
    var r := SpritePrompt(a);
    assert a == r[|SpritePromptPrefix|..|r| - |SpritePromptSuffix|];
  }

  datatype InlineData = InlineData(mimeType: Option<string>, data: Option<string>)
  datatype Part = Part(text: Option<string>, inlineData: Option<InlineData>)
  datatype Content = Content(parts: Option<seq<Part>>)
  datatype Candidate = Candidate(content: Option<Content>)
  datatype ImageResponse = ImageResponse(candidates: Option<seq<Candidate>>)

  const DataUriPrefix: string := "data:image/png;base64,"

  /** The template literal around `inlineData.data`; a missing value renders as `undefined`. */
  function DataUri(data: Option<string>): (r: string)
    ensures r != "" && StartsWith(r, DataUriPrefix)
    ensures data.Some? ==> r[|DataUriPrefix|..] == data.value
    ensures data.None? ==> r[|DataUriPrefix|..] == "undefined"
  {
    DataUriPrefix + (match data case Some(d) => d case None => "undefined")
  }

  /** `response.candidates?.[0]?.content?.parts || []` */
  function ResponseParts(response: ImageResponse): seq<Part> {
    match response.candidates
    case None => []
    case Some(candidates) =>
      if |candidates| == 0 then []
      else match candidates[0].content
        case None => []
        case Some(content) => match content.parts
          case None => []
          case Some(parts) => parts
  }

  /** The loop over the parts: the data URI of the first part carrying inline data, if any. */
  function FirstInlineImage(parts: seq<Part>): (r: Option<string>)
    ensures r.None? <==> forall i :: 0 <= i < |parts| ==> parts[i].inlineData.None?
    ensures r.Some? ==> exists k :: (0 <= k < |parts| && parts[k].inlineData.Some?
      && (forall j :: 0 <= j < k ==> parts[j].inlineData.None?)
      && r.value == DataUri(parts[k].inlineData.value.data))
  {
    if parts == [] then None
    else if parts[0].inlineData.Some? then Some(DataUri(parts[0].inlineData.value.data))
    else
      var r := FirstInlineImage(parts[1..]);
      assert forall k :: 0 <= k < |parts[1..]| ==> parts[1..][k] == parts[k + 1];
      r
  }

  /**
   * `generatePixelSprite` once the backend has answered: the first inline
   * image as a data URI, or `null` when there is none or the call threw. It
   * never throws itself.
   */
  function GeneratePixelSprite(call: Settled<ImageResponse>): (r: Option<string>)
    ensures call.Threw? ==> r.None?
    ensures call.Returned? ==> r == FirstInlineImage(ResponseParts(call.value))
    ensures r.Some? ==> Truthy(r) && StartsWith(r.value, DataUriPrefix)
    ensures call.Returned? ==>
      (r.Some? <==> exists i :: 0 <= i < |ResponseParts(call.value)| && ResponseParts(call.value)[i].inlineData.Some?)
  {
    match call
    case Threw(_) => None
    case Returned(response) => FirstInlineImage(ResponseParts(response))
  }

  // ------------------------------------------------------------- concepts

  const ConceptEmptyText: string := "无法编织命运之线。"
  const ConceptErrorText: string := "命理波动异常，请重新尝试抽取。"

  const ConceptLead: string := "结合 MBTI 类型 \""
  const ConceptMiddle: string := "\" 和塔罗牌 \""
  const ConceptTail: string := "\"，为一个像素风格游戏创造一个深刻的角色原型或世界观概念。\n  请包括：\n  1. 概念名称 (Concept Name)\n  2. 角色故事背景 (Backstory)\n  3. 核心游戏机制/技能 (Core Mechanic)\n  4. 像素视觉设计建议 (Visual Style Guide)\n  请使用专业、充满神秘感且富有想象力的语言，以 Markdown 格式输出。"

  /** The concept prompt: the type label and the card, verbatim and quoted, inside a fixed template. */
  function ConceptPrompt(mbti: string, tarot: string): (r: string)
    ensures |r| == |ConceptLead| + |mbti| + |ConceptMiddle| + |tarot| + |ConceptTail|
    ensures r[..|ConceptLead|] == ConceptLead
    ensures r[|ConceptLead|..|ConceptLead| + |mbti|] == mbti
    ensures r[|ConceptLead| + |mbti|..|ConceptLead| + |mbti| + |ConceptMiddle|] == ConceptMiddle
    ensures r[|ConceptLead| + |mbti| + |ConceptMiddle|..|r| - |ConceptTail|] == tarot
    ensures r[|r| - |ConceptTail|..] == ConceptTail
  {
    ConceptLead + mbti + ConceptMiddle + tarot + ConceptTail
  }

  /** The type label and the card can be read back from the prompt. */
  lemma ConceptPromptInjective(mbti: string, tarot: string, mbti': string, tarot': string)
    requires |mbti| == |mbti'|
    requires ConceptPrompt(mbti, tarot) == ConceptPrompt(mbti', tarot')
    ensures mbti == mbti' && tarot == tarot'
  {
    var r := ConceptPrompt(mbti, tarot);
    assert mbti == r[|ConceptLead|..|ConceptLead| + |mbti|];
    assert tarot == r[|ConceptLead| + |mbti| + |ConceptMiddle|..|r| - |ConceptTail|];
  }

  /**
   * `generateTarotMbtiConcept` once the backend has answered: the reply text,
   * a fixed text when the reply has none, and another fixed text when the
   * call threw. It never throws and never yields an empty concept.
   */
  function GenerateTarotMbtiConcept(call: Settled<Option<string>>): (r: string)
    ensures r != ""
    ensures call.Threw? ==> r == ConceptErrorText
    ensures call.Returned? && Truthy(call.value) ==> r == call.value.value
    ensures call.Returned? && !Truthy(call.value) ==> r == ConceptEmptyText
  {
    match call
    case Returned(text) => OrElse(text, ConceptEmptyText)
    case Threw(_) => ConceptErrorText
  }
}
