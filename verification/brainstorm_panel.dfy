/**
 * The chat panel. The message list belongs to the workspace and is handed
 * in; the panel owns its input field and its busy flag. Sending is split
 * into the synchronous part before the service is awaited (`StartSend`) and
 * the part after it settles (`FinishSend`).
 */
module BrainstormPanel {
  import opened JsValues
  import opened JsStrings
  import opened Types
  import GeminiService

  /** Prefix that marks an error shown as an AI message. */
  const ErrorMarker: string := "❌ "

  /** Shown after the marker when the error carries no message. */
  const ConnectionErrorText: string := "无法连接到设计大脑。请检查网络环境或重试。"

  datatype Panel = Panel(messages: seq<ChatMessage>, input: string, loading: bool)

  /**
   * A send that has been dispatched: the trimmed prompt, and the message list
   * the handler closed over, which does not contain the new user message.
   */
  datatype PendingSend = PendingSend(prompt: string, history: seq<ChatMessage>)

  /** The panel after the synchronous part of a send, and the call it dispatched, if any. */
  datatype SendStart = SendStart(panel: Panel, pending: Option<PendingSend>)

  /** A freshly mounted panel: empty input, not busy. */
  function Mount(messages: seq<ChatMessage>): (p: Panel)
    ensures p.messages == messages && p.input == "" && !p.loading
  {
    Panel(messages, "", false)
  }

  /** Typing: only the input changes, also while a reply is awaited. */
  function EditInput(p: Panel, text: string): (r: Panel)
    ensures r.input == text && r.messages == p.messages && r.loading == p.loading
  {
    p.(input := text)
  }

  /**
   * `handleSend` up to the `await`: ignored when the input is blank or a
   * reply is awaited; otherwise the trimmed input is appended as a user
   * message, the input is cleared and the panel becomes busy.
   */
  function StartSend(p: Panel): (r: SendStart)
    ensures r.pending.None? <==> Blank(p.input) || p.loading
    ensures r.pending.None? ==> r.panel == p
    ensures r.pending.Some? ==>
      && r.panel.loading && r.panel.input == ""
      && |r.panel.messages| == |p.messages| + 1
      && r.panel.messages[..|p.messages|] == p.messages
      && r.panel.messages[|p.messages|] == ChatMessage(User, Trim(p.input))
      && r.pending.value.prompt == Trim(p.input) && r.pending.value.prompt != ""
      && r.pending.value.history == p.messages
  {
    if Blank(p.input) || p.loading then
      SendStart(p, None)
    else
      var prompt := Trim(p.input);
      SendStart(Panel(p.messages + [ChatMessage(User, prompt)], "", true), Some(PendingSend(prompt, p.messages)))
  }

  /** The content of the AI message appended when the call settles. */
  function ReplyContent(outcome: Settled<string>): (c: string)
    ensures outcome.Returned? ==> c == outcome.value
    ensures outcome.Threw? ==> StartsWith(c, ErrorMarker) && |c| > |ErrorMarker|
    ensures outcome.Threw? && outcome.message != "" ==> c[|ErrorMarker|..] == outcome.message
    ensures outcome.Threw? && outcome.message == "" ==> c[|ErrorMarker|..] == ConnectionErrorText
  {
    match outcome
    case Returned(text) => text
    case Threw(message) => ErrorMarker + OrElse(Some(message), ConnectionErrorText)
  }

  /**
   * `handleSend` after the `await`: exactly one AI message is appended to the
   * current list (the reply, or the marked error) and the busy flag is
   * cleared on both paths. The input is left as the user has since typed it.
   */
  function FinishSend(p: Panel, outcome: Settled<string>): (r: Panel)
    ensures !r.loading && r.input == p.input
    ensures |r.messages| == |p.messages| + 1 && r.messages[..|p.messages|] == p.messages
    ensures r.messages[|p.messages|] == ChatMessage(Ai, ReplyContent(outcome))
  {
    Panel(p.messages + [ChatMessage(Ai, ReplyContent(outcome))], p.input, false)
  }

  /** While a reply is awaited, nothing the user types can start a second send. */
  lemma BusyGuard(p: Panel, text: string)
    requires p.loading
    ensures StartSend(EditInput(p, text)) == SendStart(EditInput(p, text), None)
  {
  }

  /**
   * A whole accepted send: the list grows by exactly the user message and one
   * AI message, every earlier message is kept, and the panel ends idle with
   * an empty input. The service was asked with the list as it was before the
   * user message.
   */
  lemma AcceptedSendAppendsTwo(p: Panel, outcome: Settled<string>)
    requires !Blank(p.input) && !p.loading
    ensures var s := StartSend(p);
      var r := FinishSend(s.panel, outcome);
      && s.pending.Some? && s.pending.value.history == p.messages
      && r.messages == p.messages + [ChatMessage(User, Trim(p.input)), ChatMessage(Ai, ReplyContent(outcome))]
      && !r.loading && r.input == ""
  {
    var user, ai := ChatMessage(User, Trim(p.input)), ChatMessage(Ai, ReplyContent(outcome));
    var s := StartSend(p);
    assert s.panel == Panel(p.messages + [user], "", true);
    var r := FinishSend(s.panel, outcome);
    assert r.messages == p.messages + [user] + [ai];
    assert p.messages + [user] + [ai] == p.messages + [user, ai];
  }

  /**
   * What the chat backend receives for an accepted send: at most ten turns,
   * all taken from the messages before the new one, and the new prompt as
   * the message.
   */
  lemma HistorySentExcludesNewMessage(p: Panel)
    requires !Blank(p.input) && !p.loading
    ensures var s := StartSend(p);
      var req := GeminiService.ChatRequestFor(s.pending.value.prompt, s.pending.value.history);
      && req.message == Trim(p.input)
      && |req.history| == Min(GeminiService.HistoryLimit, |p.messages|)
      && forall i :: 0 <= i < |req.history| ==>
           req.history[i] == GeminiService.ToTurn(p.messages[|p.messages| - |req.history| + i])
  {
    assert StartSend(p).pending == Some(PendingSend(Trim(p.input), p.messages));
  }

  lemma ConnectionErrorTextIsClean()
    ensures !Includes(ConnectionErrorText, "xhr") && !Includes(ConnectionErrorText, "500")
  {
    var t, x, f := ConnectionErrorText, "xhr", "500";
    assert x[0] == 'x' && f[0] == '5';
    assert 'x' !in t && '5' !in t;
    NotIncludedWithoutHead(t, x);
    NotIncludedWithoutHead(t, f);
  }

  /** An error whose message does not mention `xhr` or `500` is shown without them. */
  lemma ShownErrorIsClean(outcome: Settled<string>)
    requires outcome.Threw?
    requires !Includes(outcome.message, "xhr") && !Includes(outcome.message, "500")
    ensures !Includes(ReplyContent(outcome), "xhr") && !Includes(ReplyContent(outcome), "500")
  {
    var shown := OrElse(Some(outcome.message), ConnectionErrorText);
    ConnectionErrorTextIsClean();
    assert ReplyContent(outcome) == ErrorMarker + shown;
    var x, f := "xhr", "500";
    assert x[0] == 'x' && f[0] == '5';
    assert 'x' !in ErrorMarker && '5' !in ErrorMarker;
    if Includes(ErrorMarker + shown, x) {
      IncludedPastPrefix(ErrorMarker, shown, x);
    }
    if Includes(ErrorMarker + shown, f) {
      IncludedPastPrefix(ErrorMarker, shown, f);
    }
  }

  /**
   * A send that goes through the chat service: a reply is never empty, and an
   * error shown in the list is marked and never mentions `xhr` or `500`.
   */
  lemma SendThroughService(p: Panel, reply: Settled<Option<string>>)
    requires !Blank(p.input) && !p.loading
    ensures var s := StartSend(p);
      var r := FinishSend(s.panel, GeminiService.BrainstormGameIdea(reply));
      var last := r.messages[|r.messages| - 1];
      && |r.messages| == |p.messages| + 2
      && last.role == Ai && last.content != ""
      && (reply.Returned? && Truthy(reply.value) ==> last.content == reply.value.value)
      && (reply.Threw? ==> StartsWith(last.content, ErrorMarker)
                           && !Includes(last.content, "xhr") && !Includes(last.content, "500"))
  {
    var outcome := GeminiService.BrainstormGameIdea(reply);
    AcceptedSendAppendsTwo(p, outcome);
    if reply.Threw? {
      ShownErrorIsClean(outcome);
    }
  }
}
