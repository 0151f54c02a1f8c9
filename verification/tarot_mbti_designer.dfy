/**
 * The concept weaver: pick a personality type, draw a tarot card, then ask
 * the concept service for a character concept combining the two. Its state
 * is local to the panel and is not persisted. The drawn card's index, which
 * the source computes from `Math.random`, is a parameter.
 */
module TarotMbtiDesigner {
  import opened JsValues
  import opened JsStrings
  import GeminiService

  const MbtiTypes: seq<string> := [
    "INTJ", "INTP", "ENTJ", "ENTP",
    "INFJ", "INFP", "ENFJ", "ENFP",
    "ISTJ", "ISFJ", "ESTJ", "ESFJ",
    "ISTP", "ISFP", "ESTP", "ESFP"
  ]

  const TarotCards: seq<string> := [
    "愚者", "魔术师", "女教皇", "女皇", "皇帝", "教皇", "恋人", "战车",
    "力量", "隐士", "命运之轮", "正义", "倒吊人", "死神", "节制", "恶魔",
    "高塔", "星星", "月亮", "太阳", "审判", "世界"
  ]

  /** The concept shown when the awaited call throws. */
  const BrokenThreadText: string := "命运之线已断裂...请稍后再试。"

  datatype Weaver = Weaver(mbti: string, tarot: Option<string>, concept: string, weaving: bool)

  /** What a dispatched weave asks the concept service for. */
  datatype WeaveRequest = WeaveRequest(mbti: string, tarot: string)

  /** The panel after the synchronous part of a weave, and the request it dispatched, if any. */
  datatype WeaveStart = WeaveStart(weaver: Weaver, pending: Option<WeaveRequest>)

  const InitialWeaver: Weaver := Weaver("INTJ", None, "", false)

  /** The catalogues: 16 type labels including the initial one, and 22 cards; nothing is drawn at first. */
  lemma Catalogues()
    ensures |MbtiTypes| == 16 && InitialWeaver.mbti in MbtiTypes
    ensures |TarotCards| == 22
    ensures InitialWeaver.tarot.None? && InitialWeaver.concept == "" && !InitialWeaver.weaving
  {
  }

  /** No type label is listed twice. */
  lemma MbtiTypesDistinct()
    ensures forall i, j :: 0 <= i < j < |MbtiTypes| ==> MbtiTypes[i] != MbtiTypes[j]
  {
  }

  /** No card is listed twice. */
  lemma TarotCardsDistinct()
    ensures forall i, j :: 0 <= i < j < |TarotCards| ==> TarotCards[i] != TarotCards[j]
  {
  }

  /** A type button: only the selected type changes. */
  function SelectType(w: Weaver, typeLabel: string): (r: Weaver)
    ensures r.mbti == typeLabel
    ensures r.tarot == w.tarot && r.concept == w.concept && r.weaving == w.weaving
  {
    w.(mbti := typeLabel)
  }

  /**
   * `handleDrawTarot`: the card becomes the one at the drawn index (`index`
   * stands for `Math.floor(Math.random() * 22)`) and any concept is cleared.
   * Drawing is possible at any time, also while a weave is awaited.
   */
  function DrawCard(w: Weaver, index: nat): (r: Weaver)
    requires index < |TarotCards|
    ensures r.tarot.Some? && r.tarot.value in TarotCards && r.tarot.value == TarotCards[index]
    ensures r.concept == ""
    ensures r.mbti == w.mbti && r.weaving == w.weaving
  {
    w.(tarot := Some(TarotCards[index]), concept := "")
  }

  /** Every card can be drawn. */
  lemma EveryCardDrawable(w: Weaver, card: string)
    requires card in TarotCards
    ensures exists index :: 0 <= index < |TarotCards| && DrawCard(w, index).tarot == Some(card)
  {
    var index :| 0 <= index < |TarotCards| && TarotCards[index] == card;
    assert DrawCard(w, index).tarot == Some(card);
  }

  /**
   * `handleWeaveDestiny` up to the `await`: ignored without a drawn card or
   * while a weave is awaited; otherwise the panel becomes busy and asks for
   * a concept for the selected type and the drawn card.
   */
  function StartWeave(w: Weaver): (r: WeaveStart)
    ensures r.pending.None? <==> !Truthy(w.tarot) || w.weaving
    ensures r.pending.None? ==> r.weaver == w
    ensures r.pending.Some? ==>
      && r.weaver == w.(weaving := true)
      && r.pending.value == WeaveRequest(w.mbti, w.tarot.value)
  {
    if !Truthy(w.tarot) || w.weaving then WeaveStart(w, None)
    else WeaveStart(w.(weaving := true), Some(WeaveRequest(w.mbti, w.tarot.value)))
  }

  /**
   * `handleWeaveDestiny` after the `await`: the concept becomes the returned
   * text, or a fixed text if the call threw; the busy flag is cleared; the
   * type and the card are left alone.
   */
  function FinishWeave(w: Weaver, outcome: Settled<string>): (r: Weaver)
    ensures !r.weaving && r.mbti == w.mbti && r.tarot == w.tarot
    ensures outcome.Returned? ==> r.concept == outcome.value
    ensures outcome.Threw? ==> r.concept == BrokenThreadText
  {
    match outcome
    case Returned(text) => w.(concept := text, weaving := false)
    case Threw(_) => w.(concept := BrokenThreadText, weaving := false)
  }

  /** Weaving without a drawn card, or while a weave is awaited, changes nothing. */
  lemma WeaveGuard(w: Weaver)
    requires w.tarot.None? || w.weaving
    ensures StartWeave(w).weaver == w && StartWeave(w).pending.None?
  {
  }

  /**
   * A weave that goes through the concept service. The service never throws,
   * so the panel's own catch branch is never reached: the concept shown is
   * the reply text, the service's empty-reply text, or the service's error
   * text. It is never empty, and the panel ends idle with the same type and
   * card.
   */
  lemma WeaveThroughService(w: Weaver, call: Settled<Option<string>>)
    requires Truthy(w.tarot) && !w.weaving
    ensures var s := StartWeave(w);
      var r := FinishWeave(s.weaver, Returned(GeminiService.GenerateTarotMbtiConcept(call)));
      && s.pending == Some(WeaveRequest(w.mbti, w.tarot.value))
      && r.concept != "" && !r.weaving && r.mbti == w.mbti && r.tarot == w.tarot
      && (call.Returned? && Truthy(call.value) ==> r.concept == call.value.value)
      && (call.Returned? && !Truthy(call.value) ==> r.concept == GeminiService.ConceptEmptyText)
      && (call.Threw? ==> r.concept == GeminiService.ConceptErrorText)
  {
  }

  /**
   * Drawing again while a weave is awaited clears the concept, but the late
   * reply then sets a concept that was asked for with the earlier card.
   */
  lemma RedrawDuringWeave(w: Weaver, index: nat, text: string)
    requires Truthy(w.tarot) && !w.weaving
    requires index < |TarotCards| && TarotCards[index] != w.tarot.value
    ensures var s := StartWeave(w);
      var drawn := DrawCard(s.weaver, index);
      var r := FinishWeave(drawn, Returned(text));
      && drawn.concept == ""
      && r.concept == text
      && r.tarot == Some(TarotCards[index])
      && s.pending.value.tarot != r.tarot.value
  {
  }

  /** The concept as rendered: every line break becomes `<br/>`. */
  function ConceptHtml(concept: string): (html: string)
    ensures '\n' !in html
    ensures '\n' !in concept ==> html == concept
    ensures |html| == |concept| + 4 * Count(concept, '\n')
  {
    ReplaceAllLength(concept, '\n', "<br/>");
    ReplaceAll(concept, '\n', "<br/>")
  }

  /** Rendering works line by line: a line break between two parts becomes one `<br/>` between their renderings. */
  lemma ConceptHtmlLines(a: string, b: string)
    ensures ConceptHtml(a + "\n" + b) == ConceptHtml(a) + "<br/>" + ConceptHtml(b)
  {
    var nl, br := "\n", "<br/>";
    assert nl[0] == '\n' && nl[1..] == [];
    assert ReplaceAll(nl, '\n', br) == br + ReplaceAll([], '\n', br) == br;
    ReplaceAllAppend(a + nl, b, '\n', br);
    ReplaceAllAppend(a, nl, '\n', br);
    assert ConceptHtml(a + nl + b) == ReplaceAll(a + nl + b, '\n', br);
  }
}
