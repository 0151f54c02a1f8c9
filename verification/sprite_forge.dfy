/**
 * The sprite gallery. The asset list belongs to the workspace and is kept
 * newest first; the panel owns its prompt field, its busy flag and the
 * current page. Generating is split into the part before the image service
 * is awaited (`StartGenerate`) and the part after it settles
 * (`FinishGenerate`); the new asset's id and timestamp, which the source
 * draws from `Math.random` and `Date.now`, are parameters.
 */
module SpriteForge {
  import opened JsValues
  import opened JsStrings
  import opened Types
  import GeminiService

  const ItemsPerPage: nat := 8

  datatype Forge = Forge(assets: seq<SpriteAsset>, prompt: string, generating: bool, page: int)

  /** The panel after the synchronous part of a generate, and the prompt it sent, if any. */
  datatype GenerateStart = GenerateStart(forge: Forge, pending: Option<string>)

  /** A freshly mounted panel: empty prompt, not busy, first page. */
  function Mount(assets: seq<SpriteAsset>): (f: Forge)
    ensures f.assets == assets && f.prompt == "" && !f.generating && f.page == 1
  {
    Forge(assets, "", false, 1)
  }

  // ------------------------------------------------------------ pagination

  /** `Math.ceil(n / 8)`: the least number of pages of eight that hold `n` assets. */
  function TotalPages(n: nat): (r: nat)
    ensures r * ItemsPerPage >= n
    ensures r == 0 || (r - 1) * ItemsPerPage < n
    ensures r == 0 <==> n == 0
  {
    (n + ItemsPerPage - 1) / ItemsPerPage
  }

  /**
   * `assets.slice((page - 1) * 8, page * 8)`: at most eight assets, and for a
   * page from 1 on, those between the page's boundaries clamped to the list.
   */
  function DisplayedAssets(assets: seq<SpriteAsset>, page: int): (shown: seq<SpriteAsset>)
    ensures |shown| <= ItemsPerPage
    ensures page >= 1 ==> shown == assets[Min((page - 1) * ItemsPerPage, |assets|)..Min(page * ItemsPerPage, |assets|)]
  {
    var n, start, end := |assets|, (page - 1) * ItemsPerPage, page * ItemsPerPage;
    assert SliceIndex(end, n) - SliceIndex(start, n) <= ItemsPerPage;
    assert page >= 1 ==> 0 <= start <= end && SliceIndex(start, n) == Min(start, n) && SliceIndex(end, n) == Min(end, n);
    Slice(assets, start, end)
  }

  /**
   * Every page from the first to the last holds `min(8, n - (page - 1) * 8)`
   * assets, taken in order from position `(page - 1) * 8`.
   */
  lemma PageContents(assets: seq<SpriteAsset>, page: int)
    requires 1 <= page <= TotalPages(|assets|)
    ensures var shown := DisplayedAssets(assets, page);
      && |shown| == Min(ItemsPerPage, |assets| - (page - 1) * ItemsPerPage)
      && |shown| > 0
      && shown == assets[(page - 1) * ItemsPerPage..(page - 1) * ItemsPerPage + |shown|]
  {
    var n := |assets|;
    var start := (page - 1) * ItemsPerPage;
    assert start < n;
    var shown := DisplayedAssets(assets, page);
    assert shown == assets[start..Min(page * ItemsPerPage, n)];
  }

  /** Pages `1..k` shown one after the other. */
  function PagesUpTo(assets: seq<SpriteAsset>, k: nat): seq<SpriteAsset> {
    if k == 0 then [] else PagesUpTo(assets, k - 1) + DisplayedAssets(assets, k)
  }

  lemma {:induction false} PagesUpToIsPrefix(assets: seq<SpriteAsset>, k: nat)
    ensures PagesUpTo(assets, k) == assets[..Min(k * ItemsPerPage, |assets|)]
  {
    if k > 0 {
      PagesUpToIsPrefix(assets, k - 1);
      var a, b := Min((k - 1) * ItemsPerPage, |assets|), Min(k * ItemsPerPage, |assets|);
      assert DisplayedAssets(assets, k) == assets[a..b];
      assert PagesUpTo(assets, k) == assets[..a] + assets[a..b];
      assert assets[..a] + assets[a..b] == assets[..b];
    }
  }

  /**
   * Showing every page in turn shows the whole list, in order, with nothing
   * left out and nothing repeated.
   */
  lemma PagesCoverAssets(assets: seq<SpriteAsset>)
    ensures PagesUpTo(assets, TotalPages(|assets|)) == assets
  {
    PagesUpToIsPrefix(assets, TotalPages(|assets|));
    assert assets[..|assets|] == assets;
  }

  /** The asset at position `i` is shown on page `i / 8 + 1`, at position `i % 8`. */
  lemma AssetPage(assets: seq<SpriteAsset>, i: nat)
    requires i < |assets|
    ensures 1 <= i / ItemsPerPage + 1 <= TotalPages(|assets|)
    ensures var shown := DisplayedAssets(assets, i / ItemsPerPage + 1);
      i % ItemsPerPage < |shown| && shown[i % ItemsPerPage] == assets[i]
  {
    var page := i / ItemsPerPage + 1;
    PageContents(assets, page);
  }

  // ------------------------------------------------------------ generation

  /** Typing: only the prompt changes, also while an image is awaited. */
  function EditPrompt(f: Forge, text: string): (r: Forge)
    ensures r.prompt == text && r.assets == f.assets && r.generating == f.generating && r.page == f.page
  {
    f.(prompt := text)
  }

  /**
   * `handleGenerate` up to the `await`: ignored when the prompt is blank or an
   * image is awaited; otherwise the panel becomes busy and the prompt is sent
   * untrimmed.
   */
  function StartGenerate(f: Forge): (r: GenerateStart)
    ensures r.pending.None? <==> Blank(f.prompt) || f.generating
    ensures r.pending.None? ==> r.forge == f
    ensures r.pending.Some? ==> r.pending.value == f.prompt && r.forge == f.(generating := true)
  {
    if Blank(f.prompt) || f.generating then GenerateStart(f, None)
    else GenerateStart(f.(generating := true), Some(f.prompt))
  }

  /** The asset recorded for a generated image: named and described by the prompt it was generated from. */
  function NewAsset(prompt: string, url: string, id: string, timestamp: int): (a: SpriteAsset)
    ensures a.name == prompt && a.description == prompt && a.url == url
    ensures a.id == id && a.timestamp == timestamp
  {
    SpriteAsset(id, prompt, url, prompt, timestamp)
  }

  /**
   * `handleGenerate` after the `await`. A non-empty image URL prepends one
   * asset and returns to page 1; no URL, or a thrown error, leaves the list
   * and the page alone. Either way the panel ends idle with an empty prompt.
   */
  function FinishGenerate(f: Forge, prompt: string, outcome: Settled<Option<string>>, id: string, timestamp: int): (r: Forge)
    ensures !r.generating && r.prompt == ""
    ensures outcome.Returned? && Truthy(outcome.value) ==>
      && |r.assets| == |f.assets| + 1
      && r.assets[0] == NewAsset(prompt, outcome.value.value, id, timestamp)
      && r.assets[1..] == f.assets
      && r.page == 1
    ensures !(outcome.Returned? && Truthy(outcome.value)) ==> r.assets == f.assets && r.page == f.page
  {
    match outcome
    case Returned(url) =>
      if Truthy(url) then Forge([NewAsset(prompt, url.value, id, timestamp)] + f.assets, "", false, 1)
      else f.(generating := false, prompt := "")
    case Threw(_) => f.(generating := false, prompt := "")
  }

  /** While an image is awaited, nothing the user types can start a second generation. */
  lemma BusyGuard(f: Forge, text: string)
    requires f.generating
    ensures StartGenerate(EditPrompt(f, text)) == GenerateStart(EditPrompt(f, text), None)
  {
  }

  /** After a successful generation the first page starts with the new asset. */
  lemma NewestOnFirstPage(f: Forge, prompt: string, url: string, id: string, timestamp: int)
    requires url != ""
    ensures var r := FinishGenerate(f, prompt, Returned(Some(url)), id, timestamp);
      var shown := DisplayedAssets(r.assets, r.page);
      |shown| > 0 && shown[0] == NewAsset(prompt, url, id, timestamp)
  {
  }

  /**
   * A generation that goes through the image service: the panel's error
   * path is never taken, and an asset is added exactly when the backend
   * answered with a part carrying inline data.
   */
  lemma GenerateThroughService(f: Forge, call: Settled<GeminiService.ImageResponse>, id: string, timestamp: int)
    requires !Blank(f.prompt) && !f.generating
    ensures var s := StartGenerate(f);
      var image := GeminiService.GeneratePixelSprite(call);
      var r := FinishGenerate(s.forge, s.pending.value, Returned(image), id, timestamp);
      && (|r.assets| == |f.assets| + 1 <==>
           call.Returned? && exists i :: 0 <= i < |GeminiService.ResponseParts(call.value)|
                                           && GeminiService.ResponseParts(call.value)[i].inlineData.Some?)
      && (|r.assets| == |f.assets| + 1 ==> r.assets[0].name == f.prompt && r.assets[1..] == f.assets)
      && (|r.assets| == |f.assets| + 1 ==>
           r.assets[0].url == GeminiService.FirstInlineImage(GeminiService.ResponseParts(call.value)).value)
      && (|r.assets| == |f.assets| ==> r.assets == f.assets)
  {
  }

  // ------------------------------------------------------------ navigation

  /** The page controls are rendered only when there is more than one page. */
  predicate ShowsPager(f: Forge) {
    TotalPages(|f.assets|) > 1
  }

  /** PREV: disabled on page 1, otherwise one page back. */
  function PrevPage(f: Forge): (r: Forge)
    ensures r.assets == f.assets && r.prompt == f.prompt && r.generating == f.generating
    ensures ShowsPager(f) && f.page != 1 ==> r.page == f.page - 1
    ensures !ShowsPager(f) || f.page == 1 ==> r.page == f.page
  {
    if ShowsPager(f) && f.page != 1 then f.(page := f.page - 1) else f
  }

  /** NEXT: disabled on the last page, otherwise one page on. */
  function NextPage(f: Forge): (r: Forge)
    ensures r.assets == f.assets && r.prompt == f.prompt && r.generating == f.generating
    ensures ShowsPager(f) && f.page != TotalPages(|f.assets|) ==> r.page == f.page + 1
    ensures !ShowsPager(f) || f.page == TotalPages(|f.assets|) ==> r.page == f.page
  {
    if ShowsPager(f) && f.page != TotalPages(|f.assets|) then f.(page := f.page + 1) else f
  }

  /** A page-number button, one for each page `1..totalPages`. */
  function GoToPage(f: Forge, page: int): (r: Forge)
    requires ShowsPager(f) && 1 <= page <= TotalPages(|f.assets|)
    ensures r.page == page
    ensures r.assets == f.assets && r.prompt == f.prompt && r.generating == f.generating
  {
    f.(page := page)
  }

  /** The page is a real page, or page 1 of an empty gallery. */
  predicate PageInRange(f: Forge) {
    1 <= f.page <= Max(1, TotalPages(|f.assets|))
  }

  /** Every step of the panel keeps the current page in range. */
  lemma PageStaysInRange(f: Forge, text: string, prompt: string, outcome: Settled<Option<string>>, id: string, timestamp: int, page: int)
    requires PageInRange(f)
    ensures PageInRange(Mount(f.assets))
    ensures PageInRange(EditPrompt(f, text))
    ensures PageInRange(StartGenerate(f).forge)
    ensures PageInRange(FinishGenerate(f, prompt, outcome, id, timestamp))
    ensures PageInRange(PrevPage(f))
    ensures PageInRange(NextPage(f))
    ensures ShowsPager(f) && 1 <= page <= TotalPages(|f.assets|) ==> PageInRange(GoToPage(f, page))
  {
    var r := FinishGenerate(f, prompt, outcome, id, timestamp);
    assert TotalPages(|f.assets|) <= TotalPages(|r.assets|);
  }

  // -------------------------------------------------------------- download

  /** The download file name: each run of whitespace in the name becomes `_`, then `.png` is added. */
  function DownloadName(name: string): (r: string)
    ensures |r| >= 4 && r[|r| - 4..] == ".png"
    ensures NoWhitespace(r)
    ensures NoWhitespace(name) ==> r == name + ".png"
  {
    var stem := ReplaceWhitespaceRuns(name, "_");
    assert NoWhitespace(".png");
    assert NoWhitespace("_");
    var r := stem + ".png";
    assert forall i :: 0 <= i < |r| ==> r[i] == (if i < |stem| then stem[i] else ".png"[i - |stem|]);
    r
  }

  /** Two words separated by any whitespace run are joined by a single `_`. */
  lemma DownloadNameJoinsWords(a: string, w: string, b: string)
    requires NoWhitespace(a) && a != []
    requires w != [] && AllWhitespace(w)
    requires NoWhitespace(b) && b != []
    ensures DownloadName(a + w + b) == a + "_" + b + ".png"
  {
    var u := "_";
    assert NoWhitespace(u);
    assert a + w + b == a + (w + b);
    ReplaceWhitespaceRunsAppend(a, w + b, u);
    WhitespaceRunReplaced(w, b, u);
    var stem := ReplaceWhitespaceRuns(a + w + b, u);
    assert stem == a + (u + b);
    assert DownloadName(a + w + b) == stem + ".png";
    ConcatAssoc(a, u, b);
  }
}
