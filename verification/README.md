# PixelForge core in Dafny

PixelForge is a single-page studio for designing pixel-art games. It has four tabs:

- A chat with an AI "creative officer" (the brainstorm panel).
- A sprite generator with a paginated gallery (the sprite forge).
- A "destiny weaver" that combines a personality type with a tarot card into a character concept.
- A settings page with a factory reset.

A tile-grid world editor also ships with it. This project models the state and the rules behind all of that. The rules covered:

- How the workspace loads its two persisted collections (chat messages and sprite assets) from browser storage, writes them back, and resets them.
- How each panel guards, starts and finishes its asynchronous request.
- How the service layer turns backend answers and errors into what the panels see.
- How the gallery is paged.
- How the weaver draws cards and renders concepts.
- How the world editor paints its grid.

Modules follow the source files:

| module | models |
|---|---|
| `JsValues` | optional values, string truthiness and `\|\|`, settled promises, `Array.prototype.slice` |
| `JsStrings` | `String.prototype.trim`, `includes`, single-character `replace`, global `replace` of a character and of `/\s+/g` |
| `Types` | `types.ts`: roles, chat messages, sprite assets, tab names |
| `GeminiService` | `services/geminiService.ts` |
| `BrainstormPanel` | `components/BrainstormPanel.tsx` |
| `SpriteForge` | `components/SpriteForge.tsx` |
| `TarotMbtiDesigner` | `components/TarotMbtiDesigner.tsx` |
| `WorldBuilder` | `components/WorldBuilder.tsx` |
| `App` | `App.tsx` |

How the async handlers and their outside inputs are modelled:

- Each async handler is split in two. A `Start` function models the guard and the synchronous updates up to the `await`, and returns the request it dispatched. A `Finish` function models what happens when the call settles; its outcome (`Returned(value)` or `Threw(message)`) is a parameter.
- Each service function takes the settled outcome of its backend call as a parameter. It computes what the service returns or rethrows.
- Lemmas named `…ThroughService` compose a panel with its service.
- Whether `JSON.parse` succeeds on a stored value, and what it yields, is also a parameter. So are the values the source draws from `Math.random` and `Date.now`, and the answer to the confirmation dialog.

The send handler appends the user message to the list and then calls the chat service with `messages`. That is the list it captured when it started, so the history sent does not contain the message just appended (`components/BrainstormPanel.tsx`, lines 28 and 32). `BrainstormPanel.HistorySentExcludesNewMessage` states this.

## Model

| member | source | states |
|---|---|---|
| JsValues.OrElse | services/geminiService.ts:35 | `text \|\| fallback` yields the text when it is present and non-empty, else the fallback; with a non-empty fallback the result is never empty |
| JsValues.SliceIndex | services/geminiService.ts:19 | a slice position is clamped into `[0, n]`, a negative one counting from the end, in each of the five cases |
| JsValues.Slice | components/SpriteForge.tsx:19 | `slice` yields `max(to - from, 0)` elements, the i-th being element `from + i` of the input |
| JsStrings.TrimStart | components/BrainstormPanel.tsx:23 | the result is a suffix of the input; the dropped prefix is all whitespace; the result does not start with whitespace |
| JsStrings.TrimEnd | components/BrainstormPanel.tsx:23 | the result is a prefix; the dropped suffix is all whitespace; the result does not end with whitespace |
| JsStrings.Trim | components/BrainstormPanel.tsx:23 | the trimmed text neither starts nor ends with whitespace, and is empty exactly when the input is all whitespace |
| JsStrings.TrimIsInfix | components/BrainstormPanel.tsx:25 | the trimmed text is a contiguous piece of the input with only whitespace around it |
| JsStrings.BlankIsAllWhitespace | components/BrainstormPanel.tsx:23 | `!input.trim()` holds exactly when the input consists of whitespace only |
| JsStrings.TrimIdempotent | components/BrainstormPanel.tsx:25 | trimming a trimmed text changes nothing |
| JsStrings.TrimFixed | components/BrainstormPanel.tsx:25 | a text without whitespace at either end is its own trim |
| JsStrings.TrimAround | components/BrainstormPanel.tsx:25 | any whitespace put before and after a text is removed again by trimming |
| JsStrings.IncludesIffOccurs | services/geminiService.ts:39 | `includes` holds exactly when the pattern occurs at some position of the text |
| JsStrings.NotIncludedWithoutHead | services/geminiService.ts:39 | a text lacking the first character of a pattern does not include the pattern |
| JsStrings.IncludedPastPrefix | services/geminiService.ts:39 | an occurrence of a pattern in `a + b` lies wholly in `b` when `a` lacks the pattern's first character |
| JsStrings.IndexOf | App.tsx:113 | the first position of a character, or -1 exactly when it does not occur |
| JsStrings.ReplaceFirst | App.tsx:113 | `replace` with a one-character pattern changes only the first occurrence, and nothing when there is none |
| JsStrings.IndexAfter | App.tsx:113 | the first occurrence of a character is right after a prefix that lacks it |
| JsStrings.ReplaceFirstAt | App.tsx:113 | in `p + a + q` with `a` not in `p`, only that `a` is replaced; later occurrences in `q` are kept |
| JsStrings.ReplaceFirstAbsent | App.tsx:113 | a text lacking the character is returned unchanged |
| JsStrings.ReplaceAll | components/TarotMbtiDesigner.tsx:122 | a global replace leaves no occurrence when the replacement lacks the character, and is the identity on text without it |
| JsStrings.ReplaceAllLength | components/TarotMbtiDesigner.tsx:122 | each occurrence grows the text by the replacement's length minus one |
| JsStrings.ReplaceAllAppend | components/TarotMbtiDesigner.tsx:122 | a global replace of a character works piecewise over a concatenation |
| JsStrings.ReplaceWhitespaceRuns | components/SpriteForge.tsx:95 | replacing `/\s+/g` with whitespace-free text leaves no whitespace, and is the identity on text without whitespace |
| JsStrings.WhitespaceRunReplaced | components/SpriteForge.tsx:95 | a leading whitespace run, however long, becomes one copy of the replacement |
| JsStrings.ReplaceWhitespaceRunsAppend | components/SpriteForge.tsx:95 | the run replacement works piecewise when the first part does not end in whitespace |
| JsStrings.TrimStartAfterRun | components/SpriteForge.tsx:95 | dropping a leading run of whitespace leaves exactly the text after it |
| GeminiService.ApiRole | services/geminiService.ts:20 | an AI message is sent with role `model` and a user message with role `user` |
| GeminiService.ToTurn | services/geminiService.ts:20-21 | a message is sent with its content as the one text part and a role it can be read back from |
| GeminiService.RecentHistory | services/geminiService.ts:19-22 | the history sent holds `min(10, n)` turns, the i-th being the backend form of message `n - len + i` |
| GeminiService.RecentHistoryIsWindow | services/geminiService.ts:19-22 | reading the turns back gives exactly the last messages in order: all when at most ten, exactly ten otherwise |
| GeminiService.ChatRequestFor | services/geminiService.ts:24-34 | the chat is created with the recent-history window and sent the prompt unchanged |
| GeminiService.TimeoutTextIsClean | services/geminiService.ts:40 | the timeout message mentions neither `xhr` nor `500` |
| GeminiService.ReclassifyError | services/geminiService.ts:36-43 | an error mentioning `xhr` or `500` becomes the timeout message, any other keeps its own; the rethrown message never mentions either |
| GeminiService.BrainstormGameIdea | services/geminiService.ts:34-43 | a returned call yields the reply text, or the fixed text when it is empty or missing, so never empty; a thrown call rethrows the reclassified message |
| GeminiService.SpritePrompt | services/geminiService.ts:53 | the prompt is the fixed lead, the description verbatim, then the fixed style suffix |
| GeminiService.SpritePromptInjective | services/geminiService.ts:53 | different descriptions give different prompts |
| GeminiService.DataUri | services/geminiService.ts:65 | an inline image becomes `data:image/png;base64,` followed by the part's data, or by `undefined` when the data is missing |
| GeminiService.FirstInlineImage | services/geminiService.ts:63-67 | the URI of the first part carrying inline data; none exactly when no part carries any |
| GeminiService.GeneratePixelSprite | services/geminiService.ts:46-72 | a thrown call gives `null`; a returned one gives the data URI of the first part of the first candidate that carries inline data, which exists exactly when some part carries it |
| GeminiService.ConceptPrompt | services/geminiService.ts:76-82 | the prompt is the fixed lead, the type label verbatim, the fixed middle, the card verbatim, then the fixed instructions |
| GeminiService.ConceptPromptInjective | services/geminiService.ts:76-82 | with labels of equal length, equal prompts mean equal label and card |
| GeminiService.GenerateTarotMbtiConcept | services/geminiService.ts:84-97 | the reply text, a fixed text for an empty reply, another for a thrown call; never empty, never throws |
| BrainstormPanel.Mount | components/BrainstormPanel.tsx:12-13 | a mounted panel shows the given messages with an empty input and is not busy |
| BrainstormPanel.EditInput | components/BrainstormPanel.tsx:83 | typing changes only the input, also while busy |
| BrainstormPanel.StartSend | components/BrainstormPanel.tsx:22-29 | a blank input or a busy panel changes nothing; otherwise the trimmed text is appended as a user message, the input cleared, the panel busy, and the call made with the earlier list |
| BrainstormPanel.ReplyContent | components/BrainstormPanel.tsx:31-37 | the reply text, or the error marker followed by the error's message or the connection text |
| BrainstormPanel.FinishSend | components/BrainstormPanel.tsx:31-40 | exactly one AI message is appended, earlier ones kept; the busy flag is cleared on both paths; the input is untouched |
| BrainstormPanel.BusyGuard | components/BrainstormPanel.tsx:23 | whatever is typed while busy, a send is ignored |
| BrainstormPanel.AcceptedSendAppendsTwo | components/BrainstormPanel.tsx:22-40 | an accepted send ends with the list extended by the user message and one AI message, idle and with an empty input |
| BrainstormPanel.HistorySentExcludesNewMessage | components/BrainstormPanel.tsx:28-32 | the backend receives the trimmed prompt and at most the last ten messages before the new one |
| BrainstormPanel.ConnectionErrorTextIsClean | components/BrainstormPanel.tsx:36 | the connection error text mentions neither `xhr` nor `500` |
| BrainstormPanel.ShownErrorIsClean | components/BrainstormPanel.tsx:34-37 | a marked error shown in the list mentions `xhr` or `500` only if the error message did |
| BrainstormPanel.SendThroughService | components/BrainstormPanel.tsx:22-40 | through the service, the final AI message is never empty, is the reply when there is one, and a shown error is marked and free of `xhr` and `500` |
| SpriteForge.Mount | components/SpriteForge.tsx:14-16 | a mounted gallery has an empty prompt, is not busy and is on page 1 |
| SpriteForge.TotalPages | components/SpriteForge.tsx:18 | the page count is the least number of pages of eight that hold all assets, zero only for none |
| SpriteForge.PageContents | components/SpriteForge.tsx:19 | every real page is non-empty and shows `min(8, n - (page-1)*8)` assets in order from `(page-1)*8` |
| SpriteForge.DisplayedAssets | components/SpriteForge.tsx:19 | a page shows at most eight assets; from page 1 on, those between `(page-1)*8` and `page*8`, clamped to the list |
| SpriteForge.PagesUpToIsPrefix | components/SpriteForge.tsx:18-19 | pages `1..k` shown in turn are the first `min(8k, n)` assets |
| SpriteForge.PagesCoverAssets | components/SpriteForge.tsx:18-19 | all pages in turn show the whole list in order, nothing repeated or lost |
| SpriteForge.AssetPage | components/SpriteForge.tsx:18-19 | asset `i` is shown on page `i/8 + 1` at position `i mod 8`, which is a real page |
| SpriteForge.EditPrompt | components/SpriteForge.tsx:54 | typing changes only the prompt |
| SpriteForge.StartGenerate | components/SpriteForge.tsx:21-26 | a blank prompt or a busy panel changes nothing; otherwise the panel becomes busy and the untrimmed prompt is sent |
| SpriteForge.NewAsset | components/SpriteForge.tsx:28-34 | the new asset is named and described by the prompt and holds the image URL, id and timestamp |
| SpriteForge.FinishGenerate | components/SpriteForge.tsx:26-43 | a URL prepends exactly one asset, keeps the rest and goes to page 1; no URL or an error changes neither list nor page; the panel always ends idle with an empty prompt |
| SpriteForge.BusyGuard | components/SpriteForge.tsx:22 | whatever is typed while busy, a generate is ignored |
| SpriteForge.NewestOnFirstPage | components/SpriteForge.tsx:35-36 | after a successful generate the shown page starts with the new asset |
| SpriteForge.GenerateThroughService | components/SpriteForge.tsx:21-43 | through the service an asset is added exactly when the backend answered with inline data; it is named by the prompt and holds the first inline part's URI; otherwise the list is unchanged |
| SpriteForge.PrevPage | components/SpriteForge.tsx:117-123 | PREV goes one page back except on page 1 or without a pager |
| SpriteForge.NextPage | components/SpriteForge.tsx:137-143 | NEXT goes one page on except on the last page or without a pager |
| SpriteForge.GoToPage | components/SpriteForge.tsx:125-135 | a page button selects its page and changes nothing else |
| SpriteForge.PageStaysInRange | components/SpriteForge.tsx:115-143 | every gallery step keeps the current page between 1 and the page count |
| SpriteForge.DownloadName | components/SpriteForge.tsx:95 | the file name ends in `.png` and has no whitespace; a name without whitespace is kept verbatim |
| SpriteForge.DownloadNameJoinsWords | components/SpriteForge.tsx:95 | two words separated by any whitespace run are joined by a single `_` |
| TarotMbtiDesigner.Catalogues | components/TarotMbtiDesigner.tsx:5-22 | sixteen types including the initial `INTJ`, twenty-two cards, nothing drawn, no concept, idle |
| TarotMbtiDesigner.MbtiTypesDistinct | components/TarotMbtiDesigner.tsx:5-10 | no type is listed twice |
| TarotMbtiDesigner.TarotCardsDistinct | components/TarotMbtiDesigner.tsx:12-16 | no card is listed twice |
| TarotMbtiDesigner.SelectType | components/TarotMbtiDesigner.tsx:54 | a type button changes only the selected type |
| TarotMbtiDesigner.DrawCard | components/TarotMbtiDesigner.tsx:24-28 | drawing sets a catalogue card and clears the concept, also while a weave is awaited |
| TarotMbtiDesigner.EveryCardDrawable | components/TarotMbtiDesigner.tsx:24-28 | every card can be drawn |
| TarotMbtiDesigner.StartWeave | components/TarotMbtiDesigner.tsx:30-32 | without a card or while busy nothing changes; otherwise the panel becomes busy and asks for the selected type and the drawn card |
| TarotMbtiDesigner.FinishWeave | components/TarotMbtiDesigner.tsx:33-41 | the concept becomes the returned text, or the broken-thread text on an error; the panel ends idle with type and card kept |
| TarotMbtiDesigner.WeaveGuard | components/TarotMbtiDesigner.tsx:31 | a weave without a card or while busy changes nothing and asks nothing |
| TarotMbtiDesigner.WeaveThroughService | components/TarotMbtiDesigner.tsx:30-42 | the service never throws, so the panel's catch branch is never reached; the concept is the reply text, the service's empty-reply text or its error text, never empty; type and card are kept |
| TarotMbtiDesigner.RedrawDuringWeave | components/TarotMbtiDesigner.tsx:24-42 | redrawing during a weave lets the late reply show a concept asked for with the earlier card |
| TarotMbtiDesigner.ConceptHtml | components/TarotMbtiDesigner.tsx:122 | the rendered concept has no line breaks, each one turned into `<br/>`, and is the concept itself when it has none |
| TarotMbtiDesigner.ConceptHtmlLines | components/TarotMbtiDesigner.tsx:122 | a line break between two parts becomes one `<br/>` between their renderings |
| WorldBuilder.Mount | components/WorldBuilder.tsx:22 | a mounted editor shows the caller's grid and tile and is not drawing |
| WorldBuilder.Paint | components/WorldBuilder.tsx:24-29 | painting sets exactly the one cell, keeps the shape and every other cell |
| WorldBuilder.PaintKeepsWellShaped | components/WorldBuilder.tsx:24-29 | a 16 by 16 grid stays 16 by 16 |
| WorldBuilder.PaintSameTile | components/WorldBuilder.tsx:24-29 | painting a cell with the tile it holds gives the same grid |
| WorldBuilder.EmptyGrid | components/WorldBuilder.tsx:84 | the cleared grid is 16 by 16 and every cell is `empty` |
| WorldBuilder.PressCell | components/WorldBuilder.tsx:43-51 | pressing on a cell paints it with the selected tile and starts drawing |
| WorldBuilder.PressGrid | components/WorldBuilder.tsx:43 | pressing between cells only starts drawing |
| WorldBuilder.EnterCell | components/WorldBuilder.tsx:31-35 | entering a cell paints it only while drawing |
| WorldBuilder.ReleaseOrLeave | components/WorldBuilder.tsx:44-45 | releasing or leaving stops drawing and keeps the grid |
| WorldBuilder.SelectTile | components/WorldBuilder.tsx:69 | a palette button changes only the selected tile |
| WorldBuilder.ClearCanvas | components/WorldBuilder.tsx:84 | clearing empties the grid and keeps the selected tile and drawing flag |
| WorldBuilder.NoPaintAfterRelease | components/WorldBuilder.tsx:31-45 | after a release, moving over cells paints nothing |
| WorldBuilder.PressThenDrag | components/WorldBuilder.tsx:24-52 | a press and a drag paint exactly the two cells |
| WorldBuilder.FindColor | components/WorldBuilder.tsx:54 | the colour of the first palette entry with the id, or none when no entry has it |
| WorldBuilder.TileTypesUsable | components/WorldBuilder.tsx:5-12 | the six palette ids are distinct and every colour is non-empty |
| WorldBuilder.PaletteColor | components/WorldBuilder.tsx:54 | in a usable palette, the colour of the entry the id belongs to, or the fallback colour for an unknown id |
| WorldBuilder.CellColor | components/WorldBuilder.tsx:54 | a cell shows the palette colour of its id, or the fallback colour |
| App.LoadMessages | App.tsx:18-28 | a present stored value that parses gives the parsed messages; otherwise the one welcome message |
| App.LoadAssets | App.tsx:31-41 | a present stored value that parses gives the parsed assets; otherwise none |
| App.Init | App.tsx:15-51 | mounting opens the brainstorm tab, loads both collections and stores them back, touching no other key |
| App.SetMessages | App.tsx:44-46 | a new message list is written under its key; nothing else in storage changes |
| App.SetAssets | App.tsx:49-51 | a new asset list is written under its key; nothing else in storage changes |
| App.FactoryReset | App.tsx:73-80 | declined, nothing changes; confirmed, one reset message and no assets, stored again, other keys kept |
| App.ResetDiffersFromWelcome | App.tsx:77 | the reset greeting differs from the first-visit greeting |
| App.SelectTab | App.tsx:101 | selecting a tab changes only the tab |
| App.RenderContent | App.tsx:53-96 | each tab shows its own view; any other value shows the chat |
| App.HeaderReplacesFirstUnderscore | App.tsx:113 | the header shows the tab with only its first `_` turned into a space |
| App.ReloadRestores | App.tsx:18-51 | stored collections are read back as written when parsing succeeds, and defaults when it fails |
| App.StepsStaySynced | App.tsx:43-51 | every workspace step keeps both keys holding the current collections |
| App.FirstExchangePersists | App.tsx:18-51 | a first visit and one exchange show and store the welcome, the trimmed prompt and the reply, which a reload restores |

## Left out

- The generative-AI client, its model names and its generation settings are not modelled. Every backend call is a settled outcome given as a parameter, and which outcome the backend produces is not constrained.
- The API-key check that warns when the key is missing is not modelled; it only logs.
- Serialisation is not modelled: storage holds opaque values, not JSON text. Whether `JSON.parse` succeeds, and its result, are parameters, so a JSON round-trip is assumed rather than proved.
- Stored values are not validated against the message or asset shapes, and neither does the source validate them.
- `Math.random` (the drawn card, the asset id) and `Date.now` (the timestamp) are parameters. Uniqueness of asset ids is not claimed, since random ids can collide.
- React rendering is not modelled. Switching tabs unmounts the panel and drops its local state (input, busy flag, page), and a reply that settles after unmounting is not modelled.
- Interleavings of UI events with awaited calls are modelled only in the stated lemmas. One example is redrawing a card during a weave.
- `console` logging, the auto-scroll effect, the download anchor click, the sidebar's markup, the settings page's static text and the HTML injection of the rendered concept are left out. None of them changes state.
- Two buttons that only show an `alert` are left out: the header's Manual_Backup button (`App.tsx`, lines 121-126) and the world editor's export button (`components/WorldBuilder.tsx`, lines 89-94).
- `WorldBuilder` is modelled as a component but no tab renders it. Its grid and selected tile are held by its caller.
- The `TarotMbtiResult` type in `types.ts` is never used and is not modelled.
- Strings are sequences of Unicode scalar values, not UTF-16 code units. This matters only for lengths of text outside the Basic Multilingual Plane.
- An error without a message is modelled with the empty message. Every use (`?.includes`, `||`) treats the two alike.
- App.Present: has no contract of its own; it is the `if (saved)` test, and `App.LoadMessages` and `App.LoadAssets` state what loading does on each side of it.
- GeminiService.ResponseParts: has no contract of its own; it is the optional-chaining path to the first candidate's parts. `GeminiService.GeneratePixelSprite` states that the service returns the URI `GeminiService.FirstInlineImage` finds among these parts, and `SpriteForge.GenerateThroughService` that the new asset carries that URI.
- JsStrings.Includes: is defined recursively; `JsStrings.IncludesIffOccurs` characterises it as "occurs at some position".
- App.HeaderTitle: has no contract of its own; `App.HeaderReplacesFirstUnderscore` states its behaviour for every tab shape.
- GeminiService.ConceptPromptInjective: requires the two type labels to be of equal length, as all catalogue labels are. In general a label containing the template's quote text could shift the split.
- WorldBuilder.Paint: requires the cell to exist, since only rendered cells call it.
