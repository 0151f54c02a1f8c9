/**
 * The workspace: the active tab, the two persisted collections (chat
 * messages and sprite assets), and the browser storage they are written to.
 *
 * Storage maps keys to serialised values. A value is opaque: it is either
 * the serialisation of a message list or of an asset list written by this
 * workspace, or text written by anything else. Whether parsing a stored value
 * succeeds, and what it yields, is a parameter of loading.
 */
module App {
  import opened JsValues
  import opened JsStrings
  import opened Types
  import BrainstormPanel

  const MessagesKey: string := "pixelforge_messages"
  const AssetsKey: string := "pixelforge_assets"

  const WelcomeText: string := "欢迎回来，创意官。我们的像素冒险继续进行。我们可以从构思世界观开始，也可以直接去“命运编织”抽取你的新英雄原型。"
  const ResetText: string := "系统已重置。我是你的 AI 创意官，让我们重新开始吧。"

  /** A stored value: the serialisation of one of the two collections, or any other text. */
  datatype Stored = MessagesJson(messages: seq<ChatMessage>) | AssetsJson(assets: seq<SpriteAsset>) | OtherText(text: string)

  type Storage = map<string, Stored>

  datatype Workspace = Workspace(tab: string, messages: seq<ChatMessage>, assets: seq<SpriteAsset>, storage: Storage)

  /** The view `renderContent` shows. */
  datatype View = ChatView | ForgeView | WeaverView | SettingsView

  /**
   * `if (saved)` on the result of `getItem`: a missing key and an empty text
   * are skipped; a serialised list is never empty text.
   */
  predicate Present(saved: Option<Stored>) {
    saved.Some? && saved.value != OtherText("")
  }

  function Lookup(storage: Storage, key: string): Option<Stored> {
    if key in storage then Some(storage[key]) else None
  }

  /**
   * The lazy initial message list: what the stored value parses to, if one
   * is present and `parsed` says parsing succeeded; otherwise one AI greeting.
   */
  function LoadMessages(saved: Option<Stored>, parsed: Option<seq<ChatMessage>>): (r: seq<ChatMessage>)
    ensures Present(saved) && parsed.Some? ==> r == parsed.value
    ensures !(Present(saved) && parsed.Some?) ==> r == [ChatMessage(Ai, WelcomeText)]
  {
    if Present(saved) && parsed.Some? then parsed.value else [ChatMessage(Ai, WelcomeText)]
  }

  /** The lazy initial asset list: the parsed stored value, or empty. */
  function LoadAssets(saved: Option<Stored>, parsed: Option<seq<SpriteAsset>>): (r: seq<SpriteAsset>)
    ensures Present(saved) && parsed.Some? ==> r == parsed.value
    ensures !(Present(saved) && parsed.Some?) ==> r == []
  {
    if Present(saved) && parsed.Some? then parsed.value else []
  }

  /** Both keys hold the serialisation of the current collections. */
  predicate Synced(w: Workspace) {
    && MessagesKey in w.storage && w.storage[MessagesKey] == MessagesJson(w.messages)
    && AssetsKey in w.storage && w.storage[AssetsKey] == AssetsJson(w.assets)
  }

  /** Keys other than the two collections' are left as they were. */
  predicate OthersUnchanged(before: Storage, after: Storage) {
    after - {MessagesKey, AssetsKey} == before - {MessagesKey, AssetsKey}
  }

  /**
   * Mounting the workspace: the brainstorm tab, both collections loaded from
   * storage, and then the two write-back effects, which run once on mount.
   */
  function Init(storage: Storage, parsedMessages: Option<seq<ChatMessage>>, parsedAssets: Option<seq<SpriteAsset>>): (w: Workspace)
    ensures w.tab == TabBrainstorm
    ensures w.messages == LoadMessages(Lookup(storage, MessagesKey), parsedMessages)
    ensures w.assets == LoadAssets(Lookup(storage, AssetsKey), parsedAssets)
    ensures Synced(w) && OthersUnchanged(storage, w.storage)
  {
    var messages := LoadMessages(Lookup(storage, MessagesKey), parsedMessages);
    var assets := LoadAssets(Lookup(storage, AssetsKey), parsedAssets);
    Workspace(TabBrainstorm, messages, assets, storage[MessagesKey := MessagesJson(messages)][AssetsKey := AssetsJson(assets)])
  }

  /** `setMessages` followed by its write-back effect. */
  function SetMessages(w: Workspace, messages: seq<ChatMessage>): (r: Workspace)
    ensures r.messages == messages && r.assets == w.assets && r.tab == w.tab
    ensures Synced(w) ==> Synced(r)
    ensures MessagesKey in r.storage && r.storage[MessagesKey] == MessagesJson(messages)
    ensures r.storage - {MessagesKey} == w.storage - {MessagesKey}
  {
    w.(messages := messages, storage := w.storage[MessagesKey := MessagesJson(messages)])
  }

  /** `setAssets` followed by its write-back effect. */
  function SetAssets(w: Workspace, assets: seq<SpriteAsset>): (r: Workspace)
    ensures r.assets == assets && r.messages == w.messages && r.tab == w.tab
    ensures Synced(w) ==> Synced(r)
    ensures AssetsKey in r.storage && r.storage[AssetsKey] == AssetsJson(assets)
    ensures r.storage - {AssetsKey} == w.storage - {AssetsKey}
  {
    w.(assets := assets, storage := w.storage[AssetsKey := AssetsJson(assets)])
  }

  /**
   * The FACTORY_RESET button; `confirmed` is the answer to the confirmation
   * dialog. Declined, nothing changes. Confirmed, both keys are removed, the
   * messages become one AI message saying the system was reset, the assets
   * become empty, and the write-back effects store both again.
   */
  function FactoryReset(w: Workspace, confirmed: bool): (r: Workspace)
    ensures !confirmed ==> r == w
    ensures confirmed ==>
      && r.messages == [ChatMessage(Ai, ResetText)] && r.assets == []
      && r.tab == w.tab
      && Synced(r) && OthersUnchanged(w.storage, r.storage)
  {
    if !confirmed then w
    else
      var cleared := w.storage - {MessagesKey} - {AssetsKey};
      var r := Workspace(w.tab, [ChatMessage(Ai, ResetText)], [], cleared);
      SetAssets(SetMessages(r, r.messages), r.assets)
  }

  /** The reset greeting is not the first-visit greeting. */
  lemma ResetDiffersFromWelcome(w: Workspace)
    ensures FactoryReset(w, true).messages != LoadMessages(None, None)
  {
    var reset, welcome := ResetText, WelcomeText;
    assert |reset| != |welcome|;
  }

  /** A sidebar entry: only the tab changes. */
  function SelectTab(w: Workspace, tab: string): (r: Workspace)
    ensures r.tab == tab
    ensures r.messages == w.messages && r.assets == w.assets && r.storage == w.storage
  {
    w.(tab := tab)
  }

  /** `renderContent`: each tab has its own view and any other value shows the chat. */
  function RenderContent(tab: string): (v: View)
    ensures tab == TabBrainstorm ==> v == ChatView
    ensures tab == TabSpriteGen ==> v == ForgeView
    ensures tab == TabDestinyWeaver ==> v == WeaverView
    ensures tab == TabSettings ==> v == SettingsView
    ensures tab !in {TabBrainstorm, TabSpriteGen, TabDestinyWeaver, TabSettings} ==> v == ChatView
  {
    if tab == TabSpriteGen then ForgeView
    else if tab == TabDestinyWeaver then WeaverView
    else if tab == TabSettings then SettingsView
    else ChatView
  }

  /** The header: the tab with its first `_` turned into a space. */
  function HeaderTitle(tab: string): string {
    ReplaceFirst(tab, '_', ' ')
  }

  /**
   * Only the first `_` becomes a space and any later one is kept; a tab
   * without `_` is shown as it is.
   */
  lemma HeaderReplacesFirstUnderscore(tab: string, p: string, q: string)
    requires '_' !in p
    ensures HeaderTitle(p + "_" + q) == p + " " + q
    ensures '_' !in tab ==> HeaderTitle(tab) == tab
  {
    ReplaceFirstAt(p, '_', q, ' ');
    if '_' !in tab {
      ReplaceFirstAbsent(tab, '_', ' ');
    }
  }

  /**
   * A stored collection is read back as it was written, provided parsing
   * yields what was serialised; a stored value that fails to parse gives the
   * defaults.
   */
  lemma ReloadRestores(w: Workspace, parsedMessages: Option<seq<ChatMessage>>, parsedAssets: Option<seq<SpriteAsset>>)
    requires Synced(w)
    ensures parsedMessages == Some(w.messages) ==> Init(w.storage, parsedMessages, parsedAssets).messages == w.messages
    ensures parsedAssets == Some(w.assets) ==> Init(w.storage, parsedMessages, parsedAssets).assets == w.assets
    ensures parsedMessages.None? ==> Init(w.storage, parsedMessages, parsedAssets).messages == [ChatMessage(Ai, WelcomeText)]
    ensures parsedAssets.None? ==> Init(w.storage, parsedMessages, parsedAssets).assets == []
  {
  }

  /** Every workspace step keeps both keys holding the current collections. */
  lemma StepsStaySynced(w: Workspace, messages: seq<ChatMessage>, assets: seq<SpriteAsset>, confirmed: bool, tab: string)
    requires Synced(w)
    ensures Synced(SetMessages(w, messages)) && Synced(SetAssets(w, assets))
    ensures Synced(FactoryReset(w, confirmed)) && Synced(SelectTab(w, tab))
  {
  }

  /**
   * A first visit, one chat exchange, and a reload: the greeting, the
   * trimmed prompt and the reply are shown, stored, and read back.
   */
  lemma FirstExchangePersists(storage: Storage, input: string, reply: string)
    requires MessagesKey !in storage && AssetsKey !in storage
    requires !Blank(input)
    ensures var w := Init(storage, None, None);
      var s := BrainstormPanel.StartSend(BrainstormPanel.EditInput(BrainstormPanel.Mount(w.messages), input));
      var p := BrainstormPanel.FinishSend(s.panel, Returned(reply));
      var after := SetMessages(w, p.messages);
      && w.messages == [ChatMessage(Ai, WelcomeText)] && w.assets == []
      && s.pending == Some(BrainstormPanel.PendingSend(Trim(input), w.messages))
      && after.messages == w.messages + [ChatMessage(User, Trim(input)), ChatMessage(Ai, reply)]
      && Synced(after)
      && Init(after.storage, Some(after.messages), Some(after.assets)).messages == after.messages
  {
    var w := Init(storage, None, None);
    var panel := BrainstormPanel.EditInput(BrainstormPanel.Mount(w.messages), input);
    assert panel == BrainstormPanel.Panel(w.messages, input, false);
    BrainstormPanel.AcceptedSendAppendsTwo(panel, Returned(reply));
    var s := BrainstormPanel.StartSend(panel);
    var p := BrainstormPanel.FinishSend(s.panel, Returned(reply));
    assert p.messages == w.messages + [ChatMessage(User, Trim(input)), ChatMessage(Ai, reply)];
    var after := SetMessages(w, p.messages);
    assert Synced(after);
    ReloadRestores(after, Some(after.messages), Some(after.assets));
  }
}
