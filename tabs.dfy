/** The tab collection of the `JSONFormatter` component in `src/json-formatter/index.tsx`:
    an ordered list of tab records and the id of the active one. Every handler is one atomic
    transition of the two state fields. */
module Tabs {
  import opened Wrappers
  import opened Json
  import opened Formatter
  import opened Lists
  import Text

  datatype Tab = Tab(id: int, name: string, content: string, formattedJSON: string, jsonError: string)

  /** The record `addTab` appends when the list holds `count` tabs: its id is `count + 1`,
      whatever ids the list already holds. */
  function NewTab(count: nat): Tab {
    Tab(count + 1, "Tab " + Text.NatToString(count + 1), "", "", "")
  }

  function HasId(id: int): Tab -> bool {
    (t: Tab) => t.id == id
  }

  function LacksId(id: int): Tab -> bool {
    (t: Tab) => t.id != id
  }

  /** `{ ...tab, content, ...formatJSON(content) }`. */
  function WithContent(content: string, out: FormatResult): Tab -> Tab {
    (t: Tab) => t.(content := content, formattedJSON := out.formattedJSON, jsonError := out.jsonError)
  }

  /** `{ ...tab, content: '', formattedJSON: '', jsonError: '' }`. */
  function Blank(t: Tab): Tab {
    t.(content := "", formattedJSON := "", jsonError := "")
  }

  /** `{ ...tab, formattedJSON, jsonError }`. */
  function WithOutput(out: FormatResult): Tab -> Tab {
    (t: Tab) => t.(formattedJSON := out.formattedJSON, jsonError := out.jsonError)
  }

  predicate IsBlank(t: Tab) {
    t.content == "" && t.formattedJSON == "" && t.jsonError == ""
  }

  /** A tab never shows formatted output and an error at once. */
  predicate OutputExclusive(t: Tab) {
    t.formattedJSON == "" || t.jsonError == ""
  }

  /** The tab shows what `formatJSON` makes of its own content, or it is blank. */
  predicate Synced(t: Tab, json: JsonLibrary) {
    IsBlank(t) || FormatResult(t.formattedJSON, t.jsonError) == FormatJSON(t.content, json)
  }

  predicate UniqueIds(tabs: seq<Tab>) {
    forall i, j :: 0 <= i < j < |tabs| ==> tabs[i].id != tabs[j].id
  }

  // ---------------------------------------------------------------------------------------
  // The new `tabs` value each handler passes to `setTabs`.

  /** `tabs.filter(tab => tab.id !== id)`. */
  function Removed(tabs: seq<Tab>, id: int): (r: seq<Tab>)
    ensures forall i :: 0 <= i < |r| ==> r[i].id != id && r[i] in tabs
    ensures forall i :: 0 <= i < |tabs| && tabs[i].id != id ==> tabs[i] in r
    ensures IsSubsequence(r, tabs)
    ensures |r| == |tabs| - Count(tabs, HasId(id))
    ensures (forall i :: 0 <= i < |tabs| ==> tabs[i].id != id) ==> r == tabs
  {
    CountComplement(tabs, id);
    Filter(tabs, LacksId(id))
  }

  lemma {:induction false} CountComplement(tabs: seq<Tab>, id: int)
    ensures Count(tabs, LacksId(id)) + Count(tabs, HasId(id)) == |tabs|
  {
    if tabs != [] {
      CountComplement(tabs[1..], id);
    }
  }

  /** `handleContentChange(content)`: every tab carrying the active id takes the new content and
      the formatter's verdict on it; no other tab changes. */
  function ContentChanged(tabs: seq<Tab>, active: int, content: string, json: JsonLibrary): (r: seq<Tab>)
    ensures |r| == |tabs|
    ensures forall i :: 0 <= i < |tabs| && tabs[i].id != active ==> r[i] == tabs[i]
    ensures forall i :: 0 <= i < |tabs| && tabs[i].id == active ==>
      r[i].id == tabs[i].id && r[i].name == tabs[i].name && r[i].content == content
      && FormatResult(r[i].formattedJSON, r[i].jsonError) == FormatJSON(content, json)
  {
    MapWhere(tabs, HasId(active), WithContent(content, FormatJSON(content, json)))
  }

  /** `clearActiveTab`: the active tab's three text fields become empty; nothing else changes. */
  function ClearedActive(tabs: seq<Tab>, active: int): (r: seq<Tab>)
    ensures |r| == |tabs|
    ensures forall i :: 0 <= i < |tabs| && tabs[i].id != active ==> r[i] == tabs[i]
    ensures forall i :: 0 <= i < |tabs| && tabs[i].id == active ==>
      IsBlank(r[i]) && r[i].id == tabs[i].id && r[i].name == tabs[i].name
  {
    MapWhere(tabs, HasId(active), Blank)
  }

  /** `formatActiveTab`: nothing happens when no tab has the active id. Otherwise the content of
      the FIRST tab with that id is formatted, and every tab with that id takes the result as its
      output. No content, id or name changes. */
  function FormattedActive(tabs: seq<Tab>, active: int, json: JsonLibrary): (r: seq<Tab>)
    ensures |r| == |tabs|
    ensures (forall i :: 0 <= i < |tabs| ==> tabs[i].id != active) ==> r == tabs
    ensures forall i :: 0 <= i < |tabs| ==>
      r[i].id == tabs[i].id && r[i].name == tabs[i].name && r[i].content == tabs[i].content
    ensures forall i :: 0 <= i < |tabs| && tabs[i].id != active ==> r[i] == tabs[i]
    ensures forall i, k ::
      (0 <= k <= i < |tabs| && tabs[i].id == active && tabs[k].id == active
       && forall j :: 0 <= j < k ==> tabs[j].id != active) ==>
      FormatResult(r[i].formattedJSON, r[i].jsonError) == FormatJSON(tabs[k].content, json)
  {
    match Find(tabs, HasId(active))
    case None => tabs
    case Some(t) => MapWhere(tabs, HasId(active), WithOutput(FormatJSON(t.content, json)))
  }

  /** `tabs.find(tab => tab.id === activeTab) || tabs[0]`: the tab the editor and the formatted
      view show. `None` stands for `undefined`, on which the render would throw. */
  function ActiveTabData(tabs: seq<Tab>, active: int): (r: Option<Tab>)
    ensures r.None? <==> tabs == []
    ensures (exists i :: 0 <= i < |tabs| && tabs[i].id == active) ==>
      r.Some? && r.value.id == active && r.value in tabs
    ensures forall i ::
      (0 <= i < |tabs| && tabs[i].id == active && forall j :: 0 <= j < i ==> tabs[j].id != active) ==>
      r == Some(tabs[i])
    ensures (forall i :: 0 <= i < |tabs| ==> tabs[i].id != active) && tabs != [] ==> r == Some(tabs[0])
  {
    match Find(tabs, HasId(active))
    case Some(t) => Some(t)
    case None => if tabs == [] then None else Some(tabs[0])
  }

  // ---------------------------------------------------------------------------------------
  // Properties of the transitions.

  /** Clearing twice is clearing once. */
  lemma ClearIdempotent(tabs: seq<Tab>, active: int)
    ensures ClearedActive(ClearedActive(tabs, active), active) == ClearedActive(tabs, active)
  {
    var once := ClearedActive(tabs, active);
    var twice := ClearedActive(once, active);
    assert forall i :: 0 <= i < |tabs| ==> twice[i] == once[i];
  }

  /** After an edit, every tab carrying the active id shows the formatter's verdict on its
      content; the others keep whatever they showed. */
  lemma ContentChangeSyncs(tabs: seq<Tab>, active: int, content: string, json: JsonLibrary)
    ensures forall i :: 0 <= i < |tabs| && tabs[i].id == active ==> Synced(ContentChanged(tabs, active, content, json)[i], json)
    ensures (forall i :: 0 <= i < |tabs| ==> Synced(tabs[i], json)) ==>
      forall i :: 0 <= i < |tabs| ==> Synced(ContentChanged(tabs, active, content, json)[i], json)
  {
  }

  /** With unique ids, formatting keeps every tab's output in step with its content. */
  lemma {:induction false} FormatSyncsWhenIdsUnique(tabs: seq<Tab>, active: int, json: JsonLibrary)
    requires UniqueIds(tabs)
    ensures forall i :: 0 <= i < |tabs| && tabs[i].id == active ==>
      FormatResult(FormattedActive(tabs, active, json)[i].formattedJSON, FormattedActive(tabs, active, json)[i].jsonError)
        == FormatJSON(tabs[i].content, json)
    ensures (forall i :: 0 <= i < |tabs| ==> Synced(tabs[i], json)) ==>
      forall i :: 0 <= i < |tabs| ==> Synced(FormattedActive(tabs, active, json)[i], json)
  {
    var r := FormattedActive(tabs, active, json);
    forall i | 0 <= i < |tabs| && tabs[i].id == active
      ensures FormatResult(r[i].formattedJSON, r[i].jsonError) == FormatJSON(tabs[i].content, json)
    {
      assert forall j :: 0 <= j < i ==> tabs[j].id != active;
    }
  }

  /** When two tabs share the active id, `formatActiveTab` gives both the same output, so when
      their contents format differently at least one of them no longer matches its own content;
      when the earlier one is the first with that id, it is the later one. */
  lemma {:induction false} FormatWithSharedIdCopiesFirst(tabs: seq<Tab>, i: nat, j: nat, json: JsonLibrary)
    requires i < j < |tabs| && tabs[i].id == tabs[j].id
    requires FormatJSON(tabs[i].content, json) != FormatJSON(tabs[j].content, json)
    ensures var r := FormattedActive(tabs, tabs[i].id, json);
      && FormatResult(r[i].formattedJSON, r[i].jsonError) == FormatResult(r[j].formattedJSON, r[j].jsonError)
      && (!Synced(r[i], json) || !Synced(r[j], json))
    ensures (forall k :: 0 <= k < i ==> tabs[k].id != tabs[i].id) ==>
      !Synced(FormattedActive(tabs, tabs[i].id, json)[j], json)
  {
    var r := FormattedActive(tabs, tabs[i].id, json);
    var first := FindIndex(tabs, HasId(tabs[i].id)).value;
    var out := FormatJSON(tabs[first].content, json);
    assert FormatResult(r[i].formattedJSON, r[i].jsonError) == out;
    assert FormatResult(r[j].formattedJSON, r[j].jsonError) == out;
    assert r[i].formattedJSON != "" || r[i].jsonError != "";
  }

  /** Editing an empty text into a tab shows the parser's error, so the tab is not blank: a tab
      is blank only when it is new or has just been cleared. */
  lemma EmptyEditShowsError(tabs: seq<Tab>, active: int, json: JsonHost)
    ensures forall i :: 0 <= i < |tabs| && tabs[i].id == active ==>
      var t := ContentChanged(tabs, active, "", json)[i];
      t.content == "" && t.formattedJSON == "" && t.jsonError == ErrorPrefix + json.parse("").message
      && !IsBlank(t)
  {
    EmptyIsError(json);
  }

  /** After an id has been reused, the shown tab for that id is the older one: `find` stops at the
      first match, so a tab appended with a taken id is never shown while the older one exists. */
  lemma ReusedIdShowsOlderTab(tabs: seq<Tab>, t: Tab)
    requires exists i :: 0 <= i < |tabs| && tabs[i].id == t.id
    ensures ActiveTabData(tabs + [t], t.id) == ActiveTabData(tabs, t.id)
    ensures ActiveTabData(tabs + [t], t.id).value in tabs
  {
    var k := FindIndex(tabs, HasId(t.id)).value;
    var ext := tabs + [t];
    assert ext[k] == tabs[k];
    assert forall j :: 0 <= j < k ==> ext[j] == tabs[j];
  }

  /** Ids come from the list length: once a tab other than the last has been removed, the next
      `addTab` reuses the id of the last tab. */
  lemma {:induction false} AddAfterRemoveReusesId(tabs: seq<Tab>, id: int)
    requires forall i :: 0 <= i < |tabs| ==> tabs[i].id == i + 1
    requires 1 <= id < |tabs|
    ensures var after := Removed(tabs, id) + [NewTab(|Removed(tabs, id)|)];
      |after| == |tabs| && after[|after| - 2].id == after[|after| - 1].id == |tabs|
  {
    var removed := Removed(tabs, id);
    CountConsecutiveIds(tabs, 1, id);
    assert |removed| == |tabs| - 1;
    FilterKeepsLast(tabs, LacksId(id));
    assert removed[|removed| - 1] == tabs[|tabs| - 1];
  }

  lemma {:induction false} CountConsecutiveIds(tabs: seq<Tab>, first: int, id: int)
    requires forall i :: 0 <= i < |tabs| ==> tabs[i].id == first + i
    ensures Count(tabs, HasId(id)) == if first <= id < first + |tabs| then 1 else 0
  {
    if tabs != [] {
      CountConsecutiveIds(tabs[1..], first + 1, id);
    }
  }

  /** Removing the active tab when it is the first one leaves `activeTab` naming a tab that no
      longer exists; the view then falls back to the first remaining tab, and editing, clearing
      and formatting change no tab. */
  lemma RemoveFirstActiveDangles(tabs: seq<Tab>, content: string, json: JsonLibrary)
    requires tabs != []
    ensures var id := tabs[0].id;
      var r := Removed(tabs, id);
      && (forall i :: 0 <= i < |r| ==> r[i].id != id)
      && ActiveTabData(r, id) == (if r == [] then None else Some(r[0]))
      && FormattedActive(r, id, json) == r
      && ClearedActive(r, id) == r
      && ContentChanged(r, id, content, json) == r
  {
  }

  // ---------------------------------------------------------------------------------------
  // The component state.

  class JsonFormatter {
    var tabs: seq<Tab>
    var activeTab: int
    /** The host's `JSON` object. */
    const json: JsonHost

    ghost predicate Valid()
      reads this
    {
      forall i :: 0 <= i < |tabs| ==> OutputExclusive(tabs[i])
    }

    /** `useState` initial values: one blank tab with id 1, which is active. */
    constructor (json: JsonHost)
      ensures Valid() && this.json == json
      ensures tabs == [Tab(1, "Tab 1", "", "", "")] && activeTab == 1
    {
      this.json := json;
      tabs := [Tab(1, "Tab 1", "", "", "")];
      activeTab := 1;
    }

    method AddTab()
      requires Valid()
      modifies this
      ensures Valid()
      ensures tabs == old(tabs) + [NewTab(|old(tabs)|)]
      ensures activeTab == |old(tabs)| + 1
    {
      var newTab := NewTab(|tabs|);
      tabs := tabs + [newTab];
      activeTab := newTab.id;
    }

    /** Reads `tabs[0]` of the list as it was before the removal, which throws on an empty list. */
    method RemoveTab(id: int)
      requires Valid()
      requires activeTab == id ==> tabs != []
      modifies this
      ensures Valid()
      ensures tabs == Removed(old(tabs), id)
      ensures activeTab == if old(activeTab) == id then old(tabs)[0].id else old(activeTab)
    {
      var before := tabs;
      tabs := Filter(tabs, LacksId(id));
      if activeTab == id {
        activeTab := before[0].id;
      }
    }

    method HandleContentChange(content: string)
      requires Valid()
      modifies this
      ensures Valid()
      ensures tabs == ContentChanged(old(tabs), activeTab, content, json)
      ensures activeTab == old(activeTab)
    {
      tabs := MapWhere(tabs, HasId(activeTab), WithContent(content, FormatJSON(content, json)));
    }

    method ClearActiveTab()
      requires Valid()
      modifies this
      ensures Valid()
      ensures tabs == ClearedActive(old(tabs), activeTab)
      ensures activeTab == old(activeTab)
    {
      tabs := MapWhere(tabs, HasId(activeTab), Blank);
    }

    method FormatActiveTab()
      requires Valid()
      modifies this
      ensures Valid()
      ensures tabs == FormattedActive(old(tabs), activeTab, json)
      ensures activeTab == old(activeTab)
    {
      var activeTabData := Find(tabs, HasId(activeTab));
      if activeTabData.Some? {
        var out := FormatJSON(activeTabData.value.content, json);
        tabs := MapWhere(tabs, HasId(activeTab), WithOutput(out));
      }
    }
  }
}
