/** The single-file `JSONFormatter` component of `src/App.jsx`. Its tabs carry only their text;
    the formatter's output and error are one pair of component fields shared by all tabs, next to
    the collapse map of the tree view. */
module App {
  import opened Wrappers
  import opened Json
  import Formatter
  import opened Lists
  import opened Collapse
  import opened Tree
  import Editor
  import Text

  datatype AppTab = AppTab(id: int, name: string, content: string)

  /** `closingBracket` of this `handleKeyDown`: three openers, no quote. */
  function BracketCloser(key: char): (r: Option<char>)
    ensures r.Some? <==> key == '{' || key == '[' || key == '('
    ensures r.Some? ==> [key, r.value] in {"{}", "[]", "()"}
  {
    match key
    case '{' => Some('}')
    case '[' => Some(']')
    case '(' => Some(')')
    case _ => None
  }

  /** The later editor pairs the same brackets the same way and adds the double quote. */
  lemma BracketCloserAgrees(key: char)
    ensures BracketCloser(key) == if key == '"' then None else Editor.Closer(key)
  {
  }

  /** What the right-hand pane shows: the hint text while there is no output, the tree of the
      re-parsed output otherwise. `RenderThrows` stands for a re-parse that fails, which would
      throw during the render. */
  datatype Pane = Hint | TreeView(root: Node) | RenderThrows

  function HasId(id: int): AppTab -> bool {
    (t: AppTab) => t.id == id
  }

  function LacksId(id: int): AppTab -> bool {
    (t: AppTab) => t.id != id
  }

  /** `{ ...tab, content: e.target.value }`. */
  function WithContent(content: string): AppTab -> AppTab {
    (t: AppTab) => t.(content := content)
  }

  class JsonFormatter {
    var tabs: seq<AppTab>
    var activeTab: int
    var collapsedKeys: CollapseMap
    var formattedJSON: string
    var jsonError: string
    /** The host's `JSON` object. */
    const json: JsonHost

    ghost predicate Valid()
      reads this
    {
      formattedJSON == "" || jsonError == ""
    }

    constructor (json: JsonHost)
      ensures Valid() && this.json == json
      ensures tabs == [AppTab(1, "Tab 1", "")] && activeTab == 1
      ensures collapsedKeys == map[] && formattedJSON == "" && jsonError == ""
    {
      this.json := json;
      tabs := [AppTab(1, "Tab 1", "")];
      activeTab := 1;
      collapsedKeys := map[];
      formattedJSON, jsonError := "", "";
    }

    /** The new tab's id is the list length plus one, whatever ids are already taken. */
    method AddTab()
      requires Valid()
      modifies this
      ensures Valid()
      ensures tabs == old(tabs) + [AppTab(|old(tabs)| + 1, "Tab " + Text.NatToString(|old(tabs)| + 1), "")]
      ensures activeTab == |old(tabs)| + 1
      ensures collapsedKeys == old(collapsedKeys) && formattedJSON == old(formattedJSON) && jsonError == old(jsonError)
    {
      var newTab := AppTab(|tabs| + 1, "Tab " + Text.NatToString(|tabs| + 1), "");
      tabs := tabs + [newTab];
      activeTab := newTab.id;
    }

    /** Reads `tabs[0]` of the list as it was before the removal, which throws on an empty list. */
    method RemoveTab(id: int)
      requires Valid()
      requires activeTab == id ==> tabs != []
      modifies this
      ensures Valid()
      ensures tabs == Filter(old(tabs), LacksId(id))
      ensures activeTab == if old(activeTab) == id then old(tabs)[0].id else old(activeTab)
      ensures collapsedKeys == old(collapsedKeys) && formattedJSON == old(formattedJSON) && jsonError == old(jsonError)
    {
      var before := tabs;
      tabs := Filter(tabs, LacksId(id));
      if activeTab == id {
        activeTab := before[0].id;
      }
    }

    /** Sets the component's output pair from the formatter; the tabs are not touched. */
    method FormatJSON(content: string)
      requires Valid()
      modifies this
      ensures Valid()
      ensures Formatter.FormatResult(formattedJSON, jsonError) == Formatter.FormatJSON(content, json)
      ensures tabs == old(tabs) && activeTab == old(activeTab) && collapsedKeys == old(collapsedKeys)
    {
      var out := Formatter.FormatJSON(content, json);
      formattedJSON := out.formattedJSON;
      jsonError := out.jsonError;
    }

    /** Every tab with the active id takes the new text, then the text is formatted. */
    method HandleContentChange(value: string)
      requires Valid()
      modifies this
      ensures Valid()
      ensures tabs == MapWhere(old(tabs), HasId(activeTab), WithContent(value))
      ensures |tabs| == |old(tabs)|
      ensures forall i :: 0 <= i < |tabs| ==>
        tabs[i] == if old(tabs)[i].id == activeTab then old(tabs)[i].(content := value) else old(tabs)[i]
      ensures Formatter.FormatResult(formattedJSON, jsonError) == Formatter.FormatJSON(value, json)
      ensures activeTab == old(activeTab) && collapsedKeys == old(collapsedKeys)
    {
      tabs := MapWhere(tabs, HasId(activeTab), WithContent(value));
      FormatJSON(value);
    }

    /** Auto-pairs `{`, `[` and `(` in the textarea, then handles the new value as an edit. */
    method HandleKeyDown(target: Editor.Textarea, key: char)
      requires Valid() && target.Valid()
      modifies this, target
      ensures Valid() && target.Valid()
      ensures BracketCloser(key).None? ==> unchanged(this) && unchanged(target)
      ensures BracketCloser(key).Some? ==>
        && target.value == Editor.Splice(old(target.value), old(target.selectionStart), old(target.selectionEnd),
                                         key, BracketCloser(key).value)
        && target.selectionStart == target.selectionEnd == old(target.selectionStart) + 1
        && tabs == MapWhere(old(tabs), HasId(old(activeTab)), WithContent(target.value))
        && Formatter.FormatResult(formattedJSON, jsonError) == Formatter.FormatJSON(target.value, json)
        && activeTab == old(activeTab) && collapsedKeys == old(collapsedKeys)
    {
      var closingBracket := BracketCloser(key);
      if closingBracket.Some? {
        target.InsertPair(key, closingBracket.value);
        HandleContentChange(target.value);
      }
    }

    method ToggleCollapse(key: string)
      requires Valid()
      modifies this
      ensures Valid()
      ensures collapsedKeys == Toggle(old(collapsedKeys), key)
      ensures tabs == old(tabs) && activeTab == old(activeTab)
      ensures formattedJSON == old(formattedJSON) && jsonError == old(jsonError)
    {
      collapsedKeys := Toggle(collapsedKeys, key);
    }

    /** `tabs.find(tab => tab.id === activeTab)?.content || ''`: the first tab with the active id
        supplies the textarea's text; with none, the textarea is empty. */
    function EditorValue(): (r: string)
      reads this
      ensures (forall i :: 0 <= i < |tabs| ==> tabs[i].id != activeTab) ==> r == ""
      ensures forall i ::
        (0 <= i < |tabs| && tabs[i].id == activeTab && forall j :: 0 <= j < i ==> tabs[j].id != activeTab) ==>
        r == tabs[i].content
    {
      match Find(tabs, HasId(activeTab))
      case Some(t) => t.content
      case None => ""
    }

    /** `formattedJSON ? renderJSONWithCollapsible(JSON.parse(formattedJSON)) : hint`, drawn
        from depth 0 with the current collapse map. */
    function FormattedPane(): (r: Pane)
      reads this
      ensures r.Hint? <==> formattedJSON == ""
      ensures r.TreeView? <==> formattedJSON != "" && json.parse(formattedJSON).Parsed?
      ensures r.TreeView? ==> r.root == Render(json.parse(formattedJSON).value, 0, collapsedKeys)
    {
      if formattedJSON == "" then Hint
      else match json.parse(formattedJSON)
        case Parsed(v) => TreeView(Render(v, 0, collapsedKeys))
        case SyntaxError(_) => RenderThrows
    }
  }
}
