# JSON formatter: tab store, bracket auto-pairing and collapsible tree

A model of the logic inside a small React JSON-formatter UI. Users type JSON into a textarea.
The app validates and pretty-prints it and draws it as a tree whose entries can be folded.
Several documents are open at once, as tabs.

The repository holds two versions of the same component, and both are modelled:

- `src/json-formatter/index.tsx` with `editor.tsx`: the later version. Each tab record carries its own
  `formattedJSON` and `jsonError`. It has "Format" and "Clear" actions. The editor auto-pairs
  `{`, `[`, `(` and `"`.
  Modelled in modules `Tabs`, `Formatter` and `Editor`.
- `src/App.jsx`: the earlier single-file version. Tabs carry only their text. One output/error pair
  belongs to the whole component. The tree view is drawn with fold chevrons from a `collapsedKeys`
  dictionary. Its key handler pairs only `{`, `[` and `(`.
  Modelled in modules `App`, `Collapse` and `Tree`.

Shared pieces:

- `Json`: parsed values, plus the host's `JSON.parse`/`JSON.stringify` as a given pair of functions
  (`JsonLibrary`). `stringify` is typed to return a non-empty string. Both components run against a
  `JsonHost`: a library whose parser rejects the empty text, as every JSON parser must.
- `Lists`: the array operations the handlers use. These are `filter`, a `map` that rewrites only
  selected elements, and `find`/`findIndex`.
- `Text`: the decimal printing of a number inside a template literal.
- `Wrappers`: `Option`.

Each React handler is one atomic transition of the component state. The state is a class with
one field per `useState` hook. Each handler method is specified by a function on the old state.
The properties are proved as lemmas about those functions.

The model follows the code, including its quirks:

- A new tab's id is the list length plus one. After a removal it can repeat an id already in the
  list (`Tabs.AddAfterRemoveReusesId`).
- Removing the active tab selects the first tab of the list as it was *before* the removal. That
  can be the tab just removed, and then `activeTab` names no tab (`Tabs.RemoveFirstActiveDangles`).
- Handlers select tabs by id with `map`. So an edit, a clear or a format acts on *every* tab that
  carries the active id. `formatActiveTab` formats the content of the first such tab and gives the
  result to all of them (`Tabs.FormatWithSharedIdCopiesFirst`).
- Formatting never rewrites a tab's `content`.
- Empty text is not valid JSON. So typing into a tab until it is empty shows an error, not a blank
  output (`Tabs.EmptyEditShowsError`). A tab is blank only when it is new or has just been cleared.
- The collapse key of an entry is `"<depth>-<key>"`. Entries at the same depth under the same key
  share their fold state anywhere in the tree (`Tree.SameKeySharedAcrossSiblings`). An array index
  and an object key with the same digits also share it. Two entries share a key exactly when depth
  and key are equal (`Collapse.CollapseKeyIff`).
- The placeholder for a folded entry is picked by the parent's kind, not the entry's. A primitive
  entry whose key is folded shows a placeholder and has no chevron to unfold it
  (`Tree.CollapsedPrimitiveStaysFolded`).

Some documents describe this system differently. Where they disagree, the model follows the code:

- Ids are allocated as length + 1, not max + 1.
- Removing the last tab does not recreate a default tab.
- Nothing is persisted.
- "Format" does not overwrite the editor text.
- Empty content gets an error rather than two empty outputs.

## Model

| member | source | states |
|---|---|---|
| `Tabs.JsonFormatter.constructor` | src/json-formatter/index.tsx:16-19 | The component starts with one blank tab with id 1, named "Tab 1", and that tab is active. |
| `Tabs.JsonFormatter.AddTab` | src/json-formatter/index.tsx:23-33 | Appends exactly one tab. Its id is the old length + 1 and its name is "Tab " followed by that number. Its three text fields are empty. The new tab becomes active, and the existing tabs are unchanged and in order. |
| `Tabs.AddAfterRemoveReusesId` | src/json-formatter/index.tsx:25 | Start from tabs with ids 1..n. Remove any id below n, then add a tab. The result holds n tabs, and the last two both have id n. |
| `Tabs.Removed` | src/json-formatter/index.tsx:36 | The new list keeps exactly the tabs whose id differs, as a subsequence of the old list. Every such tab is kept and no tab with the id remains. Its length is the old length minus the number of tabs with the id. If no tab has the id, the list is unchanged. |
| `Lists.Filter` | src/json-formatter/index.tsx:36 | `filter` returns the accepted elements as a subsequence of the input. Its length is the number of accepted elements, it contains all of them and nothing else, and it is the input itself when every element is accepted. |
| `Lists.FilterUnique` | src/json-formatter/index.tsx:36 | Only one subsequence holds exactly as many accepted elements as the input has: the result of `filter`. So "the tabs whose id differs, in their original order" determines the result. |
| `Tabs.JsonFormatter.RemoveTab` | src/json-formatter/index.tsx:35-40 | The tabs become `Removed(tabs, id)`. If the removed id was active, `activeTab` becomes the id of the first tab before removal; otherwise it is unchanged. The handler needs a non-empty list only when it removes the active id. |
| `Tabs.RemoveFirstActiveDangles` | src/json-formatter/index.tsx:37-39 | After removing the active first tab, no tab has the active id. The shown tab falls back to the new first tab, or to nothing. Editing, clearing and formatting then change no tab. |
| `Tabs.ContentChanged` | src/json-formatter/index.tsx:42-47 | Keeps the list length and order and leaves every tab without the active id unchanged. Each tab with the active id keeps its id and name. It takes the new content and the formatter's output and error for that content. |
| `Tabs.JsonFormatter.HandleContentChange` | src/json-formatter/index.tsx:42-47 | The tabs become `ContentChanged(tabs, activeTab, content)`. `activeTab` is unchanged, and no tab ever shows an output and an error at once. |
| `Tabs.ContentChangeSyncs` | src/json-formatter/index.tsx:42-47 | After an edit, every tab with the active id shows what the formatter makes of its new content. A list in which every tab was consistent this way stays so. |
| `Lists.MapWhere` | src/json-formatter/index.tsx:43-45 | The update `map` keeps the length. It rewrites exactly the selected elements and leaves every other element as it was. |
| `Formatter.FormatJSON` | src/json-formatter/index.tsx:49-56 | If the parse succeeds, the output is the printed value (never empty) and the error is empty. If the parse fails, the output is empty and the error is "Invalid JSON: " followed by the parser's message. Exactly one of the two is non-empty. |
| `Formatter.EmptyIsError` | src/json-formatter/index.tsx:49-56 | For a host whose parser rejects the empty text, formatting empty text gives no output and the error "Invalid JSON: " followed by the parser's message. |
| `Tabs.EmptyEditShowsError` | src/json-formatter/index.tsx:42-56 | Editing a tab's text to empty leaves it with empty content and output but with the parser's error, so it is not blank. |
| `Tabs.ClearedActive` | src/json-formatter/index.tsx:58-63 | Every tab with the active id gets empty content, output and error, and keeps its id and name. All other tabs and the list length are unchanged. |
| `Tabs.ClearIdempotent` | src/json-formatter/index.tsx:58-63 | Clearing twice gives the same list as clearing once. |
| `Tabs.JsonFormatter.ClearActiveTab` | src/json-formatter/index.tsx:58-63 | The tabs become `ClearedActive(tabs, activeTab)`, and `activeTab` is unchanged. |
| `Tabs.FormattedActive` | src/json-formatter/index.tsx:65-74 | If no tab has the active id, nothing changes. No tab's id, name or content ever changes, and tabs without the active id are untouched. Each tab with the active id gets the output and error of formatting the first such tab's content. |
| `Tabs.JsonFormatter.FormatActiveTab` | src/json-formatter/index.tsx:65-74 | The tabs become `FormattedActive(tabs, activeTab)`. `activeTab` is unchanged, and output and error stay exclusive. |
| `Tabs.FormatSyncsWhenIdsUnique` | src/json-formatter/index.tsx:65-74 | When ids are unique, the active tab's output is the formatting of its own content. Every tab that matched its content still does after formatting. |
| `Tabs.FormatWithSharedIdCopiesFirst` | src/json-formatter/index.tsx:66-71 | Take any two tabs, at positions i < j, that share the active id and whose contents format differently. After formatting, both show the same output, so at least one no longer matches its own content. If tab i is the first with that id, tab j is the one that no longer matches. |
| `Lists.FindIndex` | src/json-formatter/index.tsx:66 | `findIndex` returns the first index whose element matches, or nothing exactly when no element matches. |
| `Lists.Find` | src/json-formatter/index.tsx:66 | `find` returns the first matching element, or nothing exactly when no element matches. |
| `Tabs.ActiveTabData` | src/json-formatter/index.tsx:76 | The shown tab is the first tab with the active id whenever some tab has it. Otherwise it is the first tab. It is nothing (the render would throw) exactly when the list is empty. |
| `Tabs.ReusedIdShowsOlderTab` | src/json-formatter/index.tsx:76 | When an appended tab reuses an id that the list already holds, the shown tab for that id stays the older one. With ids [1, 3] plus a new tab 3, the old tab 3 is shown, not the new blank one. |
| `Editor.Closer` | src/json-formatter/editor.tsx:17-19 | Exactly `{`, `[`, `(` and `"` get a closer: `}`, `]`, `)` and `"`. Only the quote closes with itself. |
| `Editor.Splice` | src/json-formatter/editor.tsx:22 | The new length is the old length minus the selection length plus 2. The text before the selection start is kept, then the opener, then the closer, then the text after the selection end. The selected text is deleted, not wrapped. |
| `Editor.SpliceUndo` | src/json-formatter/editor.tsx:22 | Taking the inserted pair back out gives the text with the selection deleted. With an empty selection that is the original text. |
| `Editor.PairsNest` | src/json-formatter/editor.tsx:22-24 | Typing a second opener at the cursor left by the first one nests the pairs: the result is opener1, opener2, closer2, closer1. |
| `Editor.Textarea.SetSelectionRange` | src/json-formatter/editor.tsx:24 | Moves the selection to the given range and keeps the text. |
| `Editor.Textarea.InsertPair` | src/json-formatter/editor.tsx:21-24 | The textarea value becomes `Splice(value, selectionStart, selectionEnd, opener, closer)`. The cursor is collapsed at the old start + 1, with the opener just before it and the closer at it. |
| `Editor.HandleContentChange` | src/json-formatter/editor.tsx:12-14 | `onChange` receives exactly the textarea's current value. |
| `Editor.HandleKeyDown` | src/json-formatter/editor.tsx:16-27 | For an opening key, the value is spliced and the cursor is collapsed between the pair. `onChange` then receives exactly the new value. For any other key, the textarea is untouched and `onChange` is not called. |
| `App.JsonFormatter.constructor` | src/App.jsx:5-11 | The app starts with one empty tab with id 1, which is active. The collapse map is empty, and there is no output and no error. |
| `App.JsonFormatter.AddTab` | src/App.jsx:15-19 | Appends a tab with id length + 1 and name "Tab " followed by that number, and makes it active. Output, error and collapse map are unchanged. |
| `App.JsonFormatter.RemoveTab` | src/App.jsx:21-26 | Keeps the tabs whose id differs. If the removed id was active, the old first tab's id becomes active. Output, error and collapse map are unchanged. |
| `App.JsonFormatter.FormatJSON` | src/App.jsx:36-45 | Sets the component's output and error to the formatter's result for the text. Tabs, active id and collapse map are unchanged. |
| `App.JsonFormatter.HandleContentChange` | src/App.jsx:28-34 | Each tab with the active id takes the new text and all others are unchanged. The component's output and error become the formatter's result for that text. |
| `App.BracketCloser` | src/App.jsx:48-50 | Exactly `{`, `[` and `(` get a closer: `}`, `]` and `)`. |
| `App.BracketCloserAgrees` | src/App.jsx:48-50 | This version pairs the same closers as the later editor, except that it does not pair the double quote. |
| `App.JsonFormatter.HandleKeyDown` | src/App.jsx:47-57 | For `{`, `[` or `(`, splices the pair in place of the selection and puts the cursor between them. It then handles the new textarea value as an edit. Any other key changes nothing. |
| `App.JsonFormatter.ToggleCollapse` | src/App.jsx:59-61 | The collapse map becomes `Toggle(map, key)`, and nothing else changes. |
| `Collapse.Toggle` | src/App.jsx:59-61 | Flips the collapsed meaning of `key`, where a missing key reads as not collapsed. Every other key keeps its presence and value. |
| `Collapse.ToggleTwice` | src/App.jsx:59-61 | Toggling twice restores the collapsed meaning of every key. The only trace is that the key is now stored with its old meaning. |
| `Collapse.CollapseKeyIff` | src/App.jsx:77-84 | `"<depth>-<key>"` keys are equal exactly when depth and key are equal. So fold state is shared by exactly the entries with the same depth and key. |
| `Text.NatToString` | src/App.jsx:77 | Prints a number as a non-empty string of decimal digits with no leading zero. |
| `Text.NatToStringInjective` | src/App.jsx:77 | Different depths print as different strings. |
| `Tree.Render` | src/App.jsx:63-103 | Its own contract states only the outline: the drawing is a container exactly when the value is an object or array, and then it has one row per entry. `Tree.RenderShape` and `Tree.RowShape` state the rest. |
| `Tree.RenderEntry` | src/App.jsx:76-98 | The row of one entry has a chevron exactly when the value is an object or array, bound to the key `"<depth>-<key>"`. Its label is empty exactly in arrays. It shows a placeholder exactly when that key reads as folded. It has a comma exactly when it is not the last entry. |
| `Tree.RenderShape` | src/App.jsx:63-103 | A primitive is drawn as one leaf holding the value, with no rows. An array is drawn as `[`, one row per entry in entry order, then `]`, and an object the same way with `{` and `}`. |
| `Tree.RowShape` | src/App.jsx:76-98 | A row has a chevron exactly when its value is an object or array. The chevron is bound to `"<depth>-<key>"` and shows the fold state. The `"key": ` label appears in objects only. A folded entry shows `[...]` in an array parent and `{...}` in an object parent. An unfolded entry draws its value at depth + 1. Every row but the last has a comma. |
| `Tree.CollapsedPrimitiveStaysFolded` | src/App.jsx:82-93 | A primitive entry whose key is folded has no chevron and shows a placeholder. |
| `Tree.SeparatorCount` | src/App.jsx:96 | A container with n entries draws max(n − 1, 0) commas. |
| `Tree.RenderRespectsCollapsedView` | src/App.jsx:77-94 | The drawing depends on the collapse map only through which keys read as folded. |
| `Tree.ToggleTwiceRendersSame` | src/App.jsx:59-94 | Clicking the same chevron twice gives back the original drawing. |
| `Tree.SameKeySharedAcrossSiblings` | src/App.jsx:77-94 | Take two unfolded sibling containers that each hold an entry under the same key. That entry is folded in one exactly when it is folded in the other. |
| `App.JsonFormatter.EditorValue` | src/App.jsx:147 | The textarea shows the content of the first tab with the active id. If no tab has that id, it shows the empty string. |
| `App.JsonFormatter.FormattedPane` | src/App.jsx:163-167 | With no output, the pane shows the hint. Otherwise it shows the drawing, from depth 0, of the re-parsed output under the current collapse map. It throws if the re-parse fails. |

## Left out

- `JSON.parse` and `JSON.stringify(_, null, 2)` are the host's library. They are a given pair of functions (`Json.JsonLibrary`), not the RFC 8259 grammar. So the model has no 2-space layout, no error-message text and no round-trip guarantee.
- Numbers are `real` values inside `Json.Value`. JavaScript's floating point is not modelled.
- `Json.Value`'s object members are taken to be in `Object.entries` order, with distinct keys. The engine's ordering rule (integer-like keys first) and the parser's merging of duplicate keys are not modelled.
- Strings are sequences of `char`, and a Dafny `char` is a Unicode scalar value. JavaScript strings and `selectionStart`/`selectionEnd` count UTF-16 code units. So for text with characters outside the Basic Multilingual Plane (emoji, for example), the offsets in `Editor.Splice` and `Editor.Textarea.InsertPair` differ from the browser's. Such text is not modelled.
- JSX/DOM output, CSS classes, icons and the sidebar open/close toggle are presentation. The tree view is a token tree (`Tree.Node`), and the leaf of a primitive holds the value rather than its printed text.
- The `useEffect` textarea auto-resize reads the DOM's `scrollHeight`, so it is not modelled.
- The browser's own handling of a key that `handleKeyDown` does not pair, and the `onChange` it then fires, are not modelled. `Editor.HandleContentChange` stands for that path.
- `setSelectionRange` is modelled only for in-range arguments, which is how the handler calls it. The DOM's clamping of other arguments is not modelled.
- React's asynchronous batching of `setState` is not modelled. Each handler is an atomic transition from the current state.
- `src/json-formatter/sidebar.tsx` (its close-button test `!sidebarOpen || tab.id !== 1`), `src/json-formatter/formatterdView.tsx` (a wrapper over a third-party viewer) and `src/main.jsx` (bootstrap) are not part of this model.
- Persistence, storage keys, max + 1 id allocation, recreating a default tab and overwriting content on format do not exist in this code, so they are not modelled.
- The `setActiveTab` click on a sidebar entry is a plain field assignment with no logic, so it is not modelled.
