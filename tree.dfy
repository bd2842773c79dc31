/** `renderJSONWithCollapsible` of `src/App.jsx`: the parsed value drawn as a tree whose object
    and array entries can be folded. The JSX is abstracted to a token tree that keeps what the
    markup shows: brackets, one row per entry, chevrons, labels, placeholders and separators. */
module Tree {
  import opened Wrappers
  import opened Json
  import opened Collapse
  import Lists
  import Text

  /** The clickable chevron before an entry: the collapse key it toggles and whether it points
      right (collapsed) or down. */
  datatype Chevron = Chevron(key: string, collapsed: bool)

  datatype Node =
    | Leaf(value: Value)                               // `JSON.stringify(obj)` of a primitive
    | Container(open: char, rows: seq<Row>, close: char)

  /** One `Object.entries` entry: chevron, `"key": ` label (empty in arrays), the value or a
      placeholder, and the trailing comma. */
  datatype Row = Row(chevron: Option<Chevron>, keyLabel: string, body: Body, separator: bool)

  datatype Body = Placeholder(text: string) | Nested(node: Node)

  function OpenBracket(isArray: bool): char {
    if isArray then '[' else '{'
  }

  function CloseBracket(isArray: bool): char {
    if isArray then ']' else '}'
  }

  /** `Object.entries(v).length`. */
  function EntryCount(v: Value): nat {
    match v
    case Arr(items) => |items|
    case Obj(members) => |members|
    case _ => 0
  }

  /** The key `Object.entries` gives entry `i`: the index as a string for an array. */
  function EntryKey(v: Value, i: nat): string
    requires i < EntryCount(v)
  {
    if v.Arr? then Text.NatToString(i) else v.members[i].0
  }

  function EntryValue(v: Value, i: nat): Value
    requires i < EntryCount(v)
  {
    if v.Arr? then v.items[i] else v.members[i].1
  }

  /** Each entry's row comes from `Object.entries(obj).map(...)`, in entry order. */
  function Render(v: Value, depth: nat, m: CollapseMap): (r: Node)
    ensures r.Container? <==> IsContainer(v)
    ensures r.Container? ==> |r.rows| == EntryCount(v)
    decreases v, 1
  {
    if !IsContainer(v) then Leaf(v)
    else Container(OpenBracket(v.Arr?),
                   seq(EntryCount(v), k requires 0 <= k < EntryCount(v) => RenderEntry(v, depth, m, k)),
                   CloseBracket(v.Arr?))
  }

  /** The row of entry `i`: folded and unfolded are decided by the key `"depth-key"` alone, the
      chevron only appears on containers, and only objects label their entries. */
  function RenderEntry(v: Value, depth: nat, m: CollapseMap, i: nat): (r: Row)
    requires i < EntryCount(v)
    ensures r.chevron.Some? <==> IsContainer(EntryValue(v, i))
    ensures r.chevron.Some? ==> r.chevron.value.key == CollapseKey(depth, EntryKey(v, i))
    ensures r.keyLabel == "" <==> v.Arr?
    ensures r.body.Placeholder? <==> IsCollapsed(m, CollapseKey(depth, EntryKey(v, i)))
    ensures r.separator <==> i + 1 < EntryCount(v)
    decreases v, 0
  {
    var key := CollapseKey(depth, EntryKey(v, i));
    var child := EntryValue(v, i);
    var collapsed := IsCollapsed(m, key);
    Row(
      if IsContainer(child) then Some(Chevron(key, collapsed)) else None,
      if v.Arr? then "" else "\"" + EntryKey(v, i) + "\": ",
      if collapsed then Placeholder(if v.Arr? then "[...]" else "{...}")
      else Nested(Render(child, depth + 1, m)),
      i < EntryCount(v) - 1)
  }

  /** A primitive is one leaf with no chevron and no recursion; an object or array is its
      opening bracket, one row per entry in `Object.entries` order, and its closing bracket. */
  lemma RenderShape(v: Value, depth: nat, m: CollapseMap)
    ensures Render(v, depth, m).Leaf? <==> !IsContainer(v)
    ensures !IsContainer(v) ==> Render(v, depth, m) == Leaf(v)
    ensures IsContainer(v) ==>
      var r := Render(v, depth, m);
      && r.open == (if v.Arr? then '[' else '{')
      && r.close == (if v.Arr? then ']' else '}')
      && |r.rows| == EntryCount(v)
      && forall k :: 0 <= k < EntryCount(v) ==> r.rows[k] == RenderEntry(v, depth, m, k)
  {
  }

  /** What the row of entry `k` shows: a chevron exactly when the value is an object or array,
      bound to the key `"depth-key"`; the `"key": ` label in objects only; a placeholder chosen
      by the PARENT's kind when that key is collapsed, otherwise the value drawn one level
      deeper; a comma after every entry but the last. */
  lemma RowShape(v: Value, depth: nat, m: CollapseMap, k: nat)
    requires IsContainer(v) && k < EntryCount(v)
    ensures var row := Render(v, depth, m).rows[k];
      var key := CollapseKey(depth, EntryKey(v, k));
      var child := EntryValue(v, k);
      && (row.chevron.Some? <==> IsContainer(child))
      && (row.chevron.Some? ==> row.chevron.value == Chevron(key, IsCollapsed(m, key)))
      && (row.keyLabel == if v.Arr? then "" else "\"" + EntryKey(v, k) + "\": ")
      && (IsCollapsed(m, key) ==> row.body == Placeholder(if v.Arr? then "[...]" else "{...}"))
      && (!IsCollapsed(m, key) ==> row.body == Nested(Render(child, depth + 1, m)))
      && (row.separator <==> k < EntryCount(v) - 1)
  {
    RenderShape(v, depth, m);
  }

  /** A primitive entry whose key happens to be collapsed shows a placeholder but no chevron,
      so it cannot be unfolded from that row. */
  lemma CollapsedPrimitiveStaysFolded(v: Value, depth: nat, m: CollapseMap, k: nat)
    requires IsContainer(v) && k < EntryCount(v)
    requires !IsContainer(EntryValue(v, k)) && IsCollapsed(m, CollapseKey(depth, EntryKey(v, k)))
    ensures Render(v, depth, m).rows[k].chevron.None?
    ensures Render(v, depth, m).rows[k].body.Placeholder?
  {
    RowShape(v, depth, m, k);
  }

  function IsSeparator(row: Row): bool {
    row.separator
  }

  lemma {:induction false} CountLeadingSeparators(rows: seq<Row>)
    requires forall k :: 0 <= k < |rows| ==> (rows[k].separator <==> k < |rows| - 1)
    ensures Lists.Count(rows, IsSeparator) == if rows == [] then 0 else |rows| - 1
  {
    if |rows| > 1 {
      CountLeadingSeparators(rows[1..]);
    }
  }

  /** A container with n entries draws max(n - 1, 0) commas: an empty one draws only its
      brackets. */
  lemma SeparatorCount(v: Value, depth: nat, m: CollapseMap)
    requires IsContainer(v)
    ensures Lists.Count(Render(v, depth, m).rows, IsSeparator) == if EntryCount(v) == 0 then 0 else EntryCount(v) - 1
  {
    var rows := Render(v, depth, m).rows;
    forall k | 0 <= k < |rows| ensures rows[k].separator <==> k < |rows| - 1 {
      RowShape(v, depth, m, k);
    }
    RenderShape(v, depth, m);
    CountLeadingSeparators(rows);
  }

  /** The drawing depends on the collapse map only through which keys read as collapsed. */
  lemma {:induction false} RenderRespectsCollapsedView(v: Value, depth: nat, m1: CollapseMap, m2: CollapseMap)
    requires forall k :: IsCollapsed(m1, k) <==> IsCollapsed(m2, k)
    ensures Render(v, depth, m1) == Render(v, depth, m2)
    decreases v
  {
    RenderShape(v, depth, m1);
    RenderShape(v, depth, m2);
    if IsContainer(v) {
      var r1, r2 := Render(v, depth, m1), Render(v, depth, m2);
      forall k | 0 <= k < EntryCount(v) ensures r1.rows[k] == r2.rows[k] {
        RenderRespectsCollapsedView(EntryValue(v, k), depth + 1, m1, m2);
      }
    }
  }

  /** Clicking the same chevron twice brings back the drawing it started from. */
  lemma ToggleTwiceRendersSame(v: Value, depth: nat, m: CollapseMap, key: string)
    ensures Render(v, depth, Toggle(Toggle(m, key), key)) == Render(v, depth, m)
  {
    ToggleTwice(m, key);
    RenderRespectsCollapsedView(v, depth, Toggle(Toggle(m, key), key), m);
  }

  /** Two expanded sibling containers that both hold an entry under the same key share that
      entry's fold: it is drawn as a placeholder in one exactly when it is in the other. */
  lemma SameKeySharedAcrossSiblings(v: Value, depth: nat, m: CollapseMap, i: nat, j: nat, p: nat, q: nat)
    requires IsContainer(v) && i < EntryCount(v) && j < EntryCount(v)
    requires !IsCollapsed(m, CollapseKey(depth, EntryKey(v, i)))
    requires !IsCollapsed(m, CollapseKey(depth, EntryKey(v, j)))
    requires IsContainer(EntryValue(v, i)) && p < EntryCount(EntryValue(v, i))
    requires IsContainer(EntryValue(v, j)) && q < EntryCount(EntryValue(v, j))
    requires EntryKey(EntryValue(v, i), p) == EntryKey(EntryValue(v, j), q)
    ensures Render(v, depth, m).rows[i].body == Nested(Render(EntryValue(v, i), depth + 1, m))
    ensures Render(v, depth, m).rows[j].body == Nested(Render(EntryValue(v, j), depth + 1, m))
    ensures Render(EntryValue(v, i), depth + 1, m).rows[p].body.Placeholder?
        <==> Render(EntryValue(v, j), depth + 1, m).rows[q].body.Placeholder?
  {
    RowShape(v, depth, m, i);
    RowShape(v, depth, m, j);
    RowShape(EntryValue(v, i), depth + 1, m, p);
    RowShape(EntryValue(v, j), depth + 1, m, q);
  }
}
