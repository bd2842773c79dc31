/** The `Editor` component of `src/json-formatter/editor.tsx`: a textarea that closes brackets
    and quotes as they are typed, and forwards every new value to its `onChange` prop. */
module Editor {
  import opened Wrappers

  /** The character auto-inserted after an opening key, if the key is one. */
  function Closer(key: char): (r: Option<char>)
    ensures r.Some? <==> key == '{' || key == '[' || key == '(' || key == '"'
    ensures r.Some? ==> [key, r.value] in {"{}", "[]", "()", "\"\""}
  {
    match key
    case '{' => Some('}')
    case '[' => Some(']')
    case '(' => Some(')')
    case '"' => Some('"')
    case _ => None
  }

  /** `value.slice(0, start) + opener + closer + value.slice(end)`: the selection is replaced
      by the pair, not wrapped in it. */
  function Splice(value: string, start: nat, end: nat, opener: char, closer: char): (r: string)
    requires start <= end <= |value|
    ensures |r| == |value| - (end - start) + 2
    ensures r[..start] == value[..start]
    ensures r[start] == opener && r[start + 1] == closer
    ensures r[start + 2..] == value[end..]
  {
    value[..start] + [opener, closer] + value[end..]
  }

  /** Taking the inserted pair back out leaves the text with the selection deleted; with an
      empty selection it restores the text exactly. */
  lemma SpliceUndo(value: string, start: nat, end: nat, opener: char, closer: char)
    requires start <= end <= |value|
    ensures var r := Splice(value, start, end, opener, closer);
      r[..start] + r[start + 2..] == value[..start] + value[end..]
      && (start == end ==> r[..start] + r[start + 2..] == value)
  {
    assert value[..start] + value[start..] == value;
  }

  /** Typing a second opener at the cursor the first one left nests the pairs:
      `{` then `[` gives `{[]}` around the cursor. */
  lemma {:induction false} PairsNest(value: string, start: nat, end: nat, o1: char, c1: char, o2: char, c2: char)
    requires start <= end <= |value|
    ensures Splice(Splice(value, start, end, o1, c1), start + 1, start + 1, o2, c2)
      == value[..start] + [o1, o2, c2, c1] + value[end..]
  {
    var once := Splice(value, start, end, o1, c1);
    assert once[..start + 1] == value[..start] + [o1];
    assert once[start + 1..] == [c1] + value[end..];
  }

  /** The DOM textarea: its text and its selection `[selectionStart, selectionEnd)`. */
  class Textarea {
    var value: string
    var selectionStart: nat
    var selectionEnd: nat

    ghost predicate Valid()
      reads this
    {
      selectionStart <= selectionEnd <= |value|
    }

    constructor (value: string, selectionStart: nat, selectionEnd: nat)
      requires selectionStart <= selectionEnd <= |value|
      ensures Valid()
      ensures this.value == value && this.selectionStart == selectionStart && this.selectionEnd == selectionEnd
    {
      this.value := value;
      this.selectionStart := selectionStart;
      this.selectionEnd := selectionEnd;
    }

    method SetSelectionRange(start: nat, end: nat)
      requires start <= end <= |value|
      modifies this
      ensures Valid()
      ensures value == old(value) && selectionStart == start && selectionEnd == end
    {
      selectionStart, selectionEnd := start, end;
    }

    /** The body of `handleKeyDown` for an opening key: splice the pair in place of the
        selection and put a collapsed cursor between the two characters. */
    method InsertPair(opener: char, closer: char)
      requires Valid()
      modifies this
      ensures Valid()
      ensures value == Splice(old(value), old(selectionStart), old(selectionEnd), opener, closer)
      ensures selectionStart == selectionEnd == old(selectionStart) + 1
      ensures value[selectionStart - 1] == opener && value[selectionStart] == closer
    {
      var start, end := selectionStart, selectionEnd;
      value := value[..start] + [opener, closer] + value[end..];
      SetSelectionRange(start + 1, start + 1);
    }
  }

  /** `handleContentChange`: what `onChange` receives is the textarea's current value. */
  method HandleContentChange(target: Textarea) returns (content: string)
    ensures content == target.value
  {
    content := target.value;
  }

  /** `handleKeyDown`. The result is the argument of the `onChange` call it makes, `None` when
      it makes none. For a key that opens nothing, the textarea is left alone here and the
      browser's own insertion follows. */
  method HandleKeyDown(target: Textarea, key: char) returns (changed: Option<string>)
    requires target.Valid()
    modifies target
    ensures target.Valid()
    ensures Closer(key).None? ==> changed == None && unchanged(target)
    ensures Closer(key).Some? ==>
      && target.value == Splice(old(target.value), old(target.selectionStart), old(target.selectionEnd), key, Closer(key).value)
      && target.selectionStart == target.selectionEnd == old(target.selectionStart) + 1
      && changed == Some(target.value)
  {
    changed := None;
    var closer := Closer(key);
    if closer.Some? {
      target.InsertPair(key, closer.value);
      var content := HandleContentChange(target);
      changed := Some(content);
    }
  }
}
