/** The `collapsedKeys` dictionary of `src/App.jsx`: which rendered entries are folded. An entry
    is addressed by the string `"<depth>-<key>"`, not by its position in the tree. */
module Collapse {
  import Text

  type CollapseMap = map<string, bool>

  /** `collapsedKeys[key]` as a condition: a key never toggled reads as `undefined`, i.e. expanded. */
  predicate IsCollapsed(m: CollapseMap, key: string) {
    key in m && m[key]
  }

  /** `{ ...prev, [key]: !prev[key] }`: flips one entry and leaves every other one as it was. */
  function Toggle(m: CollapseMap, key: string): (r: CollapseMap)
    ensures key in r && (IsCollapsed(r, key) <==> !IsCollapsed(m, key))
    ensures forall k :: k != key ==> (k in r <==> k in m)
    ensures forall k :: k != key && k in m ==> r[k] == m[k]
  {
    m[key := !IsCollapsed(m, key)]
  }

  /** Toggling a key twice restores what every key means, though a key that was missing is now
      stored as `false`. */
  lemma ToggleTwice(m: CollapseMap, key: string)
    ensures forall k :: IsCollapsed(Toggle(Toggle(m, key), key), k) <==> IsCollapsed(m, k)
    ensures Toggle(Toggle(m, key), key) == m[key := IsCollapsed(m, key)]
  {
  }

  /** `${depth}-${key}`. */
  function CollapseKey(depth: nat, key: string): string {
    Text.NatToString(depth) + "-" + key
  }

  /** Two entries share collapse state exactly when they sit at the same depth under the same
      key, wherever they are in the tree. */
  lemma {:induction false} CollapseKeyIff(d1: nat, k1: string, d2: nat, k2: string)
    ensures CollapseKey(d1, k1) == CollapseKey(d2, k2) <==> d1 == d2 && k1 == k2
  {
    if CollapseKey(d1, k1) == CollapseKey(d2, k2) {
      var s1, s2 := Text.NatToString(d1), Text.NatToString(d2);
      var c := CollapseKey(d1, k1);
      assert c == s1 + "-" + k1 && c == s2 + "-" + k2;
      // The first '-' of the key ends the depth, which is all digits.
      assert c[|s1|] == '-' && c[|s2|] == '-';
      assert |s1| == |s2|;
      assert s1 == c[..|s1|] == s2;
      Text.NatToStringInjective(d1, d2);
      assert k1 == c[|s1| + 1..] == k2;
    }
  }
}
