/** The string helpers the operator relies on: trimming white space and cutting at a separator. */
module Text {
  import opened Results

  predicate IsSpace(c: char) {
    || c in {'\t', '\n', '\U{0b}', '\U{0c}', '\r', ' ', '\U{85}', '\U{a0}', '\U{1680}', '\U{2028}', '\U{2029}', '\U{202f}', '\U{205f}', '\U{3000}'}
    || '\U{2000}' <= c <= '\U{200a}'
  }

  function TrimLeft(s: string, drop: char -> bool): string {
    if s != "" && drop(s[0]) then TrimLeft(s[1..], drop) else s
  }

  function TrimRight(s: string, drop: char -> bool): string {
    if s != "" && drop(s[|s| - 1]) then TrimRight(s[..|s| - 1], drop) else s
  }

  /** Without the leading and trailing characters to drop. */
  function Trim(s: string, drop: char -> bool): string {
    TrimRight(TrimLeft(s, drop), drop)
  }

  function TrimSpace(s: string): string {
    Trim(s, IsSpace)
  }

  predicate Trimmed(s: string) {
    s == "" || (!IsSpace(s[0]) && !IsSpace(s[|s| - 1]))
  }

  lemma {:induction false} TrimLeftMeaning(s: string, drop: char -> bool)
    ensures var t := TrimLeft(s, drop); t == "" || !drop(t[0])
    ensures |TrimLeft(s, drop)| <= |s| && s[|s| - |TrimLeft(s, drop)|..] == TrimLeft(s, drop)
    ensures forall i :: 0 <= i < |s| - |TrimLeft(s, drop)| ==> drop(s[i])
  {
    if s != "" && drop(s[0]) {
      TrimLeftMeaning(s[1..], drop);
    }
  }

  lemma {:induction false} TrimRightMeaning(s: string, drop: char -> bool)
    ensures var t := TrimRight(s, drop); t == "" || !drop(t[|t| - 1])
    ensures TrimRight(s, drop) <= s
    ensures forall i :: |TrimRight(s, drop)| <= i < |s| ==> drop(s[i])
  {
    if s != "" && drop(s[|s| - 1]) {
      TrimRightMeaning(s[..|s| - 1], drop);
    }
  }

  /** Trimming takes off exactly the outermost run of characters to drop on either side. */
  lemma TrimByMeaning(s: string, drop: char -> bool)
    ensures var t := Trim(s, drop); |t| <= |s| && (t == "" || (!drop(t[0]) && !drop(t[|t| - 1])))
    ensures exists i, j :: Surrounds(s, i, j, drop) && s[i..j] == Trim(s, drop)
  {
    var t := TrimLeft(s, drop);
    TrimLeftMeaning(s, drop);
    TrimRightMeaning(t, drop);
    var i, j := |s| - |t|, |s| - |t| + |Trim(s, drop)|;
    assert forall k :: i <= k < |s| ==> s[k] == t[k - i];
    assert Surrounds(s, i, j, drop) && s[i..j] == Trim(s, drop);
  }

  /** Every character before `i` and from `j` on is one to drop. */
  predicate Surrounds(s: string, i: int, j: int, drop: char -> bool) {
    && 0 <= i <= j <= |s|
    && (forall k :: 0 <= k < i ==> drop(s[k]))
    && (forall k :: j <= k < |s| ==> drop(s[k]))
  }

  /** Trimming leaves no outer white space and fixes what has none. */
  lemma TrimMeaning(s: string)
    ensures Trimmed(TrimSpace(s)) && |TrimSpace(s)| <= |s|
    ensures exists i, j :: Surrounds(s, i, j, IsSpace) && s[i..j] == TrimSpace(s)
    ensures Trimmed(s) ==> TrimSpace(s) == s
    ensures TrimSpace(TrimSpace(s)) == TrimSpace(s)
  {
    TrimByMeaning(s, IsSpace);
  }

  /** The parts before and after the first separator. */
  function Cut(s: string, sep: char): (r: Option<(string, string)>)
    ensures r.None? <==> sep !in s
    ensures r.Some? ==> sep !in r.value.0 && s == r.value.0 + [sep] + r.value.1
  {
    if s == "" then None
    else if s[0] == sep then
      assert s == [] + [sep] + s[1..];
      Some(("", s[1..]))
    else
      var r := Cut(s[1..], sep);
      if r.None? then None
      else
        assert s == [s[0]] + s[1..];
        Some(([s[0]] + r.value.0, r.value.1))
  }

  /** Cutting undoes joining when the first part is free of separators. */
  lemma CutJoin(a: string, sep: char, b: string)
    requires sep !in a
    ensures Cut(a + [sep] + b, sep) == Some((a, b))
  {
    hide Cut;
    var s := a + [sep] + b;
    assert s[|a|] == sep;
    var x, y := Cut(s, sep).value.0, Cut(s, sep).value.1;
    assert s[|x|] == sep;
    assert s[..|a|] == a && s[|a| + 1..] == b && s[..|x|] == x && s[|x| + 1..] == y;
  }
}
