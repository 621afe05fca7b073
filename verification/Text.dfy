/** Searching, trimming and ASCII case folding over text.

    A byte of the wire is a `char`; every statement below holds for all chars, so in particular
    for the 256 byte values. */
module Text {
  import opened Wrappers

  const CRLF: string := "\r\n"
  const CRLFCRLF: string := "\r\n\r\n"

  /** `pattern` stands in `text` at `index`. */
  predicate At(text: string, pattern: string, index: nat) {
    index + |pattern| <= |text| && forall k :: 0 <= k < |pattern| ==> text[index + k] == pattern[k]
  }

  /** The first occurrence of `pattern` at or after `from` (`std::string_view::find`). */
  function Find(text: string, pattern: string, from: nat): (r: Option<nat>)
    ensures r.Some? ==> from <= r.value && At(text, pattern, r.value)
    ensures r.Some? ==> forall j :: from <= j < r.value ==> !At(text, pattern, j)
    ensures r.None? ==> forall j :: from <= j ==> !At(text, pattern, j)
    decreases |text| - from
  {
    if |text| < from + |pattern| then None
    else if At(text, pattern, from) then Some(from)
    else if from < |text| then Find(text, pattern, from + 1)
    else None
  }

  /** The postcondition of `Find` determines its result. */
  lemma FindIs(text: string, pattern: string, from: nat, index: nat)
    requires from <= index && At(text, pattern, index)
    requires forall j :: from <= j < index ==> !At(text, pattern, j)
    ensures Find(text, pattern, from) == Some(index)
  {
    var r := Find(text, pattern, from);
  }

  /** A match that ends inside a window is a match of the window, at the shifted index. */
  lemma AtInWindow(text: string, pattern: string, lo: nat, hi: nat, index: nat)
    requires lo <= hi <= |text| && index + |pattern| <= hi - lo
    ensures At(text[lo..hi], pattern, index) <==> At(text, pattern, lo + index)
  {
    var window := text[lo..hi];
    forall k | 0 <= k < |pattern|
      ensures window[index + k] == pattern[k] <==> text[lo + index + k] == pattern[k]
    {
    }
  }

  /** Appending text neither makes nor breaks a match that ends before the appended part. */
  lemma AtStable(text: string, longer: string, pattern: string, index: nat)
    requires text <= longer && index + |pattern| <= |text|
    ensures At(longer, pattern, index) <==> At(text, pattern, index)
  {
    assert longer[0..|text|] == text;
    AtInWindow(longer, pattern, 0, |text|, index);
  }

  /** An occurrence that has been found stays the first one when text is appended; one that has
      not been found ends beyond the shorter text. */
  lemma FindStable(text: string, longer: string, pattern: string, from: nat)
    requires text <= longer
    ensures match Find(text, pattern, from)
            case Some(k) => Find(longer, pattern, from) == Some(k)
            case None => match Find(longer, pattern, from)
                         case Some(k) => |text| < k + |pattern|
                         case None => true
  {
    forall j: nat | j + |pattern| <= |text|
      ensures At(longer, pattern, j) <==> At(text, pattern, j)
    {
      AtStable(text, longer, pattern, j);
    }
    var short := Find(text, pattern, from);
    if short.Some? {
      FindIs(longer, pattern, from, short.value);
    }
  }

  lemma FoundInside(text: string, pattern: string, from: nat)
    ensures Find(text, pattern, from).Some? ==> Find(text, pattern, from).value + |pattern| <= |text|
  {
  }

  /** The first occurrence of a character at or after `from` (`find` with a character). */
  function FindChar(text: string, c: char, from: nat): (r: Option<nat>)
    ensures r.Some? ==> from <= r.value < |text| && text[r.value] == c
    ensures r.Some? ==> forall j :: from <= j < r.value ==> text[j] != c
    ensures r.None? ==> forall j :: from <= j < |text| ==> text[j] != c
    decreases |text| - from
  {
    if |text| <= from then None
    else if text[from] == c then Some(from)
    else FindChar(text, c, from + 1)
  }

  lemma FindCharIs(text: string, c: char, from: nat, index: nat)
    requires from <= index < |text| && text[index] == c
    requires forall j :: from <= j < index ==> text[j] != c
    ensures FindChar(text, c, from) == Some(index)
  {
    var r := FindChar(text, c, from);
  }

  /** A text joined at a mark, taken apart there. */
  lemma JoinedAt(front: string, mark: char, back: string)
    ensures var text, n := front + ([mark] + back), |front|;
            |text| == n + 1 + |back| && text[..n] == front && text[n] == mark && text[n + 1..] == back
  {
  }

  predicate IsBlank(c: char) {
    c == ' ' || c == '\t'
  }

  /** The first position at or after `from` that holds no blank, or the end. */
  function SkipBlanks(text: string, from: nat): (r: nat)
    requires from <= |text|
    ensures from <= r <= |text| && (r < |text| ==> !IsBlank(text[r]))
    ensures forall j :: from <= j < r ==> IsBlank(text[j])
    decreases |text| - from
  {
    if from < |text| && IsBlank(text[from]) then SkipBlanks(text, from + 1) else from
  }

  /** The position behind the last character in `[lo, hi)` that is no blank, or `lo`. */
  function DropBlanks(text: string, lo: nat, hi: nat): (r: nat)
    requires lo <= hi <= |text|
    ensures lo <= r <= hi && (lo < r ==> !IsBlank(text[r - 1]))
    ensures forall j :: r <= j < hi ==> IsBlank(text[j])
    decreases hi
  {
    if lo < hi && IsBlank(text[hi - 1]) then DropBlanks(text, lo, hi - 1) else hi
  }

  /** Strips blanks (space and tab) from both ends (`TrimOptionalWhitespace`). */
  function Trim(text: string): string {
    var begin := SkipBlanks(text, 0);
    text[begin..DropBlanks(text, begin, |text|)]
  }

  predicate Trimmed(text: string) {
    text == "" || (!IsBlank(text[0]) && !IsBlank(text[|text| - 1]))
  }

  /** Text without outer blanks survives, also behind the blank a printer puts in front. */
  lemma TrimOfTrimmed(text: string)
    requires Trimmed(text)
    ensures Trim(text) == text
    ensures Trim([' '] + text) == text
  {
    var padded := [' '] + text;
    assert padded[1..] == text;
    assert padded[|padded| - 1] == if text == "" then ' ' else text[|text| - 1];
    assert SkipBlanks(padded, 0) == SkipBlanks(padded, 1) == 1;
  }

  lemma TrimIsTrimmed(text: string)
    ensures Trimmed(Trim(text))
  {
  }

  function Lower(c: char): char {
    if 'A' <= c <= 'Z' then c + 32 as char else c
  }

  /** Equality up to ASCII case (`CaseInsensitiveEqual`). */
  predicate SameName(left: string, right: string) {
    |left| == |right| && forall i :: 0 <= i < |left| ==> Lower(left[i]) == Lower(right[i])
  }

  lemma SameItself(name: string)
    ensures SameName(name, name)
  {
  }

  lemma OtherLength(left: string, right: string)
    requires |left| != |right|
    ensures !SameName(left, right)
  {
  }

  lemma OtherFirst(left: string, right: string)
    requires left != "" && right != "" && Lower(left[0]) != Lower(right[0])
    ensures !SameName(left, right)
  {
  }

  /** Strict lexicographic order of the folded names (`CaseInsensitiveLess`). */
  predicate NameLess(left: string, right: string) {
    if right == "" then false
    else if left == "" then true
    else if Lower(left[0]) != Lower(right[0]) then Lower(left[0]) < Lower(right[0])
    else NameLess(left[1..], right[1..])
  }

  lemma NameLessTotal(left: string, right: string)
    ensures NameLess(left, right) || NameLess(right, left) || SameName(left, right)
    ensures SameName(left, right) ==> !NameLess(left, right)
  {
    if left != "" && right != "" {
      NameLessTotal(left[1..], right[1..]);
      SameNameTail(left, right);
    }
  }

  lemma SameNameTail(left: string, right: string)
    requires left != "" && right != ""
    ensures SameName(left, right) <==> Lower(left[0]) == Lower(right[0]) && SameName(left[1..], right[1..])
  {
    if Lower(left[0]) == Lower(right[0]) && SameName(left[1..], right[1..]) {
      forall i | 0 <= i < |left| ensures Lower(left[i]) == Lower(right[i]) {
        if 0 < i {
          assert Lower(left[1..][i - 1]) == Lower(right[1..][i - 1]);
        }
      }
    }
  }

  lemma NameLessTransitive(a: string, b: string, c: string)
    requires NameLess(a, b) && NameLess(b, c)
    ensures NameLess(a, c)
  {
    if a != "" && Lower(a[0]) == Lower(b[0]) && Lower(b[0]) == Lower(c[0]) {
      NameLessTransitive(a[1..], b[1..], c[1..]);
    }
  }
}
