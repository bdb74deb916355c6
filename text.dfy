/**
 * The Kotlin string primitives the note app relies on, stated over Dafny strings
 * (sequences of Unicode scalar values): `isBlank`, `lowercase`,
 * `contains(ignoreCase = true)`, `compareTo` and `joinToString`.
 *
 * Case folding is ASCII only: `LowerChar` maps 'A'..'Z' to 'a'..'z' and leaves
 * every other character alone, where Kotlin folds the whole Unicode range.
 */
module Text {

  /** Kotlin's `Char.isWhitespace()` on the JVM, which is
      `Character.isWhitespace(c) || Character.isSpaceChar(c)`: the ASCII control
      whitespace U+0009..U+000D and U+001C..U+001F, and every character of the
      Unicode space, line and paragraph separator categories. */
  predicate IsWhitespace(c: char)
  {
    || c == ' '
    || '\t' <= c <= '\r'
    || '\U{001C}' <= c <= '\U{001F}'
    || c == '\U{00A0}'
    || c == '\U{1680}'
    || '\U{2000}' <= c <= '\U{200A}'
    || c == '\U{2028}'
    || c == '\U{2029}'
    || c == '\U{202F}'
    || c == '\U{205F}'
    || c == '\U{3000}'
  }

  /** `CharSequence.isBlank()`: empty, or made of whitespace only. */
  predicate IsBlank(s: string)
  {
    forall i :: 0 <= i < |s| ==> IsWhitespace(s[i])
  }

  /** ASCII-only stand-in for `Char.lowercaseChar()`. */
  function LowerChar(c: char): (d: char)
    ensures !('A' <= d <= 'Z')
    ensures 'A' <= c <= 'Z' ==> d as int == c as int + 32
    ensures !('A' <= c <= 'Z') ==> d == c
  {
    if 'A' <= c <= 'Z' then (c as int + 32) as char else c
  }

  /** `String.lowercase()` with the ASCII fold of `LowerChar`. */
  function Lower(s: string): (r: string)
    ensures |r| == |s|
    ensures forall i :: 0 <= i < |s| ==> r[i] == LowerChar(s[i])
  {
    seq(|s|, i requires 0 <= i < |s| => LowerChar(s[i]))
  }

  /** `p` occurs in `t` starting at index `i`. */
  predicate OccursAt(p: string, t: string, i: int)
  {
    0 <= i <= |t| - |p| && t[i..i + |p|] == p
  }

  /** `text.contains(query, ignoreCase = true)`: some window of `text` equals
      `query` up to case, the window compared character by character. */
  predicate ContainsIgnoreCase(text: string, query: string)
  {
    exists i :: 0 <= i <= |text| - |query| && OccursAt(Lower(query), Lower(text), i)
  }

  /** `a.compareTo(b) < 0`: lexicographic order on characters, a proper prefix
      coming first. */
  predicate LexLess(a: string, b: string)
    decreases |a|
  {
    if |a| == 0 then |b| > 0
    else if |b| == 0 then false
    else if a[0] != b[0] then a[0] < b[0]
    else LexLess(a[1..], b[1..])
  }

  lemma {:induction false} LexLessIrreflexive(a: string)
    ensures !LexLess(a, a)
    decreases |a|
  {
    if |a| > 0 {
      LexLessIrreflexive(a[1..]);
    }
  }

  lemma {:induction false} LexLessTransitive(a: string, b: string, c: string)
    requires LexLess(a, b) && LexLess(b, c)
    ensures LexLess(a, c)
    decreases |a|
  {
    if |a| > 0 && |b| > 0 && |c| > 0 && a[0] == b[0] && b[0] == c[0] {
      LexLessTransitive(a[1..], b[1..], c[1..]);
    }
  }

  /** Any two different strings are ordered one way or the other. */
  lemma {:induction false} LexLessTotal(a: string, b: string)
    ensures a == b || LexLess(a, b) || LexLess(b, a)
    decreases |a|
  {
    if |a| > 0 && |b| > 0 && a[0] == b[0] {
      LexLessTotal(a[1..], b[1..]);
      if a[1..] == b[1..] {
        assert a == [a[0]] + a[1..] && b == [b[0]] + b[1..];
      }
    }
  }

  lemma LexLessAsymmetric(a: string, b: string)
    requires LexLess(a, b)
    ensures !LexLess(b, a)
  {
    if LexLess(b, a) {
      LexLessTransitive(a, b, a);
      LexLessIrreflexive(a);
    }
  }

  /** `labels.joinToString(sep)`. */
  function Join(labels: seq<string>, sep: string): string
    decreases |labels|
  {
    if |labels| == 0 then ""
    else if |labels| == 1 then labels[0]
    else labels[0] + sep + Join(labels[1..], sep)
  }

  /** Where the `i`-th label starts in `Join(labels, sep)`. */
  function JoinOffset(labels: seq<string>, sep: string, i: nat): nat
    requires i <= |labels|
    decreases i
  {
    if i == 0 then 0 else JoinOffset(labels, sep, i - 1) + |labels[i - 1]| + |sep|
  }

  /** The joined text holds every label, in list order, each followed by the
      separator except the last one. */
  lemma {:induction false} JoinInOrder(labels: seq<string>, sep: string, i: nat)
    requires i < |labels|
    ensures OccursAt(labels[i], Join(labels, sep), JoinOffset(labels, sep, i))
    ensures i + 1 < |labels| ==> OccursAt(sep, Join(labels, sep), JoinOffset(labels, sep, i) + |labels[i]|)
    ensures i + 1 == |labels| ==> |Join(labels, sep)| == JoinOffset(labels, sep, i) + |labels[i]|
    decreases |labels|
  {
    if |labels| > 1 {
      var rest := Join(labels[1..], sep);
      assert Join(labels, sep) == labels[0] + sep + rest;
      if i > 0 {
        JoinInOrder(labels[1..], sep, i - 1);
        JoinOffsetShift(labels, sep, i);
      }
    }
  }

  lemma {:induction false} JoinOffsetShift(labels: seq<string>, sep: string, i: nat)
    requires 0 < i <= |labels|
    ensures JoinOffset(labels, sep, i) == |labels[0]| + |sep| + JoinOffset(labels[1..], sep, i - 1)
    decreases i
  {
    if i > 1 {
      JoinOffsetShift(labels, sep, i - 1);
    }
  }
}
