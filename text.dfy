/**
 * The JavaScript string operations the core relies on, over `seq<char>`:
 * `trim`, `split('\n')`, `join('\n')`, `includes`, `toLowerCase`,
 * `replace(/ /g, '_')` and a case-insensitive prefix test.
 */
module Text {

  /** WhiteSpace and LineTerminator code points, as stripped by String.prototype.trim. */
  predicate IsWhitespace(c: char) {
    || c == ' ' || c == '\t' || c == '\n' || c == '\r'
    || c == '\U{000B}' || c == '\U{000C}' || c == '\U{00A0}' || c == '\U{1680}'
    || ('\U{2000}' <= c <= '\U{200A}')
    || c == '\U{2028}' || c == '\U{2029}' || c == '\U{202F}' || c == '\U{205F}'
    || c == '\U{3000}' || c == '\U{FEFF}'
  }

  /** The code points that `.` in a regular expression without the `s` flag does not match. */
  predicate IsLineTerminator(c: char) {
    c == '\n' || c == '\r' || c == '\U{2028}' || c == '\U{2029}'
  }

  /** No leading and no trailing whitespace. */
  predicate IsTrimmed(s: string) {
    s == [] || (!IsWhitespace(s[0]) && !IsWhitespace(s[|s| - 1]))
  }

  function TrimStart(s: string): (r: string)
    ensures |r| <= |s| && r == s[|s| - |r|..]
    ensures r == [] || !IsWhitespace(r[0])
    ensures forall k :: 0 <= k < |s| - |r| ==> IsWhitespace(s[k])
    decreases |s|
  {
    if s != [] && IsWhitespace(s[0]) then TrimStart(s[1..]) else s
  }

  function TrimEnd(s: string): (r: string)
    ensures |r| <= |s| && r == s[..|r|]
    ensures r == [] || !IsWhitespace(r[|r| - 1])
    ensures forall k :: |r| <= k < |s| ==> IsWhitespace(s[k])
    decreases |s|
  {
    if s != [] && IsWhitespace(s[|s| - 1]) then TrimEnd(s[..|s| - 1]) else s
  }

  /** `r` is the slice `s[i..j]` of `s` left after cutting off white space only, at both ends. */
  ghost predicate CutAtWhitespace(s: string, r: string) {
    exists i, j ::
      && 0 <= i <= j <= |s| && r == s[i..j]
      && (forall k :: 0 <= k < i ==> IsWhitespace(s[k]))
      && (forall k :: j <= k < |s| ==> IsWhitespace(s[k]))
  }

  /**
   * String.prototype.trim: the result is trimmed, made of characters of `s`,
   * and a trimmed `s` is its own trim; `TrimCutsWhitespace` shows it is the
   * slice of `s` left after cutting off white space only, at both ends.
   */
  function Trim(s: string): (r: string)
    ensures IsTrimmed(r)
    ensures forall c :: c in r ==> c in s
    ensures IsTrimmed(s) ==> r == s
  {
    var t := TrimStart(s);
    var r := TrimEnd(t);
    assert forall c :: c in r ==> c in t;
    r
  }

  /** The trim of `s` is `s` with white space cut off at both ends and nothing else removed. */
  lemma TrimCutsWhitespace(s: string)
    ensures CutAtWhitespace(s, Trim(s))
  {
    TrimSlice(s, TrimStart(s), TrimEnd(TrimStart(s)));
  }

  /** A trimmed string is its own trim. */
  lemma TrimOfTrimmed(s: string)
    requires IsTrimmed(s)
    ensures Trim(s) == s
  {
  }

  /** The empty string is its own trim. */
  lemma TrimEmpty()
    ensures Trim("") == ""
  {
    assert IsTrimmed("");
  }

  /** Cutting white space off the front of `s` and then off the back gives a slice of `s` cut only at white space. */
  lemma TrimSlice(s: string, t: string, r: string)
    requires |t| <= |s| && t == s[|s| - |t|..] && forall k :: 0 <= k < |s| - |t| ==> IsWhitespace(s[k])
    requires |r| <= |t| && r == t[..|r|] && forall k :: |r| <= k < |t| ==> IsWhitespace(t[k])
    ensures CutAtWhitespace(s, r)
  {
    var i := |s| - |t|;
    assert r == s[i..i + |r|];
    assert forall k :: i + |r| <= k < |s| ==> s[k] == t[k - i];
  }

  /** `xs.join(sep)` for a one-character separator. */
  function Join(xs: seq<string>, sep: char): (r: string)
    ensures xs != [] ==> |r| >= |xs[0]|
    decreases |xs|
  {
    if |xs| == 0 then ""
    else if |xs| == 1 then xs[0]
    else xs[0] + [sep] + Join(xs[1..], sep)
  }

  /** A join starts with its first piece, then the separator if more follow, and ends with its last piece. */
  lemma {:induction false} JoinEnds(xs: seq<string>, sep: char)
    ensures xs == [] ==> Join(xs, sep) == []
    ensures xs != [] ==> Join(xs, sep)[..|xs[0]|] == xs[0]
    ensures |xs| > 1 ==> |Join(xs, sep)| > |xs[0]| && Join(xs, sep)[|xs[0]|] == sep
    ensures xs != [] ==>
      (|Join(xs, sep)| >= |xs[|xs| - 1]| && Join(xs, sep)[|Join(xs, sep)| - |xs[|xs| - 1]|..] == xs[|xs| - 1])
    decreases |xs|
  {
    if |xs| > 1 {
      JoinEnds(xs[1..], sep);
      var tail := Join(xs[1..], sep);
      assert Join(xs, sep) == xs[0] + [sep] + tail;
      assert xs[1..][|xs[1..]| - 1] == xs[|xs| - 1];
    }
  }

  /** A join of non-empty trimmed pieces is empty exactly when there are no pieces, and is trimmed. */
  lemma JoinTrimmed(xs: seq<string>, sep: char)
    requires forall x :: x in xs ==> x != [] && IsTrimmed(x)
    ensures Join(xs, sep) == [] <==> xs == []
    ensures IsTrimmed(Join(xs, sep))
  {
    JoinEnds(xs, sep);
    if xs != [] {
      var r := Join(xs, sep);
      var first, last := xs[0], xs[|xs| - 1];
      assert first in xs && last in xs;
      assert r[0] == r[..|first|][0] == first[0];
      assert r[|r| - 1] == r[|r| - |last|..][|last| - 1] == last[|last| - 1];
    }
  }

  /** `s.split(sep)` for a one-character separator: at least one piece, no piece contains `sep`, and joining the pieces gives `s` back. */
  function Split(s: string, sep: char): (r: seq<string>)
    ensures |r| >= 1
    ensures forall piece :: piece in r ==> sep !in piece
    ensures Join(r, sep) == s
    decreases |s|
  {
    if s == [] then [""]
    else
      var rest := Split(s[1..], sep);
      if s[0] == sep then
        [""] + rest
      else
        var r := [[s[0]] + rest[0]] + rest[1..];
        assert |r| > 1 ==> r[1..] == rest[1..];
        assert |rest| > 1 ==> Join(rest, sep) == rest[0] + [sep] + Join(rest[1..], sep);
        r
  }

  lemma {:induction false} SplitNoSeparator(s: string, sep: char)
    requires sep !in s
    ensures Split(s, sep) == [s]
    decreases |s|
  {
    if s != [] {
      SplitNoSeparator(s[1..], sep);
    }
  }

  lemma {:induction false} SplitAtSeparator(a: string, sep: char, b: string)
    requires sep !in a
    ensures Split(a + [sep] + b, sep) == [a] + Split(b, sep)
    decreases |a|
  {
    if a == [] {
      assert a + [sep] + b == [sep] + b;
      assert ([sep] + b)[1..] == b;
    } else {
      assert (a + [sep] + b)[1..] == a[1..] + [sep] + b;
      SplitAtSeparator(a[1..], sep, b);
      assert [a[0]] + a[1..] == a;
    }
  }

  /** Splitting a join of separator-free pieces gives the pieces back (the inverse of the ensures of Split). */
  lemma {:induction false} SplitJoin(xs: seq<string>, sep: char)
    requires xs != []
    requires forall x :: x in xs ==> sep !in x
    ensures Split(Join(xs, sep), sep) == xs
    decreases |xs|
  {
    if |xs| == 1 {
      SplitNoSeparator(xs[0], sep);
    } else {
      SplitJoin(xs[1..], sep);
      SplitAtSeparator(xs[0], sep, Join(xs[1..], sep));
      assert [xs[0]] + xs[1..] == xs;
    }
  }

  /** `sub` occurs in `s` at position `i`. */
  predicate OccursAt(s: string, sub: string, i: int) {
    0 <= i && i + |sub| <= |s| && s[i..i + |sub|] == sub
  }

  /** String.prototype.includes: the empty string occurs everywhere, and nothing longer than `s` occurs in it. */
  predicate Contains(s: string, sub: string)
    ensures sub == [] ==> Contains(s, sub)
    ensures Contains(s, sub) ==> |sub| <= |s|
  {
    assert sub == [] ==> OccursAt(s, sub, 0);
    exists i :: 0 <= i <= |s| - |sub| && OccursAt(s, sub, i)
  }

  /** Every character of an occurring substring is a character of the string. */
  lemma ContainsChars(s: string, sub: string, c: char)
    requires Contains(s, sub) && c in sub
    ensures c in s
  {
    var i :| 0 <= i <= |s| - |sub| && OccursAt(s, sub, i);
    var k :| 0 <= k < |sub| && sub[k] == c;
    assert s[i..i + |sub|][k] == s[i + k];
  }

  /** A string that starts with `sub` contains it. */
  lemma ContainsPrefix(s: string, sub: string)
    requires |sub| <= |s| && s[..|sub|] == sub
    ensures Contains(s, sub)
  {
    assert OccursAt(s, sub, 0);
  }

  /** A substring of a part is a substring of the whole. */
  lemma ContainsInConcat(a: string, b: string, sub: string)
    requires Contains(a, sub) || Contains(b, sub)
    ensures Contains(a + b, sub)
  {
    if Contains(a, sub) {
      var i :| 0 <= i <= |a| - |sub| && OccursAt(a, sub, i);
      assert (a + b)[i..i + |sub|] == a[i..i + |sub|];
      assert OccursAt(a + b, sub, i);
    } else {
      var i :| 0 <= i <= |b| - |sub| && OccursAt(b, sub, i);
      assert (a + b)[|a| + i..|a| + i + |sub|] == b[i..i + |sub|];
      assert OccursAt(a + b, sub, |a| + i);
    }
  }

  /** Lower-case a character; only ASCII letters are mapped. */
  function LowerChar(c: char): (r: char)
    ensures 'A' <= c <= 'Z' ==> r as int == c as int + 32
    ensures !('A' <= c <= 'Z') ==> r == c
  {
    if 'A' <= c <= 'Z' then (c as int + 32) as char else c
  }

  /** String.prototype.toLowerCase, restricted to ASCII letters. */
  function ToLower(s: string): (r: string)
    ensures |r| == |s|
    ensures forall k :: 0 <= k < |s| ==> r[k] == LowerChar(s[k])
  {
    seq(|s|, k requires 0 <= k < |s| => LowerChar(s[k]))
  }

  /** A lower-case letter in the lower-cased string comes from that letter or its capital. */
  lemma LowerLetterOrigin(s: string, c: char)
    requires 'a' <= c <= 'z' && c in ToLower(s)
    ensures c in s || (c as int - 32) as char in s
  {
    var k :| 0 <= k < |s| && ToLower(s)[k] == c;
  }

  /** A case-insensitive prefix test `/^prefix/i` on ASCII text; it holds when `s` starts with `prefix` itself. */
  predicate StartsWithIgnoringCase(s: string, prefix: string)
    ensures |prefix| <= |s| && s[..|prefix|] == prefix ==> StartsWithIgnoringCase(s, prefix)
  {
    |prefix| <= |s| && forall k :: 0 <= k < |prefix| ==> LowerChar(s[k]) == LowerChar(prefix[k])
  }

  /** `/^prefix/i` holds exactly when the lower-cased start of `s` is the lower-cased prefix. */
  lemma StartsWithLowerPrefix(s: string, prefix: string)
    ensures StartsWithIgnoringCase(s, prefix) <==> |prefix| <= |s| && ToLower(s[..|prefix|]) == ToLower(prefix)
  {
    if |prefix| <= |s| && ToLower(s[..|prefix|]) == ToLower(prefix) {
      assert forall k :: 0 <= k < |prefix| ==> ToLower(s[..|prefix|])[k] == ToLower(prefix)[k];
    }
  }

  /** `/^prefix/i` still matches when more text follows. */
  lemma StartsWithExtended(s: string, prefix: string, more: string)
    requires StartsWithIgnoringCase(s, prefix)
    ensures StartsWithIgnoringCase(s + more, prefix)
  {
    assert forall k :: 0 <= k < |prefix| ==> (s + more)[k] == s[k];
  }

  /** `/^prefix/i` gives the same answer on the lower-cased string. */
  lemma StartsWithIgnoringCaseLower(s: string, prefix: string)
    ensures StartsWithIgnoringCase(ToLower(s), prefix) <==> StartsWithIgnoringCase(s, prefix)
  {
    assert forall k :: 0 <= k < |s| ==> LowerChar(ToLower(s)[k]) == LowerChar(s[k]);
  }

  /** A substring without letters occurs at the same places before and after lower-casing. */
  lemma ContainsLowerNonLetters(s: string, sub: string)
    requires forall k :: 0 <= k < |sub| ==> LowerChar(sub[k]) == sub[k] && !('a' <= sub[k] <= 'z')
    ensures Contains(ToLower(s), sub) <==> Contains(s, sub)
  {
    forall i | 0 <= i <= |s| - |sub|
      ensures OccursAt(ToLower(s), sub, i) <==> OccursAt(s, sub, i)
    {
      if OccursAt(ToLower(s), sub, i) {
        forall k | 0 <= k < |sub| ensures s[i + k] == sub[k] {
          assert ToLower(s)[i..i + |sub|][k] == ToLower(s)[i + k];
        }
        assert s[i..i + |sub|] == sub;
      }
      if OccursAt(s, sub, i) {
        forall k | 0 <= k < |sub| ensures ToLower(s)[i + k] == sub[k] {
          assert s[i..i + |sub|][k] == s[i + k];
        }
        assert ToLower(s)[i..i + |sub|] == sub;
      }
    }
  }

  /** Lower-casing twice is lower-casing once. */
  lemma ToLowerIdempotent(s: string)
    ensures ToLower(ToLower(s)) == ToLower(s)
  {
  }

  /** `s.replace(/ /g, '_')`: every space becomes an underscore, nothing else changes. */
  function ReplaceSpaces(s: string): (r: string)
    ensures |r| == |s|
    ensures forall k :: 0 <= k < |s| ==> r[k] == (if s[k] == ' ' then '_' else s[k])
    ensures ' ' !in r
  {
    seq(|s|, k requires 0 <= k < |s| => if s[k] == ' ' then '_' else s[k])
  }
}
