/** The JavaScript string operations the application relies on: `trim`, ASCII case
    mapping, `includes`, `split` on one character and `join`. */
module JsText {

  /** ECMAScript WhiteSpace and LineTerminator code points: what `trim` removes and
      what the regular-expression class `\s` matches. */
  predicate IsWhite(c: char) {
    || c == ' ' || c == '\t' || c == '\n' || c == '\r' || c == '\U{000B}' || c == '\U{000C}'
    || c == '\U{00A0}' || c == '\U{1680}' || ('\U{2000}' <= c <= '\U{200A}')
    || c == '\U{2028}' || c == '\U{2029}' || c == '\U{202F}' || c == '\U{205F}'
    || c == '\U{3000}' || c == '\U{FEFF}'
  }

  /** The code points a regular-expression `.` does not match. */
  predicate IsLineTerminator(c: char) {
    c == '\n' || c == '\r' || c == '\U{2028}' || c == '\U{2029}'
  }

  predicate IsAsciiLower(c: char) { 'a' <= c <= 'z' }
  predicate IsAsciiUpper(c: char) { 'A' <= c <= 'Z' }
  predicate IsDigit(c: char) { '0' <= c <= '9' }

  /** A character outside the Basic Multilingual Plane: two UTF-16 code units. */
  predicate IsAstral(c: char) { c as int > 0xFFFF }

  /** `s.length`, and the length a `maxlength` validator measures: the number of UTF-16
      code units, one per character of the Basic Multilingual Plane and two per
      character outside it. */
  function Length(s: string): (n: nat)
    ensures |s| <= n <= 2 * |s|
  {
    if s == [] then 0 else (if IsAstral(s[0]) then 2 else 1) + Length(s[1..])
  }

  /** Without characters outside the Basic Multilingual Plane, the length is the
      number of characters. */
  lemma {:induction false} LengthOfPlainText(s: string)
    requires forall i | 0 <= i < |s| :: !IsAstral(s[i])
    ensures Length(s) == |s|
  {
    if s != [] {
      LengthOfPlainText(s[1..]);
    }
  }

  /** `s.trim()`: white space removed from both ends. The result never starts or ends
      with white space. */
  function Trim(s: string): (r: string)
    ensures |r| <= |s|
    ensures r != [] ==> !IsWhite(r[0]) && !IsWhite(r[|r| - 1])
    decreases |s|
  {
    if s == [] then s
    else if IsWhite(s[0]) then Trim(s[1..])
    else if IsWhite(s[|s| - 1]) then Trim(s[..|s| - 1])
    else s
  }

  /** The trim of `s` is empty exactly when `s` is all white space. */
  lemma {:induction false} TrimEmpty(s: string)
    ensures Trim(s) == [] <==> forall i | 0 <= i < |s| :: IsWhite(s[i])
    decreases |s|
  {
    if s != [] {
      if IsWhite(s[0]) {
        TrimEmpty(s[1..]);
        assert forall i | 1 <= i < |s| :: s[i] == s[1..][i - 1];
      } else if IsWhite(s[|s| - 1]) {
        TrimEmpty(s[..|s| - 1]);
        assert forall i | 0 <= i < |s| - 1 :: s[i] == s[..|s| - 1][i];
      }
    }
  }

  /** The trim of `s` is a contiguous piece of `s`. */
  lemma {:induction false} TrimInside(s: string)
    ensures exists k | 0 <= k <= |s| - |Trim(s)| :: OccursAt(s, Trim(s), k)
    decreases |s|
  {
    var r := Trim(s);
    if s == [] {
      assert OccursAt(s, r, 0);
    } else if IsWhite(s[0]) {
      TrimInside(s[1..]);
      var k :| 0 <= k <= |s| - 1 - |r| && OccursAt(s[1..], r, k);
      OccursInTail(s, r, k);
    } else if IsWhite(s[|s| - 1]) {
      TrimInside(s[..|s| - 1]);
      var k :| 0 <= k <= |s| - 1 - |r| && OccursAt(s[..|s| - 1], r, k);
      OccursInPrefix(s, |s| - 1, r, k);
    } else {
      assert OccursAt(s, r, 0);
    }
  }

  lemma OccursInTail(s: string, sub: string, k: nat)
    requires s != [] && OccursAt(s[1..], sub, k)
    ensures OccursAt(s, sub, k + 1)
  {
    assert s[1..][k..k + |sub|] == s[k + 1..k + 1 + |sub|];
  }

  lemma OccursInPrefix(s: string, n: nat, sub: string, k: nat)
    requires n <= |s| && OccursAt(s[..n], sub, k)
    ensures OccursAt(s, sub, k)
  {
    assert s[..n][k..k + |sub|] == s[k..k + |sub|];
  }

  /** A string with no white space at either end is its own trim. */
  lemma TrimOfTrimmed(s: string)
    requires s == [] || (!IsWhite(s[0]) && !IsWhite(s[|s| - 1]))
    ensures Trim(s) == s
  {
  }

  /** Trimming twice is trimming once. */
  lemma TrimIdempotent(s: string)
    ensures Trim(Trim(s)) == Trim(s)
  {
    TrimOfTrimmed(Trim(s));
  }

  /** The result of `c.toLowerCase()` for an ASCII character. */
  function LowerChar(c: char): char {
    if IsAsciiUpper(c) then (c as int + 32) as char else c
  }

  /** The result of `c.toUpperCase()` for an ASCII character. */
  function UpperChar(c: char): char {
    if IsAsciiLower(c) then (c as int - 32) as char else c
  }

  function Lower(s: string): (r: string)
    ensures |r| == |s|
  {
    seq(|s|, i requires 0 <= i < |s| => LowerChar(s[i]))
  }

  function Upper(s: string): (r: string)
    ensures |r| == |s|
  {
    seq(|s|, i requires 0 <= i < |s| => UpperChar(s[i]))
  }

  /** Upper-casing leaves no ASCII lower-case letter and changes nothing else. */
  lemma UpperMeaning(s: string)
    ensures forall i | 0 <= i < |s| :: !IsAsciiLower(Upper(s)[i])
    ensures forall i | 0 <= i < |s| && !IsAsciiLower(s[i]) :: Upper(s)[i] == s[i]
  {
  }

  /** `sub` appears in `s` starting at index `i`. */
  predicate OccursAt(s: string, sub: string, i: nat) {
    i + |sub| <= |s| && s[i..i + |sub|] == sub
  }

  /** `s.includes(sub)`. */
  predicate Contains(s: string, sub: string) {
    exists i | 0 <= i <= |s| - |sub| :: OccursAt(s, sub, i)
  }

  /** Every string includes the empty string. */
  lemma ContainsEmpty(s: string)
    ensures Contains(s, "")
  {
    assert OccursAt(s, "", 0);
  }

  /** Index of the first `c` in `s`, or `|s|` when there is none. */
  function IndexOf(s: string, c: char): (i: nat)
    ensures i <= |s|
    ensures i < |s| ==> s[i] == c
    ensures forall j | 0 <= j < i :: s[j] != c
  {
    if s == [] then 0
    else if s[0] == c then 0
    else 1 + IndexOf(s[1..], c)
  }

  /** `s.split(sep)` for a one-character separator: the pieces between the separators. */
  function Split(s: string, sep: char): (parts: seq<string>)
    ensures |parts| >= 1
    ensures forall k | 0 <= k < |parts| :: sep !in parts[k]
    decreases |s|
  {
    var i := IndexOf(s, sep);
    if i == |s| then [s] else [s[..i]] + Split(s[i + 1..], sep)
  }

  /** `parts.join(sep)` for a one-character separator. */
  function Join(parts: seq<string>, sep: char): string {
    if parts == [] then ""
    else if |parts| == 1 then parts[0]
    else parts[0] + [sep] + Join(parts[1..], sep)
  }

  /** `parts.join('')`. */
  function Concat(parts: seq<string>): string {
    if parts == [] then "" else parts[0] + Concat(parts[1..])
  }

  /** Joining the pieces of a split with the same separator gives back the string. */
  lemma {:induction false} JoinSplit(s: string, sep: char)
    ensures Join(Split(s, sep), sep) == s
    decreases |s|
  {
    var i := IndexOf(s, sep);
    if i < |s| {
      var rest := s[i + 1..];
      JoinSplit(rest, sep);
      SplitAt(s, sep);
      JoinCons(s[..i], Split(rest, sep), sep);
    }
  }

  /** A string with a separator splits into the piece before it and the split of the rest. */
  lemma SplitAt(s: string, sep: char)
    requires IndexOf(s, sep) < |s|
    ensures var i := IndexOf(s, sep);
      && Split(s, sep) == [s[..i]] + Split(s[i + 1..], sep)
      && s == s[..i] + [sep] + s[i + 1..]
  {
    var i := IndexOf(s, sep);
    assert s[i] == sep;
    assert s == s[..i] + [sep] + s[i + 1..];
  }

  lemma JoinCons(first: string, parts: seq<string>, sep: char)
    requires |parts| >= 1
    ensures Join([first] + parts, sep) == first + [sep] + Join(parts, sep)
  {
    assert ([first] + parts)[1..] == parts;
  }

  /** Splitting a join of separator-free pieces gives back the pieces. */
  lemma {:induction false} SplitJoin(parts: seq<string>, sep: char)
    requires |parts| >= 1
    requires forall k | 0 <= k < |parts| :: sep !in parts[k]
    ensures Split(Join(parts, sep), sep) == parts
  {
    var s := Join(parts, sep);
    if |parts| == 1 {
      assert IndexOf(s, sep) == |s|;
    } else {
      var rest := Join(parts[1..], sep);
      assert s == parts[0] + [sep] + rest;
      IndexOfAfterFree(parts[0], sep, rest);
      assert s[..|parts[0]|] == parts[0];
      assert s[|parts[0]| + 1..] == rest;
      SplitJoin(parts[1..], sep);
    }
  }

  lemma IndexOfAfterFree(a: string, c: char, b: string)
    requires c !in a
    ensures IndexOf(a + [c] + b, c) == |a|
  {
    var s := a + [c] + b;
    assert s[|a|] == c;
    assert forall j | 0 <= j < |a| :: s[j] == a[j];
  }
}
