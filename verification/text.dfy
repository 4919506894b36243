/** String helpers with the meaning JavaScript gives them: `split`/`join`
    on one separator character, `trim`, `includes`, and the decimal
    rendering of a non-negative integer. Strings are `seq<char>`. */
module Text {

  /* ---------------------------------------------------- split and join */

  /** `s.split(sep)` for a one-character separator: the pieces between the
      separators, at least one (possibly empty) piece. */
  function Split(s: string, sep: char): (parts: seq<string>)
    ensures |parts| >= 1
    ensures forall i :: 0 <= i < |parts| ==> sep !in parts[i]
    ensures |parts| == 1 <==> sep !in s
  {
    if s == [] then [""]
    else
      var rest := Split(s[1..], sep);
      if s[0] == sep then [""] + rest
      else [[s[0]] + rest[0]] + rest[1..]
  }

  /** `parts.join(sep)`. */
  function Join(parts: seq<string>, sep: char): string {
    if parts == [] then ""
    else if |parts| == 1 then parts[0]
    else parts[0] + [sep] + Join(parts[1..], sep)
  }

  /** Splitting and joining again on the same separator gives back the input. */
  lemma {:induction false} JoinSplit(s: string, sep: char)
    ensures Join(Split(s, sep), sep) == s
  {
    if s != [] {
      var rest := Split(s[1..], sep);
      JoinSplit(s[1..], sep);
      if s[0] == sep {
        assert ([""] + rest)[1..] == rest;
      } else {
        var parts := [[s[0]] + rest[0]] + rest[1..];
        assert parts[1..] == rest[1..];
      }
    }
  }

  /** The bidder's name as the bid controller splits it: the text before
      the first space, and the remaining pieces joined with a space
      (`''` when there is no space). */
  function SplitName(name: string): (r: (string, string))
    ensures ' ' !in r.0
    ensures ' ' in name ==> r.0 + " " + r.1 == name
    ensures ' ' !in name ==> r.0 == name && r.1 == ""
  {
    var parts := Split(name, ' ');
    var first := parts[0];
    var last := Join(parts[1..], ' ');
    JoinSplit(name, ' ');
    assert parts == [parts[0]] + parts[1..];
    (first, last)
  }

  /** The name shown for a stored bid: first name, a space, last name. */
  function JoinName(first: string, last: string): string {
    first + " " + last
  }

  /** Storing a name split and showing it joined gives back the submitted
      name when it contains a space, and the name with one trailing space
      when it does not. */
  lemma NameRoundTrip(name: string)
    ensures ' ' in name ==> JoinName(SplitName(name).0, SplitName(name).1) == name
    ensures ' ' !in name ==> JoinName(SplitName(name).0, SplitName(name).1) == name + " "
  {
  }

  /** A name built by the bid form from a first name without a space is
      split back into exactly the form's two fields. */
  lemma {:induction false} SplitJoinName(first: string, last: string)
    requires ' ' !in first
    ensures SplitName(JoinName(first, last)) == (first, last)
  {
    var name := JoinName(first, last);
    var r := SplitName(name);
    assert name[|first|] == ' ';
    assert ' ' in name;
    PrefixBeforeSpace(r.0, r.1, first, last);
  }

  lemma {:induction false} PrefixBeforeSpace(a: string, b: string, c: string, d: string)
    requires ' ' !in a && ' ' !in c
    requires a + " " + b == c + " " + d
    ensures a == c && b == d
  {
    var s := a + " " + b;
    if |a| < |c| {
      CharOfJoined(a, b, |a|);
      assert false;
    } else if |c| < |a| {
      CharOfJoined(c, d, |c|);
      assert false;
    }
    assert a == s[..|a|] == c;
    assert b == s[|a| + 1..] == d;
  }

  lemma CharOfJoined(x: string, y: string, i: nat)
    requires i <= |x|
    ensures (x + " " + y)[i] == if i < |x| then x[i] else ' '
  {
  }

  /* ------------------------------------------------------------- trim */

  /** The characters `String.prototype.trim` removes: white space and line
      terminators as ECMAScript defines them. */
  predicate IsJsWhitespace(c: char) {
    || c == '\U{9}' || c == '\U{A}' || c == '\U{B}' || c == '\U{C}' || c == '\U{D}'
    || c == ' ' || c == '\U{A0}' || c == '\U{1680}' || '\U{2000}' <= c <= '\U{200A}'
    || c == '\U{2028}' || c == '\U{2029}' || c == '\U{202F}' || c == '\U{205F}'
    || c == '\U{3000}' || c == '\U{FEFF}'
  }

  function TrimStart(s: string): (r: string)
    ensures |r| <= |s| && r == s[|s| - |r|..]
    ensures r == [] || !IsJsWhitespace(r[0])
  {
    if s != [] && IsJsWhitespace(s[0]) then TrimStart(s[1..]) else s
  }

  function TrimEnd(s: string): (r: string)
    ensures |r| <= |s| && r == s[..|r|]
    ensures r == [] || !IsJsWhitespace(r[|r| - 1])
  {
    if s != [] && IsJsWhitespace(s[|s| - 1]) then TrimEnd(s[..|s| - 1]) else s
  }

  /** `s.trim()`. */
  function Trim(s: string): string {
    TrimEnd(TrimStart(s))
  }

  /** `!s.trim()`: the string is empty or made only of white space. */
  predicate IsBlank(s: string) {
    Trim(s) == ""
  }

  /** A string is blank exactly when every character in it is white space. */
  lemma {:induction false} BlankIffAllWhitespace(s: string)
    ensures IsBlank(s) <==> forall i :: 0 <= i < |s| ==> IsJsWhitespace(s[i])
  {
    if forall i :: 0 <= i < |s| ==> IsJsWhitespace(s[i]) {
      AllWhitespaceTrimsAway(s);
    } else {
      var i :| 0 <= i < |s| && !IsJsWhitespace(s[i]);
      var t := TrimStart(s);
      assert |t| > 0 by {
        if |t| == 0 { LeadingWhitespaceDropped(s, i); }
      }
      assert !IsJsWhitespace(t[0]);
      assert TrimEnd(t) != [] by {
        if TrimEnd(t) == [] { AllWhitespaceTrimEnd(t); }
      }
    }
  }

  lemma {:induction false} AllWhitespaceTrimsAway(s: string)
    requires forall i :: 0 <= i < |s| ==> IsJsWhitespace(s[i])
    ensures TrimStart(s) == []
  {
    if s != [] {
      AllWhitespaceTrimsAway(s[1..]);
    }
  }

  lemma {:induction false} LeadingWhitespaceDropped(s: string, i: int)
    requires 0 <= i < |s| && !IsJsWhitespace(s[i])
    ensures TrimStart(s) != []
  {
    if IsJsWhitespace(s[0]) {
      LeadingWhitespaceDropped(s[1..], i - 1);
    }
  }

  /** If trimming the end leaves nothing, every character was white space;
      in particular the first one. */
  lemma {:induction false} AllWhitespaceTrimEnd(s: string)
    requires TrimEnd(s) == []
    ensures forall i :: 0 <= i < |s| ==> IsJsWhitespace(s[i])
  {
    if s != [] {
      AllWhitespaceTrimEnd(s[..|s| - 1]);
      assert forall i :: 0 <= i < |s| - 1 ==> s[..|s| - 1][i] == s[i];
    }
  }

  /* ---------------------------------------------------------- includes */

  predicate IsPrefix(t: string, s: string) {
    |t| <= |s| && s[..|t|] == t
  }

  /** `s.includes(t)`: `t` occurs in `s` as a contiguous piece. */
  predicate Contains(s: string, t: string)
    decreases |s|
  {
    IsPrefix(t, s) || (s != [] && Contains(s[1..], t))
  }

  /** Every string contains the empty string. */
  lemma ContainsEmpty(s: string)
    ensures Contains(s, "")
  {
  }

  /* ------------------------------------------- lexicographic comparison */

  /** Character-code lexicographic order on strings: the model of
      `ORDER BY name`. */
  predicate LexLe(a: string, b: string) {
    a == [] || (b != [] && (a[0] < b[0] || (a[0] == b[0] && LexLe(a[1..], b[1..]))))
  }

  lemma {:induction false} LexLeTotal(a: string, b: string)
    ensures LexLe(a, b) || LexLe(b, a)
  {
    if a != [] && b != [] && a[0] == b[0] {
      LexLeTotal(a[1..], b[1..]);
    }
  }

  lemma {:induction false} LexLeTransitive(a: string, b: string, c: string)
    requires LexLe(a, b) && LexLe(b, c)
    ensures LexLe(a, c)
  {
    if a != [] && b != [] && c != [] && a[0] == b[0] && b[0] == c[0] {
      LexLeTransitive(a[1..], b[1..], c[1..]);
    }
  }

  /* --------------------------------------------------------- decimal */

  predicate IsDigit(c: char) {
    '0' <= c <= '9'
  }

  /** `String(n)` for a non-negative integer: its decimal digits, without
      leading zeros. */
  function DecimalString(n: nat): (r: string)
    ensures |r| >= 1
    ensures forall i :: 0 <= i < |r| ==> IsDigit(r[i])
    ensures DigitsValue(r) == n
  {
    if n < 10 then [(n as int + '0' as int) as char]
    else
      var r := DecimalString(n / 10) + [(n % 10 + '0' as int) as char];
      assert r[..|r| - 1] == DecimalString(n / 10);
      r
  }

  /** The number written by a string of decimal digits. */
  function DigitsValue(s: string): nat
    requires forall i :: 0 <= i < |s| ==> IsDigit(s[i])
  {
    if s == [] then 0
    else
      assert IsDigit(s[|s| - 1]);
      10 * DigitsValue(s[..|s| - 1]) + (s[|s| - 1] as int - '0' as int)
  }
}
