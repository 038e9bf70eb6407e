/** The few pieces of JavaScript string behaviour the dashboard's rules rely on:
    falsy-string defaults (`s || d`), `String.prototype.trim`, `split(" ")` and
    `join`, `toUpperCase` on ASCII letters, and decimal `toString`/`parseInt`. */
module JsText {

  datatype Option<T> = None | Some(value: T)

  /** `s || d` for a string: the empty string is falsy and gives way to `d`. */
  function Or(s: string, d: string): string
  {
    if s == "" then d else s
  }

  /** `o || d` for a string that may also be null or undefined (None). */
  function OrNull(o: Option<string>, d: string): string
  {
    if o.None? then d else Or(o.value, d)
  }

  // ---------------------------------------------------------------------------
  // trim

  /** ECMAScript WhiteSpace and LineTerminator code points: what `trim` removes. */
  predicate IsJsWhitespace(c: char)
  {
    c == '\t' || c == '\n' || c == '\U{000B}' || c == '\U{000C}' || c == '\r' || c == ' '
    || c == '\U{00A0}' || c == '\U{1680}' || ('\U{2000}' <= c <= '\U{200A}')
    || c == '\U{2028}' || c == '\U{2029}' || c == '\U{202F}' || c == '\U{205F}'
    || c == '\U{3000}' || c == '\U{FEFF}'
  }

  predicate HasVisibleChar(s: string)
  {
    exists k :: 0 <= k < |s| && !IsJsWhitespace(s[k])
  }

  /** Index of the first non-whitespace character at or after `i` (or |s|). */
  function SkipLeading(s: string, i: nat): (k: nat)
    requires i <= |s|
    ensures i <= k <= |s|
    ensures forall m :: i <= m < k ==> IsJsWhitespace(s[m])
    ensures k < |s| ==> !IsJsWhitespace(s[k])
    decreases |s| - i
  {
    if i == |s| || !IsJsWhitespace(s[i]) then i else SkipLeading(s, i + 1)
  }

  /** End (exclusive) of `s[lo..j]` once its trailing whitespace is dropped. */
  function SkipTrailing(s: string, lo: nat, j: nat): (k: nat)
    requires lo <= j <= |s|
    ensures lo <= k <= j
    ensures forall m :: k <= m < j ==> IsJsWhitespace(s[m])
    ensures lo < k ==> !IsJsWhitespace(s[k - 1])
    decreases j - lo
  {
    if j == lo || !IsJsWhitespace(s[j - 1]) then j else SkipTrailing(s, lo, j - 1)
  }

  /** `s.trim()`: `s` with a white-space prefix and a white-space suffix cut off. The
      result is empty exactly when `s` is all white space; otherwise it neither starts
      nor ends with white space, which fixes where the cuts fall. */
  function Trim(s: string): (r: string)
    ensures |r| <= |s|
    ensures exists i, j :: 0 <= i <= j <= |s| && r == s[i..j]
              && (forall m :: 0 <= m < i ==> IsJsWhitespace(s[m]))
              && (forall m :: j <= m < |s| ==> IsJsWhitespace(s[m]))
    ensures r == "" <==> !HasVisibleChar(s)
    ensures r != "" ==> !IsJsWhitespace(r[0]) && !IsJsWhitespace(r[|r| - 1])
  {
    var i := SkipLeading(s, 0);
    var j := SkipTrailing(s, i, |s|);
    assert i < j ==> !IsJsWhitespace(s[i]);
    s[i..j]
  }

  /** Trim's contract leaves no choice: any cut of `s` that drops only white space at
      each end and keeps no white space at either end of what remains is `Trim(s)`. */
  lemma TrimIsTheOnlyCut(s: string, i: int, j: int)
    requires 0 <= i <= j <= |s|
    requires forall m :: 0 <= m < i ==> IsJsWhitespace(s[m])
    requires forall m :: j <= m < |s| ==> IsJsWhitespace(s[m])
    requires i < j ==> !IsJsWhitespace(s[i]) && !IsJsWhitespace(s[j - 1])
    ensures Trim(s) == s[i..j]
  {
    var r := Trim(s);
    var i', j' :| 0 <= i' <= j' <= |s| && r == s[i'..j']
      && (forall m :: 0 <= m < i' ==> IsJsWhitespace(s[m]))
      && (forall m :: j' <= m < |s| ==> IsJsWhitespace(s[m]));
    if i == j {
      assert !HasVisibleChar(s);
    } else {
      assert HasVisibleChar(s) by { assert !IsJsWhitespace(s[i]); }
      assert r != "";
      assert r[0] == s[i'] && r[|r| - 1] == s[j' - 1];
      assert i' == i;
      assert j' == j;
    }
  }

  // ---------------------------------------------------------------------------
  // split(" ") and join

  /** `s.split(" ")`: the pieces between single spaces, so two adjacent spaces give an
      empty piece and the empty string gives one empty piece. */
  function Split(s: string): (parts: seq<string>)
    ensures |parts| >= 1
    ensures forall k :: 0 <= k < |parts| ==> ' ' !in parts[k]
  {
    if s == "" then [""]
    else
      var rest := Split(s[1..]);
      if s[0] == ' ' then [""] + rest
      else [[s[0]] + rest[0]] + rest[1..]
  }

  /** `parts.join(" ")`. */
  function Join(parts: seq<string>): string
  {
    if |parts| == 0 then ""
    else if |parts| == 1 then parts[0]
    else parts[0] + " " + Join(parts[1..])
  }

  /** Splitting on spaces loses nothing: joining the pieces gives the string back. */
  lemma {:induction false} JoinSplit(s: string)
    ensures Join(Split(s)) == s
  {
    if s != "" {
      var rest := Split(s[1..]);
      JoinSplit(s[1..]);
      if s[0] == ' ' {
        assert Split(s) == [""] + rest;
        assert Join(Split(s)) == "" + " " + Join(rest);
        assert s == [s[0]] + s[1..];
      } else if |rest| == 1 {
        assert Split(s) == [[s[0]] + rest[0]];
        assert s == [s[0]] + s[1..];
      } else {
        var parts := Split(s);
        assert parts == [[s[0]] + rest[0]] + rest[1..];
        assert parts[1..] == rest[1..];
        assert Join(rest) == rest[0] + " " + Join(rest[1..]);
        assert Join(parts) == ([s[0]] + rest[0]) + " " + Join(rest[1..]);
        assert s == [s[0]] + s[1..];
      }
    }
  }

  /** `parts.map(n => n[0]).join("")`: the first character of every piece; an empty
      piece yields `undefined`, which `join` turns into nothing. */
  function FirstChars(parts: seq<string>): string
  {
    if parts == [] then ""
    else (if parts[0] == "" then "" else [parts[0][0]]) + FirstChars(parts[1..])
  }

  /** Reference definition: every non-space character that starts a word, i.e. that
      stands first or right after a space (`afterSpace` says what came before `s`). */
  function WordStarts(s: string, afterSpace: bool): (r: string)
    ensures |r| <= |s|
    ensures ' ' !in r
  {
    if s == "" then ""
    else (if s[0] != ' ' && afterSpace then [s[0]] else "") + WordStarts(s[1..], s[0] == ' ')
  }

  /** The first characters of the pieces of `s.split(" ")` are exactly the word starts
      of `s`; the pieces after the first one start right after a space. */
  lemma {:induction false} FirstCharsOfSplit(s: string)
    ensures FirstChars(Split(s)) == WordStarts(s, true)
    ensures FirstChars(Split(s)[1..]) == WordStarts(s, false)
  {
    if s != "" {
      var rest := Split(s[1..]);
      FirstCharsOfSplit(s[1..]);
      if s[0] == ' ' {
        assert Split(s) == [""] + rest;
        assert Split(s)[1..] == rest;
      } else {
        assert Split(s) == [[s[0]] + rest[0]] + rest[1..];
        assert Split(s)[1..] == rest[1..];
      }
    }
  }

  // ---------------------------------------------------------------------------
  // toUpperCase on ASCII letters

  function UpperChar(c: char): char
  {
    if 'a' <= c <= 'z' then (c as int - 32) as char else c
  }

  /** `s.toUpperCase()` restricted to ASCII letters: same length, letters mapped one by one. */
  function Upper(s: string): (r: string)
    ensures |r| == |s|
    ensures forall k :: 0 <= k < |s| ==> r[k] == UpperChar(s[k])
  {
    seq(|s|, k requires 0 <= k < |s| => UpperChar(s[k]))
  }

  // ---------------------------------------------------------------------------
  // decimal numerals

  predicate IsDigit(c: char)
  {
    '0' <= c <= '9'
  }

  predicate IsNumeral(s: string)
  {
    s != "" && forall k :: 0 <= k < |s| ==> IsDigit(s[k])
  }

  function DigitChar(d: nat): (c: char)
    requires d < 10
    ensures IsDigit(c) && c as int - '0' as int == d
  {
    ('0' as int + d) as char
  }

  /** `n.toString()` for a natural number. */
  function DecimalString(n: nat): (s: string)
    ensures IsNumeral(s)
  {
    if n < 10 then [DigitChar(n)] else DecimalString(n / 10) + [DigitChar(n % 10)]
  }

  /** `i.toString()` for an integer. */
  function IntString(i: int): string
  {
    if i < 0 then "-" + DecimalString(-i) else DecimalString(i)
  }

  function NumeralValue(s: string): nat
    requires forall k :: 0 <= k < |s| ==> IsDigit(s[k])
  {
    if s == "" then 0
    else
      assert IsDigit(s[|s| - 1]);
      NumeralValue(s[..|s| - 1]) * 10 + (s[|s| - 1] as int - '0' as int)
  }

  /** `parseInt(s)` on a string of decimal digits; None stands for NaN. */
  function ParseDecimal(s: string): Option<nat>
  {
    if IsNumeral(s) then Some(NumeralValue(s)) else None
  }

  /** parseInt reads back what toString wrote. */
  lemma {:induction false} ParseDecimalString(n: nat)
    ensures ParseDecimal(DecimalString(n)) == Some(n)
  {
    var s := DecimalString(n);
    if n >= 10 {
      ParseDecimalString(n / 10);
      assert s[..|s| - 1] == DecimalString(n / 10);
      assert NumeralValue(s) == (n / 10) * 10 + n % 10;
    }
  }
}
