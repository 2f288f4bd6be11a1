/**
 * String helpers shared by the model: decimal digits, en-US digit grouping,
 * filtering, JavaScript `trim`, `split` on one character and ASCII upper-casing.
 * Strings are sequences of Unicode scalar values.
 */
module Text {

  // ---------------------------------------------------------------- digits

  predicate IsDigit(c: char) { '0' <= c <= '9' }

  predicate AllDigits(s: string) { forall i :: 0 <= i < |s| ==> IsDigit(s[i]) }

  function DigitChar(d: nat): (c: char)
    requires d < 10
    ensures IsDigit(c) && DigitOf(c) == d
  {
    (d + '0' as int) as char
  }

  function DigitOf(c: char): nat
    requires IsDigit(c)
  {
    c as int - '0' as int
  }

  /** The shortest decimal spelling of `n` (what `String(n)` gives for an integer). */
  function DecimalString(n: nat): (r: string)
    ensures |r| >= 1 && AllDigits(r)
    ensures r[0] == '0' <==> n == 0
  {
    if n < 10 then [DigitChar(n)] else DecimalString(n / 10) + [DigitChar(n % 10)]
  }

  /** The number a string of decimal digits denotes, leading zeros allowed. */
  function ValueOf(s: string): nat
    requires AllDigits(s)
  {
    if s == [] then 0 else ValueOf(s[..|s| - 1]) * 10 + DigitOf(s[|s| - 1])
  }

  lemma {:induction false} ValueOfDecimalString(n: nat)
    ensures ValueOf(DecimalString(n)) == n
  {
    var r := DecimalString(n);
    if n >= 10 {
      ValueOfDecimalString(n / 10);
      assert r[..|r| - 1] == DecimalString(n / 10);
    }
  }

  // ------------------------------------------------------------- filtering

  /** The characters of `s` that satisfy `keep`, in order (a `replace(/[^…]/g, "")`). */
  function Keep(s: string, keep: char -> bool): (r: string)
    ensures |r| <= |s|
    ensures forall i :: 0 <= i < |r| ==> keep(r[i])
  {
    if s == [] then [] else (if keep(s[0]) then [s[0]] else []) + Keep(s[1..], keep)
  }

  lemma {:induction false} KeepAppend(a: string, b: string, keep: char -> bool)
    ensures Keep(a + b, keep) == Keep(a, keep) + Keep(b, keep)
  {
    if a != [] {
      assert (a + b)[1..] == a[1..] + b;
      KeepAppend(a[1..], b, keep);
    } else {
      assert a + b == b;
    }
  }

  lemma {:induction false} KeepAll(s: string, keep: char -> bool)
    requires forall i :: 0 <= i < |s| ==> keep(s[i])
    ensures Keep(s, keep) == s
  {
    if s != [] { KeepAll(s[1..], keep); }
  }

  /** Two filters that agree on every character of `s` keep the same characters. */
  lemma {:induction false} KeepAgree(s: string, keep1: char -> bool, keep2: char -> bool)
    requires forall i :: 0 <= i < |s| ==> keep1(s[i]) == keep2(s[i])
    ensures Keep(s, keep1) == Keep(s, keep2)
  {
    if s != [] { KeepAgree(s[1..], keep1, keep2); }
  }

  // ---------------------------------------------------- en-US digit grouping

  predicate NotComma(c: char) { c != ',' }

  /** Three digits, zero-padded: the group after a thousands separator. */
  function Pad3(k: nat): (r: string)
    requires k < 1000
    ensures |r| == 3 && AllDigits(r)
  {
    [DigitChar(k / 100), DigitChar(k / 10 % 10), DigitChar(k % 10)]
  }

  /**
   * `n.toLocaleString()` in the en-US locale: the decimal digits of `n` with a
   * comma before every group of three, counted from the right.
   */
  function Grouped(n: nat): (r: string)
    ensures |r| >= 1 && ((IsDigit(r[0]) && r[0] != '0') || n == 0)
    ensures forall i :: 0 <= i < |r| ==> IsDigit(r[i]) || r[i] == ','
  {
    if n < 1000 then DecimalString(n) else Grouped(n / 1000) + "," + Pad3(n % 1000)
  }

  lemma DecimalStringSplit3(n: nat)
    requires n >= 1000
    ensures DecimalString(n) == DecimalString(n / 1000) + Pad3(n % 1000)
  {
    var q := n / 1000;
    assert n / 10 / 10 / 10 == q;
    assert n / 10 >= 10 && n / 10 / 10 >= 10;
    assert DecimalString(n / 10 / 10) == DecimalString(q) + [DigitChar(n / 10 / 10 % 10)];
    assert (n % 1000) / 100 == n / 10 / 10 % 10;
    assert (n % 1000) / 10 % 10 == n / 10 % 10;
    assert (n % 1000) % 10 == n % 10;
  }

  /** Dropping the separators from the grouped form gives back the plain digits. */
  lemma {:induction false} UngroupGrouped(n: nat)
    ensures Keep(Grouped(n), NotComma) == DecimalString(n)
  {
    if n < 1000 {
      KeepAll(DecimalString(n), NotComma);
    } else {
      var head, tail := Grouped(n / 1000), Pad3(n % 1000);
      assert Grouped(n) == head + "," + tail;
      UngroupGrouped(n / 1000);
      KeepAppend(head + ",", tail, NotComma);
      KeepAppend(head, ",", NotComma);
      assert Keep(",", NotComma) == [];
      KeepAll(tail, NotComma);
      calc {
        Keep(Grouped(n), NotComma);
        Keep(head, NotComma) + Keep(",", NotComma) + Keep(tail, NotComma);
        DecimalString(n / 1000) + tail;
        { DecimalStringSplit3(n); }
        DecimalString(n);
      }
    }
  }

  // ------------------------------------------------------------ whitespace

  /** JavaScript's WhiteSpace and LineTerminator characters, which `trim` removes. */
  predicate IsSpace(c: char) {
    || c == ' ' || c == '\t' || c == '\n' || c == '\r' || c == '\U{B}' || c == '\U{C}'
    || c == '\U{A0}' || c == '\U{1680}' || ('\U{2000}' <= c <= '\U{200A}')
    || c == '\U{2028}' || c == '\U{2029}' || c == '\U{202F}' || c == '\U{205F}'
    || c == '\U{3000}' || c == '\U{FEFF}'
  }

  predicate IsBlank(s: string) { forall i :: 0 <= i < |s| ==> IsSpace(s[i]) }

  function TrimStart(s: string): (r: string)
    ensures |r| <= |s| && r == s[|s| - |r|..]
    ensures r == [] || !IsSpace(r[0])
    ensures IsBlank(s[..|s| - |r|])
  {
    if s != [] && IsSpace(s[0]) then TrimStart(s[1..]) else s
  }

  function TrimEnd(s: string): (r: string)
    ensures |r| <= |s| && r == s[..|r|]
    ensures r == [] || !IsSpace(r[|r| - 1])
    ensures IsBlank(s[|r|..])
  {
    if s != [] && IsSpace(s[|s| - 1]) then TrimEnd(s[..|s| - 1]) else s
  }

  /** `s.trim()`. */
  function Trim(s: string): (r: string)
    ensures r == [] || (!IsSpace(r[0]) && !IsSpace(r[|r| - 1]))
    ensures r == [] <==> IsBlank(s)
  {
    TrimEnd(TrimStart(s))
  }

  /** Leading blanks followed by a non-space start: `TrimStart` removes exactly the blanks. */
  lemma {:induction false} TrimStartUnique(p: string, r: string)
    requires IsBlank(p) && (r == [] || !IsSpace(r[0]))
    ensures TrimStart(p + r) == r
    decreases |p|
  {
    if p != [] {
      assert (p + r)[1..] == p[1..] + r;
      TrimStartUnique(p[1..], r);
    } else {
      assert p + r == r;
    }
  }

  /** A non-space end followed by trailing blanks: `TrimEnd` removes exactly the blanks. */
  lemma {:induction false} TrimEndUnique(r: string, p: string)
    requires IsBlank(p) && (r == [] || !IsSpace(r[|r| - 1]))
    ensures TrimEnd(r + p) == r
    decreases |p|
  {
    if p != [] {
      assert (r + p)[..|r + p| - 1] == r + p[..|p| - 1];
      TrimEndUnique(r, p[..|p| - 1]);
    } else {
      assert r + p == r;
    }
  }

  /** Text after a non-blank start is untouched by `TrimStart`. */
  lemma TrimStartAppend(a: string, b: string)
    requires !IsBlank(a)
    ensures TrimStart(a + b) == TrimStart(a) + b
  {
    var t := TrimStart(a);
    var k := |a| - |t|;
    assert a == a[..k] + t;
    assert a + b == a[..k] + (t + b);
    TrimStartUnique(a[..k], t + b);
  }

  /** Text before a non-blank end is untouched by `TrimEnd`. */
  lemma TrimEndAppend(a: string, b: string)
    requires !IsBlank(b)
    ensures TrimEnd(a + b) == a + TrimEnd(b)
  {
    var t := TrimEnd(b);
    assert b == t + b[|t|..];
    assert a + b == (a + t) + b[|t|..];
    TrimEndUnique(a + t, b[|t|..]);
  }

  // ------------------------------------------------------------- splitting

  function IndexOf(s: string, c: char): (i: nat)
    requires c in s
    ensures i < |s| && s[i] == c && c !in s[..i]
  {
    if s[0] == c then 0 else 1 + IndexOf(s[1..], c)
  }

  /** `s.split(sep)` for a one-character separator: the pieces between separators. */
  function SplitOn(s: string, sep: char): (r: seq<string>)
    ensures |r| >= 1
    ensures forall k :: 0 <= k < |r| ==> sep !in r[k]
    decreases |s|
  {
    if sep !in s then [s] else
      var i := IndexOf(s, sep);
      [s[..i]] + SplitOn(s[i + 1..], sep)
  }

  /** `pieces.join(sep)`. */
  function Join(pieces: seq<string>, sep: string): string
  {
    if pieces == [] then "" else if |pieces| == 1 then pieces[0]
    else pieces[0] + sep + Join(pieces[1..], sep)
  }

  /** Splitting and re-joining with the same separator gives the string back. */
  lemma {:induction false} JoinSplitOn(s: string, sep: char)
    ensures Join(SplitOn(s, sep), [sep]) == s
  {
    if sep in s {
      var i := IndexOf(s, sep);
      var rest := SplitOn(s[i + 1..], sep);
      JoinSplitOn(s[i + 1..], sep);
      assert SplitOn(s, sep) == [s[..i]] + rest;
      assert Join([s[..i]] + rest, [sep]) == s[..i] + [sep] + Join(rest, [sep]) by {
        assert ([s[..i]] + rest)[1..] == rest;
      }
      assert s == s[..i] + [sep] + s[i + 1..];
    }
  }

  // ------------------------------------------------------------ upper case

  /** `toUpperCase` on one character; only the ASCII letters are mapped. */
  function UpperChar(c: char): char
  {
    if 'a' <= c <= 'z' then (c as int - 32) as char else c
  }

  function Upper(s: string): (r: string)
    ensures |r| == |s| && forall i :: 0 <= i < |s| ==> r[i] == UpperChar(s[i])
  {
    seq(|s|, i requires 0 <= i < |s| => UpperChar(s[i]))
  }

  /** `s.substring(0, n)`: the first `n` characters, or all of a shorter string. */
  function Prefix(s: string, n: nat): (r: string)
    ensures |r| == if |s| < n then |s| else n
    ensures r == s[..|r|]
  {
    if |s| <= n then s else s[..n]
  }
}
