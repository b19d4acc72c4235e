/**
 * The string operations of JavaScript that the application relies on:
 * `String.prototype.trim`, decimal `String(n)` and `parseInt(s, 10)` on
 * digit strings, `padStart`, the `<` / `>` order on strings and
 * `Array.prototype.join`.
 */
module JsText {

  /** The WhiteSpace and LineTerminator code points that `trim` removes. */
  predicate IsJsWhitespace(c: char) {
    c == '\t' || c == '\n' || c == '\U{0B}' || c == '\U{0C}' || c == '\r' || c == ' '
    || c == '\U{A0}' || c == '\U{1680}' || ('\U{2000}' <= c <= '\U{200A}')
    || c == '\U{2028}' || c == '\U{2029}' || c == '\U{202F}' || c == '\U{205F}'
    || c == '\U{3000}' || c == '\U{FEFF}'
  }

  /** Every character is whitespace: the strings whose trimmed form is falsy. */
  predicate IsBlank(s: string) {
    forall k :: 0 <= k < |s| ==> IsJsWhitespace(s[k])
  }

  /** `trimStart`: drops leading whitespace. */
  function TrimStart(s: string): string {
    if s != [] && IsJsWhitespace(s[0]) then TrimStart(s[1..]) else s
  }

  /** `trimEnd`: drops trailing whitespace. */
  function TrimEnd(s: string): string {
    if s != [] && IsJsWhitespace(s[|s| - 1]) then TrimEnd(s[..|s| - 1]) else s
  }

  /** `String.prototype.trim`. */
  function Trim(s: string): string {
    TrimEnd(TrimStart(s))
  }

  /** Leading whitespace removed: a suffix of `s`, all whitespace before it, starting with a non-whitespace character. */
  lemma {:induction false} TrimStartSpec(s: string)
    ensures |TrimStart(s)| <= |s| && TrimStart(s) == s[|s| - |TrimStart(s)|..]
    ensures forall k :: 0 <= k < |s| - |TrimStart(s)| ==> IsJsWhitespace(s[k])
    ensures TrimStart(s) != [] ==> !IsJsWhitespace(TrimStart(s)[0])
  {
    if s != [] && IsJsWhitespace(s[0]) {
      TrimStartSpec(s[1..]);
      assert s[1..][|s| - 1 - |TrimStart(s)|..] == s[|s| - |TrimStart(s)|..];
    }
  }

  /** Trailing whitespace removed: a prefix of `s`, all whitespace after it, ending with a non-whitespace character. */
  lemma {:induction false} TrimEndSpec(s: string)
    ensures |TrimEnd(s)| <= |s| && TrimEnd(s) == s[..|TrimEnd(s)|]
    ensures forall k :: |TrimEnd(s)| <= k < |s| ==> IsJsWhitespace(s[k])
    ensures TrimEnd(s) != [] ==> !IsJsWhitespace(TrimEnd(s)[|TrimEnd(s)| - 1])
  {
    if s != [] && IsJsWhitespace(s[|s| - 1]) {
      TrimEndSpec(s[..|s| - 1]);
      assert s[..|s| - 1][..|TrimEnd(s)|] == s[..|TrimEnd(s)|];
    }
  }

  /** `t` sits in `s` at offset `i`, with only whitespace before and after it. */
  predicate TrimmedAt(s: string, t: string, i: int) {
    && 0 <= i && i + |t| <= |s| && t == s[i..i + |t|]
    && (forall k :: 0 <= k < i ==> IsJsWhitespace(s[k]))
    && (forall k :: i + |t| <= k < |s| ==> IsJsWhitespace(s[k]))
  }

  /** `trim` leaves the contiguous middle of `s` between two runs of whitespace, and neither end of it is whitespace. */
  lemma TrimSpec(s: string)
    ensures var i := |s| - |TrimStart(s)|;
      && 0 <= i && i + |Trim(s)| <= |s| && Trim(s) == s[i..i + |Trim(s)|]
      && (forall k :: 0 <= k < i ==> IsJsWhitespace(s[k]))
      && (forall k :: i + |Trim(s)| <= k < |s| ==> IsJsWhitespace(s[k]))
    ensures Trim(s) != [] ==> !IsJsWhitespace(Trim(s)[0]) && !IsJsWhitespace(Trim(s)[|Trim(s)| - 1])
  {
    var t := TrimStart(s);
    TrimStartSpec(s);
    TrimEndSpec(t);
    var r := Trim(s);
    var i := |s| - |t|;
    assert r == s[i..i + |r|];
    if r != [] {
      assert r[0] == t[0];
    }
  }

  /** The trimmed string is empty exactly when the string is blank. */
  lemma TrimEmptyIffBlank(s: string)
    ensures Trim(s) == [] <==> IsBlank(s)
  {
    var t := TrimStart(s);
    TrimStartSpec(s);
    TrimEndSpec(t);
    if Trim(s) == [] {
      assert |t| == 0;
    } else {
      var r := Trim(s);
      assert r[0] == t[0];
      assert t[0] == s[|s| - |t|];
    }
  }

  /** A string without whitespace at either end is its own trimmed form. */
  lemma TrimOfUnpadded(s: string)
    requires s != [] && !IsJsWhitespace(s[0]) && !IsJsWhitespace(s[|s| - 1])
    ensures Trim(s) == s
  {
  }

  predicate IsDigit(c: char) {
    '0' <= c <= '9'
  }

  predicate AllDigits(s: string) {
    forall k :: 0 <= k < |s| ==> IsDigit(s[k])
  }

  function DigitChar(n: int): (c: char)
    requires 0 <= n < 10
    ensures IsDigit(c)
  {
    (48 + n) as char
  }

  function DigitValue(c: char): (n: int)
    requires IsDigit(c)
    ensures 0 <= n < 10 && DigitChar(n) == c
  {
    c as int - 48
  }

  function Pow10(w: nat): (p: nat)
    ensures p >= 1
  {
    if w == 0 then 1 else 10 * Pow10(w - 1)
  }

  lemma Pow10Small()
    ensures Pow10(1) == 10 && Pow10(2) == 100 && Pow10(3) == 1000 && Pow10(4) == 10000
  {
  }

  /** `String(n)` for a non-negative integer: decimal digits without leading zeros. */
  function Decimal(n: nat): (s: string)
    ensures s != [] && AllDigits(s)
    decreases n
  {
    if n < 10 then [DigitChar(n)] else Decimal(n / 10) + [DigitChar(n % 10)]
  }

  /** The last `w` decimal digits of `n`, zero-padded on the left. */
  function Fixed(n: nat, w: nat): (s: string)
    ensures |s| == w && AllDigits(s)
  {
    if w == 0 then [] else Fixed(n / 10, w - 1) + [DigitChar(n % 10)]
  }

  /** `parseInt(s, 10)` on a string of decimal digits. */
  function DigitsValue(s: string): (n: nat)
    requires AllDigits(s)
    ensures n < Pow10(|s|)
  {
    if s == [] then 0 else 10 * DigitsValue(s[..|s| - 1]) + DigitValue(s[|s| - 1])
  }

  /** `String(n).padStart(2, '0')`. */
  function PadStart2(n: nat): string {
    var s := Decimal(n);
    if |s| < 2 then ['0'] + s else s
  }

  /** A number with exactly `w` digits prints as its `w`-digit fixed form. */
  lemma {:induction false} DecimalIsFixed(n: nat, w: nat)
    requires w >= 1 && Pow10(w - 1) <= n < Pow10(w)
    ensures Decimal(n) == Fixed(n, w)
  {
    if w > 1 {
      DecimalIsFixed(n / 10, w - 1);
    }
  }

  /** Zero-padding a number below 100 gives its two-digit form. */
  lemma PadStart2IsFixed(n: nat)
    requires n < 100
    ensures PadStart2(n) == Fixed(n, 2)
  {
    if n < 10 {
      assert Fixed(n, 2) == Fixed(0, 1) + [DigitChar(n)];
    } else {
      DecimalIsFixed(n, 2);
    }
  }

  /** Reading back a fixed-width decimal recovers the number: `parseInt` inverts the formatting. */
  lemma {:induction false} DigitsValueOfFixed(n: nat, w: nat)
    requires n < Pow10(w)
    ensures DigitsValue(Fixed(n, w)) == n
  {
    if w > 0 {
      var s := Fixed(n, w);
      assert s[..|s| - 1] == Fixed(n / 10, w - 1);
      DigitsValueOfFixed(n / 10, w - 1);
    }
  }

  /** JavaScript's `a < b` on strings: lexicographic, a proper prefix sorts first. */
  predicate LexLess(a: string, b: string) {
    if b == [] then false
    else if a == [] then true
    else if a[0] != b[0] then a[0] < b[0]
    else LexLess(a[1..], b[1..])
  }

  /** Comparing blocks of equal width compares the first blocks, then the rest. */
  lemma {:induction false} LexLessConcat(a1: string, a2: string, b1: string, b2: string)
    requires |a1| == |b1|
    ensures LexLess(a1 + a2, b1 + b2) <==> LexLess(a1, b1) || (a1 == b1 && LexLess(a2, b2))
    decreases |a1|
  {
    if a1 != [] {
      assert (a1 + a2)[0] == a1[0] && (b1 + b2)[0] == b1[0];
      if a1[0] == b1[0] {
        assert (a1 + a2)[1..] == a1[1..] + a2;
        assert (b1 + b2)[1..] == b1[1..] + b2;
        LexLessConcat(a1[1..], a2, b1[1..], b2);
        assert a1 == b1 <==> a1[1..] == b1[1..] by {
          if a1[1..] == b1[1..] {
            assert a1 == [a1[0]] + a1[1..] && b1 == [b1[0]] + b1[1..];
          }
        }
      }
    } else {
      assert a1 + a2 == a2 && b1 + b2 == b2;
    }
  }

  /** Concatenations of equal-width blocks are equal exactly when the blocks are. */
  lemma ConcatEqual(a1: string, a2: string, b1: string, b2: string)
    requires |a1| == |b1|
    ensures a1 + a2 == b1 + b2 <==> a1 == b1 && a2 == b2
  {
    if a1 + a2 == b1 + b2 {
      assert a1 == (a1 + a2)[..|a1|] && b1 == (b1 + b2)[..|b1|];
      assert a2 == (a1 + a2)[|a1|..] && b2 == (b1 + b2)[|b1|..];
    }
  }

  /** Two hyphen-joined pairs with equal-width heads compare head first, then tail. */
  lemma DashJoinOrder(a1: string, a2: string, b1: string, b2: string)
    requires |a1| == |b1|
    ensures LexLess(a1 + "-" + a2, b1 + "-" + b2) <==> LexLess(a1, b1) || (a1 == b1 && LexLess(a2, b2))
    ensures a1 + "-" + a2 == b1 + "-" + b2 <==> a1 == b1 && a2 == b2
  {
    assert a1 + "-" + a2 == a1 + ("-" + a2);
    assert b1 + "-" + b2 == b1 + ("-" + b2);
    LexLessConcat(a1, "-" + a2, b1, "-" + b2);
    ConcatEqual(a1, "-" + a2, b1, "-" + b2);
    LexLessConcat("-", a2, "-", b2);
    ConcatEqual("-", a2, "-", b2);
  }

  /** A number of at least `w + 1` digits prints with more than `w` characters. */
  lemma {:induction false} DecimalLengthAbove(n: nat, w: nat)
    requires n >= Pow10(w)
    ensures |Decimal(n)| > w
  {
    if w > 0 {
      DecimalLengthAbove(n / 10, w - 1);
    }
  }

  /** Fixed-width decimals sort as their numbers do, and are equal only for equal numbers. */
  lemma {:induction false} FixedOrder(n1: nat, n2: nat, w: nat)
    requires n1 < Pow10(w) && n2 < Pow10(w)
    ensures LexLess(Fixed(n1, w), Fixed(n2, w)) <==> n1 < n2
    ensures Fixed(n1, w) == Fixed(n2, w) <==> n1 == n2
  {
    if w > 0 {
      FixedOrder(n1 / 10, n2 / 10, w - 1);
      var c1, c2 := DigitChar(n1 % 10), DigitChar(n2 % 10);
      LexLessConcat(Fixed(n1 / 10, w - 1), [c1], Fixed(n2 / 10, w - 1), [c2]);
      assert LexLess([c1], [c2]) <==> c1 < c2;
      assert c1 < c2 <==> n1 % 10 < n2 % 10;
      assert Fixed(n1, w) == Fixed(n2, w) ==> Fixed(n1, w)[w - 1] == Fixed(n2, w)[w - 1];
      assert Fixed(n1, w) == Fixed(n2, w) ==> Fixed(n1, w)[..w - 1] == Fixed(n2, w)[..w - 1];
      assert n1 == 10 * (n1 / 10) + n1 % 10;
      assert n2 == 10 * (n2 / 10) + n2 % 10;
    }
  }

  /** `Array.prototype.join(sep)`. */
  function Join(parts: seq<string>, sep: string): string {
    if |parts| == 0 then ""
    else if |parts| == 1 then parts[0]
    else parts[0] + sep + Join(parts[1..], sep)
  }

  /** Joining two parts puts the separator between them. */
  lemma JoinTwo(a: string, b: string, sep: string)
    ensures Join([a, b], sep) == a + sep + b
  {
    assert [a, b][1..] == [b];
  }

  /** `filter(Boolean)` on strings: the empty strings are dropped, the order kept. */
  function NonEmpty(parts: seq<string>): (r: seq<string>)
    ensures forall s :: s in r <==> s in parts && s != ""
  {
    if parts == [] then []
    else if parts[0] == "" then NonEmpty(parts[1..])
    else [parts[0]] + NonEmpty(parts[1..])
  }

  /** Filtering distributes over concatenation. */
  lemma {:induction false} NonEmptyAppend(a: seq<string>, b: seq<string>)
    ensures NonEmpty(a + b) == NonEmpty(a) + NonEmpty(b)
  {
    if a != [] {
      assert (a + b)[0] == a[0];
      assert (a + b)[1..] == a[1..] + b;
      NonEmptyAppend(a[1..], b);
    } else {
      assert a + b == b;
    }
  }

  /** Filtering four strings keeps the non-empty ones in order. */
  lemma NonEmptyOfFour(a: string, b: string, c: string, d: string)
    ensures NonEmpty([a, b, c, d]) ==
      (if a == "" then [] else [a]) + (if b == "" then [] else [b])
      + (if c == "" then [] else [c]) + (if d == "" then [] else [d])
  {
    assert [a, b, c, d] == [a] + [b] + [c] + [d];
    NonEmptyAppend([a] + [b] + [c], [d]);
    NonEmptyAppend([a] + [b], [c]);
    NonEmptyAppend([a], [b]);
    assert NonEmpty([a]) == (if a == "" then [] else [a]) by { assert [a][1..] == []; }
    assert NonEmpty([b]) == (if b == "" then [] else [b]) by { assert [b][1..] == []; }
    assert NonEmpty([c]) == (if c == "" then [] else [c]) by { assert [c][1..] == []; }
    assert NonEmpty([d]) == (if d == "" then [] else [d]) by { assert [d][1..] == []; }
  }
}
