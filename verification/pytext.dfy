/** The handful of Python string operations the library relies on, on the
    ASCII range: `lower`, `upper`, `casefold`, `split()`, `startswith`,
    `' '.join`, `strip`, `int(str)`, `str(int)` and `repr(str)`. */
module PyText {
  import opened Wrappers

  // ---------------------------------------------------------------- case

  predicate IsUpperAscii(c: char) { 'A' <= c <= 'Z' }
  predicate IsLowerAscii(c: char) { 'a' <= c <= 'z' }

  function LowerChar(c: char): char {
    if IsUpperAscii(c) then (c as int + 32) as char else c
  }

  function UpperChar(c: char): char {
    if IsLowerAscii(c) then (c as int - 32) as char else c
  }

  /** `str.lower()`. */
  function Lower(s: string): (r: string)
    ensures |r| == |s|
    ensures forall i :: 0 <= i < |s| ==> r[i] == LowerChar(s[i])
  {
    seq(|s|, i requires 0 <= i < |s| => LowerChar(s[i]))
  }

  /** `str.upper()`. */
  function Upper(s: string): (r: string)
    ensures |r| == |s|
    ensures forall i :: 0 <= i < |s| ==> r[i] == UpperChar(s[i])
  {
    seq(|s|, i requires 0 <= i < |s| => UpperChar(s[i]))
  }

  /** `str.casefold()`; on ASCII text it coincides with `lower()`. */
  function Casefold(s: string): string {
    Lower(s)
  }

  lemma CasefoldIdempotent(s: string)
    ensures Casefold(Casefold(s)) == Casefold(s)
  {
  }

  // ---------------------------------------------------------- whitespace

  /** The characters `str.split()` and `str.strip()` treat as whitespace. */
  predicate IsSpace(c: char) {
    c == ' ' || c == '\t' || c == '\n' || c == '\r' || c == '\U{000B}' || c == '\U{000C}'
    || ('\U{001C}' <= c <= '\U{001F}')
  }

  predicate NoSpace(w: string) {
    forall i :: 0 <= i < |w| ==> !IsSpace(w[i])
  }

  /** Length of the maximal run of non-space characters at the start of `s`. */
  function WordLen(s: string): (n: nat)
    requires s != [] && !IsSpace(s[0])
    ensures 1 <= n <= |s| && NoSpace(s[..n])
    ensures n < |s| ==> IsSpace(s[n])
  {
    if |s| == 1 || IsSpace(s[1]) then 1
    else
      var m := WordLen(s[1..]);
      assert s[1..][..m] == s[1..m + 1];
      1 + m
  }

  /** `str.split()` without arguments: the maximal runs of non-space
      characters, in order. */
  function Split(s: string): (r: seq<string>)
    ensures forall k :: 0 <= k < |r| ==> r[k] != [] && NoSpace(r[k])
    decreases |s|
  {
    if s == [] then []
    else if IsSpace(s[0]) then Split(s[1..])
    else
      var n := WordLen(s);
      [s[..n]] + Split(s[n..])
  }

  lemma {:induction false} SplitWord(w: string)
    requires w != [] && NoSpace(w)
    ensures Split(w) == [w]
  {
    var n := WordLen(w);
    assert n == |w|;
    assert w[..n] == w && w[n..] == [];
  }

  /** The word length is the position of the first space. */
  lemma WordLenUnique(s: string, n: nat)
    requires s != [] && !IsSpace(s[0])
    requires 1 <= n <= |s| && NoSpace(s[..n]) && (n < |s| ==> IsSpace(s[n]))
    ensures WordLen(s) == n
  {
    var m := WordLen(s);
    assert forall i :: 0 <= i < n ==> !IsSpace(s[..n][i]) && s[..n][i] == s[i];
    assert forall i :: 0 <= i < m ==> !IsSpace(s[..m][i]) && s[..m][i] == s[i];
  }

  /** Splitting a text with one more word appended after a space gives the
      words of the text followed by that word. */
  lemma {:induction false} SplitAppend(s: string, w: string)
    requires w != [] && NoSpace(w)
    ensures Split(s + " " + w) == Split(s) + [w]
    decreases |s|
  {
    var x := s + " " + w;
    if s == [] {
      assert x[1..] == w;
      SplitWord(w);
    } else if IsSpace(s[0]) {
      assert x[1..] == s[1..] + " " + w;
      SplitAppend(s[1..], w);
    } else {
      var n := WordLen(s);
      assert x[..n] == s[..n];
      WordLenUnique(x, n);
      assert x[n..] == s[n..] + " " + w;
      SplitAppend(s[n..], w);
    }
  }

  /** `str.strip()`. */
  function Strip(s: string): (r: string)
    ensures |r| <= |s|
    decreases |s|
  {
    if s == [] then []
    else if IsSpace(s[0]) then Strip(s[1..])
    else if IsSpace(s[|s| - 1]) then Strip(s[..|s| - 1])
    else s
  }

  lemma StripNoSpace(s: string)
    requires NoSpace(s)
    ensures Strip(s) == s
  {
  }

  // ------------------------------------------------------- joins, prefixes

  /** `sep.join(parts)`. */
  function Join(parts: seq<string>, sep: string): string {
    if parts == [] then ""
    else if |parts| == 1 then parts[0]
    else parts[0] + sep + Join(parts[1..], sep)
  }

  /** Concatenation regroups freely. */
  lemma ConcatAssoc(a: string, b: string, c: string)
    ensures (a + b) + c == a + (b + c)
  {
  }

  lemma {:induction false} JoinSnoc(parts: seq<string>, last: string, sep: string)
    requires parts != []
    ensures Join(parts + [last], sep) == Join(parts, sep) + sep + last
  {
    if |parts| == 1 {
      assert parts + [last] == [parts[0], last];
    } else {
      assert (parts + [last])[1..] == parts[1..] + [last];
      JoinSnoc(parts[1..], last, sep);
    }
  }

  /** `list(reversed(xs))`. */
  function Reversed<T>(xs: seq<T>): (r: seq<T>)
    ensures |r| == |xs|
    ensures forall i :: 0 <= i < |xs| ==> r[i] == xs[|xs| - 1 - i]
  {
    if xs == [] then [] else Reversed(xs[1..]) + [xs[0]]
  }

  /** `s.startswith(p)`. */
  predicate StartsWith(s: string, p: string) {
    |p| <= |s| && s[..|p|] == p
  }

  predicate EndsWith(s: string, p: string) {
    |p| <= |s| && s[|s| - |p|..] == p
  }

  /** `s.replace(c, '')` for a single character `c`. */
  function RemoveAll(s: string, c: char): (r: string)
    ensures c !in r
    ensures forall x :: x in r ==> x in s
  {
    if s == [] then []
    else (if s[0] == c then [] else [s[0]]) + RemoveAll(s[1..], c)
  }

  // ------------------------------------------------------------- integers

  predicate IsDigit(c: char) { '0' <= c <= '9' }

  predicate AllDigits(s: string) {
    forall i :: 0 <= i < |s| ==> IsDigit(s[i])
  }

  function DigitChar(d: nat): (c: char)
    requires d < 10
    ensures IsDigit(c)
  {
    ('0' as int + d) as char
  }

  function DigitValue(c: char): (d: nat)
    requires IsDigit(c)
    ensures d < 10
  {
    c as int - '0' as int
  }

  /** The value of a run of decimal digits. */
  function DigitsValue(d: string): nat
    requires AllDigits(d)
  {
    if d == [] then 0
    else 10 * DigitsValue(d[..|d| - 1]) + DigitValue(d[|d| - 1])
  }

  /** `str(n)` for a non-negative integer. */
  function NatToString(n: nat): (r: string)
    ensures r != [] && AllDigits(r)
  {
    if n < 10 then [DigitChar(n)] else NatToString(n / 10) + [DigitChar(n % 10)]
  }

  /** `str(n)`. */
  function IntToString(n: int): string {
    if n < 0 then "-" + NatToString(-n) else NatToString(n)
  }

  /** The literal grammar `int()` accepts after stripping and after an
      optional sign: digits, with single underscores between digits. */
  predicate WellFormedDigits(b: string) {
    b != [] && IsDigit(b[0]) && IsDigit(b[|b| - 1]) &&
    (forall i :: 0 <= i < |b| ==> IsDigit(b[i]) || b[i] == '_') &&
    (forall i :: 0 <= i < |b| - 1 ==> !(b[i] == '_' && b[i + 1] == '_'))
  }

  function DropUnderscores(b: string): (r: string)
    requires forall i :: 0 <= i < |b| ==> IsDigit(b[i]) || b[i] == '_'
    ensures AllDigits(r)
  {
    if b == [] then []
    else (if b[0] == '_' then [] else [b[0]]) + DropUnderscores(b[1..])
  }

  /** `int(s)` for a string: `None` where Python raises `ValueError`. */
  function ParseInt(s: string): Option<int> {
    var t := Strip(s);
    if t == [] then None
    else
      var body := if t[0] == '-' || t[0] == '+' then t[1..] else t;
      if !WellFormedDigits(body) then None
      else
        var v: int := DigitsValue(DropUnderscores(body));
        Some(if t[0] == '-' then -v else v)
  }

  lemma {:induction false} NatToStringValue(n: nat)
    ensures DigitsValue(NatToString(n)) == n
  {
    if n >= 10 {
      var s := NatToString(n);
      assert s[..|s| - 1] == NatToString(n / 10);
      NatToStringValue(n / 10);
    }
  }

  lemma {:induction false} DropUnderscoresOfDigits(d: string)
    requires AllDigits(d)
    ensures DropUnderscores(d) == d
  {
    if d != [] {
      DropUnderscoresOfDigits(d[1..]);
    }
  }

  lemma {:induction false} DigitsWellFormed(d: string)
    requires d != [] && AllDigits(d)
    ensures WellFormedDigits(d) && NoSpace(d) && d[0] != '-' && d[0] != '+'
  {
  }

  /** An integer written out is one word: not empty, no white space. */
  lemma IntToStringWord(n: int)
    ensures IntToString(n) != [] && NoSpace(IntToString(n)) && ' ' !in IntToString(n)
  {
    var s := IntToString(n);
    var m: nat := if n < 0 then -n else n;
    DigitsWellFormed(NatToString(m));
    assert s == if n < 0 then "-" + NatToString(m) else NatToString(m);
    assert forall i :: 0 <= i < |s| ==> s[i] != ' ' && !IsSpace(s[i]);
  }

  /** `int(str(n)) == n`: printing an integer and parsing it back is the
      identity. */
  lemma {:induction false} IntRoundTrip(n: int)
    ensures ParseInt(IntToString(n)) == Some(n)
  {
    var s := IntToString(n);
    var m: nat := if n < 0 then -n else n;
    var digits := NatToString(m);
    DigitsWellFormed(digits);
    assert s == if n < 0 then "-" + digits else digits;
    assert NoSpace(s);
    StripNoSpace(s);
    var body := if s[0] == '-' || s[0] == '+' then s[1..] else s;
    assert body == digits;
    DropUnderscoresOfDigits(digits);
    NatToStringValue(m);
  }

  // ---------------------------------------------------------------- repr

  /** The lower-case hexadecimal digit of `d`. */
  function HexDigit(d: nat): (c: char)
    requires d < 16
    ensures IsDigit(c) || 'a' <= c <= 'f'
  {
    if d < 10 then DigitChar(d) else ('a' as int + (d - 10)) as char
  }

  /** The characters below U+0100 that `str.isprintable` rejects: the C0 and
      C1 controls, DEL, the no-break space and the soft hyphen. */
  predicate IsLatin1Unprintable(c: char) {
    c < ' ' || ('\U{7f}' <= c <= '\U{a0}') || c == '\U{ad}'
  }

  /** The escape sequence `repr` writes for one character inside quotes `q`. */
  function EscapeChar(c: char, q: char): (r: string)
    ensures r != [] && (r[0] == '\\' <==> |r| > 1)
    ensures |r| == 1 <==> c != '\\' && c != q && !IsLatin1Unprintable(c)
  {
    if c == '\\' then "\\\\"
    else if c == q then ['\\', q]
    else if c == '\n' then "\\n"
    else if c == '\r' then "\\r"
    else if c == '\t' then "\\t"
    else if IsLatin1Unprintable(c) then
      "\\x" + [HexDigit(c as int / 16), HexDigit(c as int % 16)]
    else [c]
  }

  function Escape(s: string, q: char): string {
    if s == [] then [] else EscapeChar(s[0], q) + Escape(s[1..], q)
  }

  /** `repr(s)`: single quotes unless the text holds a single quote and no
      double quote. */
  function Repr(s: string): (r: string)
    ensures |r| >= 2 && r[0] == r[|r| - 1] && (r[0] == '\'' || r[0] == '"')
  {
    var q := if '\'' in s && '"' !in s then '"' else '\'';
    [q] + Escape(s, q) + [q]
  }
}
