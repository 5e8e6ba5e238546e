/**
 * The C library routines the PID-list parser relies on, as pure functions over the
 * characters they see: `fgets` (one line into a fixed buffer), the end of a C string
 * at its first NUL, `strtok` with the delimiter set " ", and `atoi`, which glibc and
 * bionic implement as `(int) strtol(s, NULL, 10)` on an LP64 target (64-bit `long`,
 * 32-bit `int`).
 */
module LibC {
  import opened Wrappers

  const LONG_MIN: int := -0x8000_0000_0000_0000
  const LONG_MAX: int := 0x7FFF_FFFF_FFFF_FFFF
  const INT_MIN: int := -0x8000_0000
  const INT_MAX: int := 0x7FFF_FFFF

  // ---------------------------------------------------------------- fgets

  /** How many characters `fgets` takes from `s` when it may store at most `max`:
      up to and including the first newline, never more than `max`. */
  function LineLength(s: string, max: nat): (n: nat)
    ensures n <= max && n <= |s|
    ensures s != [] && max > 0 ==> n >= 1
    ensures forall k :: 0 <= k < n - 1 ==> s[k] != '\n'
    ensures n < max && n < |s| ==> n > 0 && s[n - 1] == '\n'
  {
    if s == [] || max == 0 then 0
    else if s[0] == '\n' then 1
    else 1 + LineLength(s[1..], max - 1)
  }

  /** `fgets(buffer, size, stream)` on a stream whose remaining content is `stream`:
      nothing at end of file, otherwise the first line, newline included, cut after
      `size - 1` characters. */
  function Fgets(stream: string, size: nat): (r: Option<string>)
    requires size >= 2
    ensures r.None? <==> stream == []
    ensures r.Some? ==> 1 <= |r.value| <= size - 1 && |r.value| <= |stream| && r.value == stream[..|r.value|]
    ensures r.Some? ==> forall k :: 0 <= k < |r.value| - 1 ==> r.value[k] != '\n'
    ensures r.Some? && |r.value| < size - 1 && |r.value| < |stream| ==> r.value[|r.value| - 1] == '\n'
  {
    if stream == [] then None else Some(stream[..LineLength(stream, size - 1)])
  }

  /** The C string held in a buffer: everything before the first NUL. */
  function CString(buf: string): (r: string)
    ensures r <= buf && '\0' !in r
    ensures |r| < |buf| ==> buf[|r|] == '\0'
  {
    if buf == [] || buf[0] == '\0' then [] else [buf[0]] + CString(buf[1..])
  }

  // ---------------------------------------------------------------- strtok

  /** No character of `w` is the delimiter. */
  predicate SpaceFree(w: string)
  {
    forall k :: 0 <= k < |w| ==> w[k] != ' '
  }

  /** Length of the run of non-delimiter characters that starts `s`. */
  function RunLength(s: string): (n: nat)
    ensures n <= |s|
    ensures forall k :: 0 <= k < n ==> s[k] != ' '
    ensures n < |s| ==> s[n] == ' '
  {
    if s == [] || s[0] == ' ' then 0 else 1 + RunLength(s[1..])
  }

  /** The tokens successive `strtok(..., " ")` calls return on `s`: maximal runs of
      characters other than the space, so runs of spaces never yield empty tokens. */
  function Tokens(s: string): seq<string>
    decreases |s|
  {
    if s == [] then []
    else if s[0] == ' ' then Tokens(s[1..])
    else
      var n := RunLength(s);
      [s[..n]] + Tokens(s[n..])
  }

  /** Every token is non-empty and free of delimiters. */
  lemma {:induction false} TokensAreWords(s: string)
    ensures forall k :: 0 <= k < |Tokens(s)| ==> Tokens(s)[k] != [] && SpaceFree(Tokens(s)[k])
    decreases |s|
  {
    if s != [] {
      if s[0] == ' ' {
        TokensAreWords(s[1..]);
      } else {
        var n := RunLength(s);
        TokensAreWords(s[n..]);
      }
    }
  }

  /** `strtok` skips a leading delimiter. */
  lemma TokensSkip(s: string)
    requires s != [] && s[0] == ' '
    ensures Tokens(s) == Tokens(s[1..])
  {
  }

  /** A run of `n` non-delimiters that ends at a delimiter or at the end of `s` is the
      next token. */
  lemma TokenAt(s: string, n: nat)
    requires 0 < n <= |s|
    requires forall k :: 0 <= k < n ==> s[k] != ' '
    requires n == |s| || s[n] == ' '
    ensures Tokens(s) == [s[..n]] + Tokens(s[n..])
  {
    RunLengthIs(s, n);
    assert s[0] != ' ';
  }

  /** The run length is determined by the first delimiter. */
  lemma RunLengthIs(s: string, n: nat)
    requires n <= |s|
    requires forall k :: 0 <= k < n ==> s[k] != ' '
    requires n == |s| || s[n] == ' '
    ensures RunLength(s) == n
  {
  }

  /** The same two facts at positions of a larger string, as a scanning loop uses them. */
  lemma SkipAt(text: string, i: nat)
    requires i < |text| && text[i] == ' '
    ensures Tokens(text[i..]) == Tokens(text[i + 1..])
  {
    assert text[i..][1..] == text[i + 1..];
    TokensSkip(text[i..]);
  }

  lemma TokenBetween(text: string, i: nat, j: nat)
    requires i < j <= |text|
    requires forall k :: i <= k < j ==> text[k] != ' '
    requires j == |text| || text[j] == ' '
    ensures Tokens(text[i..]) == [text[i..j]] + Tokens(text[j..])
  {
    var s := text[i..];
    assert s[..j - i] == text[i..j] && s[j - i..] == text[j..];
    TokenAt(s, j - i);
  }

  /** The words of `ts` separated by single spaces. */
  function Join(ts: seq<string>): string
  {
    if ts == [] then []
    else if |ts| == 1 then ts[0]
    else Join(ts[..|ts| - 1]) + " " + ts[|ts| - 1]
  }

  /** Tokenising undoes joining, for words that are non-empty and free of spaces. */
  lemma {:induction false} TokensOfJoinedWords(ts: seq<string>)
    requires forall k :: 0 <= k < |ts| ==> ts[k] != [] && SpaceFree(ts[k])
    ensures Tokens(Join(ts)) == ts
  {
    if |ts| == 1 {
      TokensOfWord(ts[0]);
    } else if |ts| > 1 {
      var n := |ts| - 1;
      var front := ts[..n];
      TokensOfLastWord(Join(front), ts[n]);
      TokensOfJoinedWords(front);
      assert front + [ts[n]] == ts;
    }
  }

  /** A space-free `tail` written straight after the last joined word stays attached to
      it, as the newline that ends a printed line does. */
  lemma TokensOfJoin(ts: seq<string>, tail: string)
    requires ts != []
    requires forall k :: 0 <= k < |ts| ==> ts[k] != [] && SpaceFree(ts[k])
    requires SpaceFree(tail)
    ensures Tokens(Join(ts) + tail) == ts[..|ts| - 1] + [ts[|ts| - 1] + tail]
  {
    var n := |ts| - 1;
    var last := ts[n] + tail;
    if n == 0 {
      TokensOfWord(last);
    } else {
      var front := ts[..n];
      assert Join(ts) + tail == Join(front) + " " + last;
      TokensOfLastWord(Join(front), last);
      TokensOfJoinedWords(front);
    }
  }

  /** A word alone is one token. */
  lemma TokensOfWord(w: string)
    requires w != [] && SpaceFree(w)
    ensures Tokens(w) == [w]
  {
    TokenAt(w, |w|);
    assert w[..|w|] == w && w[|w|..] == [];
  }

  /** A leading delimiter is skipped whatever follows it. */
  lemma SkipThen(a: string, x: string)
    requires a != [] && a[0] == ' '
    ensures Tokens(a + x) == Tokens(a[1..] + x)
  {
    assert (a + x)[1..] == a[1..] + x;
    TokensSkip(a + x);
  }

  /** The run that starts `a` is the next token when a delimiter follows `a`. */
  lemma TokenThen(a: string, x: string)
    requires a != [] && a[0] != ' '
    requires x != [] && x[0] == ' '
    ensures var n := RunLength(a);
      Tokens(a + x) == [a[..n]] + Tokens(a[n..] + x)
  {
    var n := RunLength(a);
    var s := a + x;
    assert forall k :: 0 <= k < n ==> s[k] == a[k];
    assert s[n] == ' ';
    TokenAt(s, n);
    assert s[..n] == a[..n];
    assert s[n..] == a[n..] + x;
  }

  /** A word written after a space is the last token. */
  lemma {:induction false} TokensOfLastWord(a: string, w: string)
    requires w != [] && SpaceFree(w)
    ensures Tokens(a + " " + w) == Tokens(a) + [w]
    decreases |a|
  {
    var x := " " + w;
    assert a + " " + w == a + x;
    if a == [] {
      assert Tokens(a + x) == [w] by {
        SkipThen(x, []);
        assert x[1..] + [] == w;
        TokensOfWord(w);
      }
    } else if a[0] == ' ' {
      assert Tokens(a + x) == Tokens(a[1..] + x) by {
        SkipThen(a, x);
      }
      assert Tokens(a[1..] + x) == Tokens(a[1..]) + [w] by {
        assert a[1..] + x == a[1..] + " " + w;
        TokensOfLastWord(a[1..], w);
      }
      TokensSkip(a);
    } else {
      var n := RunLength(a);
      assert Tokens(a + x) == [a[..n]] + Tokens(a[n..] + x) by {
        TokenThen(a, x);
      }
      assert Tokens(a[n..] + x) == Tokens(a[n..]) + [w] by {
        assert a[n..] + x == a[n..] + " " + w;
        TokensOfLastWord(a[n..], w);
      }
    }
  }

  // ---------------------------------------------------------------- atoi

  /** The characters C's `isspace` accepts in the "C" locale. */
  predicate IsSpace(c: char)
  {
    c == ' ' || c == '\t' || c == '\n' || c == '\U{B}' || c == '\U{C}' || c == '\r'
  }

  predicate IsDigit(c: char)
  {
    '0' <= c <= '9'
  }

  function SkipSpaces(s: string): (r: string)
    ensures r == [] || !IsSpace(r[0])
    ensures |r| <= |s| && r == s[|s| - |r|..]
  {
    if s != [] && IsSpace(s[0]) then SkipSpaces(s[1..]) else s
  }

  /** Number of decimal digits that start `s`. */
  function DigitCount(s: string): (n: nat)
    ensures n <= |s|
    ensures forall k :: 0 <= k < n ==> IsDigit(s[k])
    ensures n < |s| ==> !IsDigit(s[n])
  {
    if s != [] && IsDigit(s[0]) then 1 + DigitCount(s[1..]) else 0
  }

  /** A run of `n` digits ended by a non-digit or by the end of `s` is the digit count. */
  lemma DigitCountIs(s: string, n: nat)
    requires n <= |s|
    requires forall k :: 0 <= k < n ==> IsDigit(s[k])
    requires n == |s| || !IsDigit(s[n])
    ensures DigitCount(s) == n
  {
  }

  /** The value of a string of decimal digits, most significant first. */
  function DecimalValue(d: string): (v: nat)
    requires forall k :: 0 <= k < |d| ==> IsDigit(d[k])
  {
    if d == [] then 0
    else
      assert IsDigit(d[|d| - 1]);
      DecimalValue(d[..|d| - 1]) * 10 + (d[|d| - 1] as int - '0' as int)
  }

  /** What follows an optional sign. */
  function Unsigned(u: string): string
  {
    if u != [] && (u[0] == '-' || u[0] == '+') then u[1..] else u
  }

  /** Whether the number strtol reads from `s` carries a minus sign. */
  predicate Negative(s: string)
  {
    var u := SkipSpaces(s);
    u != [] && u[0] == '-'
  }

  /** The value of the digits strtol reads from `s`, before the sign and saturation. */
  function Magnitude(s: string): nat
  {
    var d := Unsigned(SkipSpaces(s));
    DecimalValue(d[..DigitCount(d)])
  }

  /** `strtol(s, NULL, 10)`: optional white space, an optional sign, the longest run
      of digits; no digits at all converts to 0; out-of-range values saturate. */
  function Strtol(s: string): (r: int)
    ensures LONG_MIN <= r <= LONG_MAX
  {
    var magnitude: int := Magnitude(s);
    if Negative(s) then (if -magnitude < LONG_MIN then LONG_MIN else -magnitude)
    else if magnitude > LONG_MAX then LONG_MAX else magnitude
  }

  /** Characters that `isspace` accepts, only. */
  predicate Blank(ws: string)
  {
    forall k :: 0 <= k < |ws| ==> IsSpace(ws[k])
  }

  /** An optional sign as `strtol` accepts it. */
  predicate Sign(sign: string)
  {
    sign == "" || sign == "+" || sign == "-"
  }

  /** A non-empty run of digits `d` that `rest` does not continue. */
  predicate Numeral(d: string, rest: string)
  {
    d != [] && (forall k :: 0 <= k < |d| ==> IsDigit(d[k])) && (rest == [] || !IsDigit(rest[0]))
  }

  /** Leading white space is skipped up to the first other character. */
  lemma {:induction false} SkipBlank(ws: string, x: string)
    requires Blank(ws)
    requires x == [] || !IsSpace(x[0])
    ensures SkipSpaces(ws + x) == x
    decreases |ws|
  {
    if ws != [] {
      assert (ws + x)[1..] == ws[1..] + x;
      SkipBlank(ws[1..], x);
    }
  }

  /** The digits strtol reads from a numeral are exactly the numeral. */
  lemma DigitsRead(d: string, rest: string)
    requires Numeral(d, rest)
    ensures var u := d + rest; DigitCount(u) == |d| && u[..DigitCount(u)] == d
  {
    DigitCountIs(d + rest, |d|);
    assert (d + rest)[..|d|] == d;
  }

  /** A sign followed by a numeral starts with neither white space nor, unless the
      sign is a minus, a minus; after the sign comes the numeral. */
  lemma SignedNumeral(sign: string, d: string, rest: string)
    requires Sign(sign) && Numeral(d, rest)
    ensures var x := sign + d + rest;
      x != [] && !IsSpace(x[0]) && (x[0] == '-' <==> sign == "-") && Unsigned(x) == d + rest
  {
    var x := sign + d + rest;
    if sign == "" {
      assert x == d + rest && x[0] == d[0];
    } else {
      assert x[0] == sign[0];
      assert x[1..] == d + rest;
    }
  }

  /** What strtol takes from white space, a sign and a numeral: the sign is the one
      written, and the magnitude is the numeral's value. */
  lemma NumeralParts(ws: string, sign: string, d: string, rest: string)
    requires Blank(ws) && Sign(sign) && Numeral(d, rest)
    ensures var s := ws + sign + d + rest;
      (Negative(s) <==> sign == "-") && Magnitude(s) == DecimalValue(d)
  {
    var s, x := ws + sign + d + rest, sign + d + rest;
    SignedNumeral(sign, d, rest);
    assert SkipSpaces(s) == x by {
      assert s == ws + x;
      SkipBlank(ws, x);
    }
    assert Magnitude(s) == DecimalValue(d) by {
      DigitsRead(d, rest);
    }
  }

  /** A numeral within the `long` range is converted exactly, negated after a minus
      sign, whatever white space precedes it and whatever non-digit follows it. */
  lemma StrtolExact(ws: string, sign: string, d: string, rest: string)
    requires Blank(ws) && Sign(sign) && Numeral(d, rest)
    requires DecimalValue(d) <= LONG_MAX
    ensures var v := DecimalValue(d);
      Strtol(ws + sign + d + rest) == if sign == "-" then -(v as int) else v
  {
    NumeralParts(ws, sign, d, rest);
  }

  /** A numeral beyond the `long` range saturates: to LONG_MAX, or to LONG_MIN after a
      minus sign. */
  lemma StrtolSaturates(ws: string, sign: string, d: string, rest: string)
    requires Blank(ws) && Sign(sign) && Numeral(d, rest)
    requires DecimalValue(d) > LONG_MAX
    ensures Strtol(ws + sign + d + rest) == if sign == "-" then LONG_MIN else LONG_MAX
  {
    NumeralParts(ws, sign, d, rest);
  }

  /** On a string that starts with a digit, strtol is the saturated value of the digits. */
  lemma StrtolOfDigits(s: string)
    requires s != [] && IsDigit(s[0])
    ensures var v := DecimalValue(s[..DigitCount(s)]);
      Strtol(s) == if v > LONG_MAX then LONG_MAX else v
  {
    assert !IsSpace(s[0]);
    assert SkipSpaces(s) == s;
  }

  /** Conversion of a `long` to `int`: the value modulo 2^32, in two's complement. */
  function ToInt(v: int): (r: int)
    ensures INT_MIN <= r <= INT_MAX
    ensures (r - v) % 0x1_0000_0000 == 0
    ensures INT_MIN <= v <= INT_MAX ==> r == v
  {
    (v - INT_MIN) % 0x1_0000_0000 + INT_MIN
  }

  /** `atoi(s)` as `(int) strtol(s, NULL, 10)`. */
  function Atoi(s: string): (r: int)
    ensures INT_MIN <= r <= INT_MAX
  {
    ToInt(Strtol(s))
  }

  /** A token that, after white space and an optional sign, does not start with a digit
      converts to 0. */
  lemma AtoiNoDigits(s: string)
    requires var d := Unsigned(SkipSpaces(s)); d == [] || !IsDigit(d[0])
    ensures Strtol(s) == 0 && Atoi(s) == 0
  {
    var d := Unsigned(SkipSpaces(s));
    assert DigitCount(d) == 0;
    assert d[..0] == [];
  }

  /** The `long`-to-`int` narrowing in `atoi`: an unsigned or `+`-signed numeral beyond
      32 bits but within 64 wraps around to a different value. */
  lemma AtoiWraps(ws: string, sign: string, d: string, rest: string)
    requires Blank(ws) && (sign == "" || sign == "+") && Numeral(d, rest)
    requires INT_MAX < DecimalValue(d) <= LONG_MAX
    ensures var v := DecimalValue(d); Atoi(ws + sign + d + rest) == ToInt(v) != v
  {
    StrtolExact(ws, sign, d, rest);
  }
}
