/**
 * Discovery of a named process's PIDs (`ProcessGuard::getPidsByName`): the first line
 * `pidof <name>` prints is read into a 128-byte buffer, split on spaces, each token is
 * converted with `atoi`, and the positive values are kept in order. Running `pidof`
 * itself is outside the model: its output is an input here.
 */
module PidScan {
  import opened Wrappers
  import opened Seqs
  import opened LibC

  /** Size of the buffer handed to fgets. */
  const BUFFER_SIZE := 128

  /** What reading from `popen("pidof <name>", "r")` gives: no stream at all, or the
      text the command printed. */
  datatype PidofOutput = PopenFailed | Output(text: string)

  /** `atoi` of each token, in token order. */
  function Atois(ts: seq<string>): (vs: seq<int>)
    ensures |vs| == |ts|
    ensures forall k :: 0 <= k < |vs| ==> vs[k] == Atoi(ts[k])
  {
    seq(|ts|, k requires 0 <= k < |ts| => Atoi(ts[k]))
  }

  /** The values `getPidsByName` keeps. */
  predicate IsPid(v: int)
  {
    v > 0
  }

  /** The PIDs a sequence of tokens yields: each token through `atoi`, the positive
      results kept in token order. */
  function PidsOfTokens(ts: seq<string>): (r: seq<int>)
    ensures |r| <= |ts|
    ensures forall k :: 0 <= k < |r| ==> 0 < r[k] <= INT_MAX
  {
    var vs := Atois(ts);
    var r := Filter(vs, IsPid);
    assert forall k :: 0 <= k < |r| ==> r[k] in vs;
    r
  }

  lemma AtoisAppend(a: seq<string>, b: seq<string>)
    ensures Atois(a + b) == Atois(a) + Atois(b)
  {
  }

  /** Tokens contribute their PIDs independently and in order. */
  lemma PidsOfTokensAppend(a: seq<string>, b: seq<string>)
    ensures PidsOfTokens(a + b) == PidsOfTokens(a) + PidsOfTokens(b)
  {
    AtoisAppend(a, b);
    FilterAppend(Atois(a), Atois(b), IsPid);
  }

  /** Appending one token appends its PID when `atoi` gives a positive value. */
  lemma PidsOfTokensSnoc(ts: seq<string>, t: string)
    ensures PidsOfTokens(ts + [t]) == PidsOfTokens(ts) + (if Atoi(t) > 0 then [Atoi(t)] else [])
  {
    var v := Atoi(t);
    AtoisAppend(ts, [t]);
    assert Atois([t]) == [v];
    FilterAppend(Atois(ts), [v], IsPid);
    assert [v][..0] == [];
  }

  /** The PIDs parsed from the line fgets stored in the buffer. */
  function PidsOfLine(line: string): (r: seq<int>)
    ensures forall k :: 0 <= k < |r| ==> 0 < r[k] <= INT_MAX
  {
    PidsOfTokens(Tokens(CString(line)))
  }

  /** The PIDs discovery yields for one `pidof` run: none when popen fails or nothing
      was printed, otherwise those of the first line (at most 127 characters of it). */
  function Discovered(out: PidofOutput): (r: seq<int>)
    ensures forall k :: 0 <= k < |r| ==> 0 < r[k] <= INT_MAX
    ensures out.PopenFailed? || out.text == [] ==> r == []
  {
    match out
    case PopenFailed => []
    case Output(text) =>
      match Fgets(text, BUFFER_SIZE)
      case None => []
      case Some(line) => PidsOfLine(line)
  }

  /** strtok's first step: move past the delimiters at `i`; no token is lost. */
  method SkipDelimiters(text: string, i: nat) returns (next: nat)
    requires i <= |text|
    ensures i <= next <= |text|
    ensures next < |text| ==> text[next] != ' '
    ensures Tokens(text[i..]) == Tokens(text[next..])
  {
    next := i;
    while next < |text| && text[next] == ' '
      invariant i <= next <= |text|
      invariant forall k :: i <= k < next ==> text[k] == ' '
    {
      next := next + 1;
    }
    SkipRun(text, i, next);
  }

  /** A run of delimiters yields no token. */
  lemma {:induction false} SkipRun(text: string, i: nat, j: nat)
    requires i <= j <= |text|
    requires forall k :: i <= k < j ==> text[k] == ' '
    ensures Tokens(text[i..]) == Tokens(text[j..])
    decreases j - i
  {
    if i < j {
      SkipAt(text, i);
      SkipRun(text, i + 1, j);
    }
  }

  /** strtok's second step: find where the token that starts at `i` ends. */
  method TokenEnd(text: string, i: nat) returns (j: nat)
    requires i < |text| && text[i] != ' '
    ensures i < j <= |text|
    ensures Tokens(text[i..]) == [text[i..j]] + Tokens(text[j..])
  {
    j := i;
    while j < |text| && text[j] != ' '
      invariant i <= j <= |text|
      invariant forall k :: i <= k < j ==> text[k] != ' '
    {
      j := j + 1;
    }
    TokenBetween(text, i, j);
  }

  /** The PIDs in the C string stored in the buffer `line`. */
  method ParseLine(line: string) returns (result: seq<int>)
    ensures result == PidsOfLine(line)
  {
    result := ParseTokens(CString(line));
  }

  /** Taking the token between `i` and `j` and the delimiters up to `next` keeps the
      scan's account of the tokens: those taken so far, then those still ahead. */
  lemma ScanStep(text: string, taken: seq<string>, i: nat, j: nat, next: nat)
    requires i <= j <= next <= |text|
    requires Tokens(text) == taken + Tokens(text[i..])
    requires Tokens(text[i..]) == [text[i..j]] + Tokens(text[j..])
    requires Tokens(text[j..]) == Tokens(text[next..])
    ensures Tokens(text) == (taken + [text[i..j]]) + Tokens(text[next..])
  {
    var later := Tokens(text[next..]);
    assert taken + ([text[i..j]] + later) == (taken + [text[i..j]]) + later;
  }

  /** The strtok loop: take each token, convert it, keep it if positive. */
  method ParseTokens(text: string) returns (result: seq<int>)
    ensures result == PidsOfTokens(Tokens(text))
  {
    ghost var taken: seq<string> := [];
    result := [];
    var i := SkipDelimiters(text, 0);
    assert text[0..] == text;
    while i < |text|
      invariant 0 <= i <= |text|
      invariant i < |text| ==> text[i] != ' '
      invariant Tokens(text) == taken + Tokens(text[i..])
      invariant result == PidsOfTokens(taken)
      decreases |text| - i
    {
      var j := TokenEnd(text, i);
      var token := text[i..j];
      var pid := Atoi(token);
      if pid > 0 {
        result := result + [pid];
      }
      PidsOfTokensSnoc(taken, token);
      var next := SkipDelimiters(text, j);
      ScanStep(text, taken, i, j, next);
      taken := taken + [token];
      i := next;
    }
    assert text[i..] == [];
    assert taken + [] == taken;
  }

  /** `getPidsByName` once the command has run: read one line, parse it. */
  method ReadPids(out: PidofOutput) returns (result: seq<int>)
    ensures result == Discovered(out)
  {
    result := [];
    if out.Output? {
      var line := Fgets(out.text, BUFFER_SIZE);
      if line.Some? {
        result := ParseLine(line.value);
      }
    }
  }

  // ------------------------------------------------ what pidof prints, read back

  function DigitChar(d: nat): (c: char)
    requires d < 10
    ensures IsDigit(c)
  {
    ('0' as int + d) as char
  }

  /** `printf("%d", n)` for a non-negative `n`. */
  function Decimal(n: nat): (s: string)
    ensures s != [] && forall k :: 0 <= k < |s| ==> IsDigit(s[k])
  {
    if n < 10 then [DigitChar(n)] else Decimal(n / 10) + [DigitChar(n % 10)]
  }

  lemma {:induction false} DecimalValueOfDecimal(n: nat)
    ensures DecimalValue(Decimal(n)) == n
  {
    var s := Decimal(n);
    if n < 10 {
      assert s[..|s| - 1] == [];
    } else {
      assert s[..|s| - 1] == Decimal(n / 10);
      DecimalValueOfDecimal(n / 10);
    }
  }

  /** The digit run strtol reads from a decimal numeral followed by a non-digit (or by
      nothing) is that numeral, and its value is the number. */
  lemma ValueOfDecimalDigits(n: nat, rest: string)
    requires rest == [] || !IsDigit(rest[0])
    ensures var u := Decimal(n) + rest; DecimalValue(u[..DigitCount(u)]) == n
  {
    var d := Decimal(n);
    DigitCountIs(d + rest, |d|);
    assert (d + rest)[..|d|] == d;
    DecimalValueOfDecimal(n);
  }

  /** `atoi` reads back a decimal `int` that is followed by a non-digit or by nothing. */
  lemma AtoiOfDecimal(n: nat, rest: string)
    requires n <= INT_MAX
    requires rest == [] || !IsDigit(rest[0])
    ensures Atoi(Decimal(n) + rest) == n
  {
    var s := Decimal(n) + rest;
    assert s[0] == Decimal(n)[0];
    ValueOfDecimalDigits(n, rest);
    StrtolOfDigits(s);
  }

  /** No white space before a sign and a numeral. */
  lemma NoBlank(sign: string, d: string, rest: string)
    ensures "" + sign + d + rest == sign + d + rest
    ensures "" + "" + d + rest == d + rest
  {
  }

  /** strtol reads a minus sign and a decimal magnitude as its negation. */
  lemma StrtolOfNegativeDecimal(n: nat, rest: string)
    requires n <= INT_MAX
    requires rest == [] || !IsDigit(rest[0])
    ensures Strtol("-" + Decimal(n) + rest) == -(n as int)
  {
    NoBlank("-", Decimal(n), rest);
    DecimalValueOfDecimal(n);
    StrtolExact("", "-", Decimal(n), rest);
  }

  /** A decimal beyond the `long` range reads as LONG_MAX, and after a minus sign as
      LONG_MIN. */
  lemma StrtolOfLargeDecimal(n: nat, rest: string)
    requires n > LONG_MAX
    requires rest == [] || !IsDigit(rest[0])
    ensures Strtol(Decimal(n) + rest) == LONG_MAX
    ensures Strtol("-" + Decimal(n) + rest) == LONG_MIN
  {
    var d := Decimal(n);
    DecimalValueOfDecimal(n);
    assert Strtol(d + rest) == LONG_MAX by {
      NoBlank("", d, rest);
      StrtolSaturates("", "", d, rest);
    }
    assert Strtol("-" + d + rest) == LONG_MIN by {
      NoBlank("-", d, rest);
      StrtolSaturates("", "-", d, rest);
    }
  }

  /** `atoi` reads a minus sign and a decimal `int` magnitude as its negation, so such a
      token never passes as a PID. */
  lemma AtoiOfNegativeDecimal(n: nat, rest: string)
    requires n <= INT_MAX
    requires rest == [] || !IsDigit(rest[0])
    ensures Atoi("-" + Decimal(n) + rest) == -(n as int)
  {
    StrtolOfNegativeDecimal(n, rest);
  }

  /** The words pidof prints: each PID in decimal. */
  function Words(pids: seq<nat>): (ws: seq<string>)
    ensures |ws| == |pids|
  {
    if pids == [] then [] else Words(pids[..|pids| - 1]) + [Decimal(pids[|pids| - 1])]
  }

  /** Word `k` is PID `k` in decimal. */
  lemma {:induction false} WordsAreDecimals(pids: seq<nat>)
    ensures forall k :: 0 <= k < |pids| ==> Words(pids)[k] == Decimal(pids[k])
  {
    if pids != [] {
      var n := |pids| - 1;
      WordsAreDecimals(pids[..n]);
      assert forall k :: 0 <= k < n ==> pids[..n][k] == pids[k];
    }
  }

  /** What `pidof` prints for the given running instances: their PIDs separated by
      single spaces and ended by a newline, or nothing at all when there are none. */
  function PidofText(pids: seq<nat>): string
  {
    if pids == [] then [] else Join(Words(pids)) + "\n"
  }

  lemma NoSpaceInDecimal(n: nat)
    ensures SpaceFree(Decimal(n))
  {
  }

  lemma {:induction false} JoinOfDigits(ws: seq<string>)
    requires forall k :: 0 <= k < |ws| ==> forall i :: 0 <= i < |ws[k]| ==> IsDigit(ws[k][i])
    ensures forall i :: 0 <= i < |Join(ws)| ==> IsDigit(Join(ws)[i]) || Join(ws)[i] == ' '
  {
    if |ws| > 1 {
      var n := |ws| - 1;
      var a := Join(ws[..n]);
      JoinOfDigits(ws[..n]);
      var j := Join(ws);
      assert j == a + " " + ws[n];
      forall i | 0 <= i < |j|
        ensures IsDigit(j[i]) || j[i] == ' '
      {
        if i < |a| {
          assert j[i] == a[i];
        } else if i > |a| {
          assert j[i] == ws[n][i - |a| - 1];
        }
      }
    }
  }

  /** One more PID printed adds that PID to what the words convert to. */
  lemma PidsOfWordsSnoc(front: seq<nat>, p: nat)
    requires 0 < p <= INT_MAX
    requires PidsOfTokens(Words(front)) == front
    ensures PidsOfTokens(Words(front + [p])) == front + [p]
  {
    assert (front + [p])[..|front|] == front;
    PidsOfTokensSnoc(Words(front), Decimal(p));
    AtoiOfDecimal(p, []);
    assert Decimal(p) + [] == Decimal(p);
  }

  lemma {:induction false} PidsOfWords(pids: seq<nat>)
    requires forall k :: 0 <= k < |pids| ==> 0 < pids[k] <= INT_MAX
    ensures PidsOfTokens(Words(pids)) == pids
  {
    if pids != [] {
      var n := |pids| - 1;
      var front, p := pids[..n], pids[n];
      assert pids == front + [p];
      PidsOfWords(front);
      PidsOfWordsSnoc(front, p);
    }
  }

  /** fgets takes the whole of a line that ends in its only newline and fits the buffer. */
  lemma FgetsWholeLine(line: string)
    requires 0 < |line| < BUFFER_SIZE
    requires line[|line| - 1] == '\n'
    requires forall k :: 0 <= k < |line| - 1 ==> line[k] != '\n'
    ensures Fgets(line, BUFFER_SIZE) == Some(line)
  {
    assert line[..|line|] == line;
  }

  /** A buffer without NUL holds itself as a C string. */
  lemma CStringWhole(buf: string)
    requires '\0' !in buf
    ensures CString(buf) == buf
  {
  }

  /** strtok splits pidof's line into the decimal words, the newline staying on the last. */
  lemma TokensOfPidofLine(pids: seq<nat>)
    requires pids != []
    ensures var n := |pids| - 1;
      Tokens(Join(Words(pids)) + "\n") == Words(pids[..n]) + [Decimal(pids[n]) + "\n"]
  {
    var ws := Words(pids);
    WordsAreDecimals(pids);
    forall k | 0 <= k < |ws|
      ensures ws[k] != [] && SpaceFree(ws[k])
    {
      NoSpaceInDecimal(pids[k]);
    }
    assert SpaceFree("\n");
    TokensOfJoin(ws, "\n");
  }

  /** The tokens of pidof's line, the newline on the last one, convert back to the PIDs. */
  lemma PidsOfPidofTokens(front: seq<nat>, p: nat, ts: seq<string>)
    requires 0 < p <= INT_MAX
    requires PidsOfTokens(Words(front)) == front
    requires ts == Words(front) + [Decimal(p) + "\n"]
    ensures PidsOfTokens(ts) == front + [p]
  {
    PidsOfTokensSnoc(Words(front), Decimal(p) + "\n");
    AtoiOfDecimal(p, "\n");
  }

  lemma SplitLast(pids: seq<nat>)
    requires pids != []
    ensures pids == pids[..|pids| - 1] + [pids[|pids| - 1]]
  {
  }

  /** strtok and atoi read the PIDs back from the line pidof prints. */
  lemma PidsOfPidofLine(pids: seq<nat>)
    requires pids != []
    requires forall k :: 0 <= k < |pids| ==> 0 < pids[k] <= INT_MAX
    ensures PidsOfTokens(Tokens(Join(Words(pids)) + "\n")) == pids
  {
    var n := |pids| - 1;
    var front, p := pids[..n], pids[n];
    SplitLast(pids);
    var ts := Tokens(Join(Words(pids)) + "\n");
    assert ts == Words(front) + [Decimal(p) + "\n"] by {
      TokensOfPidofLine(pids);
    }
    assert PidsOfTokens(Words(front)) == front by {
      PidsOfWords(front);
    }
    PidsOfPidofTokens(front, p, ts);
  }

  /** Reading back what pidof prints gives exactly the running PIDs, in the order
      printed, provided the line fits the buffer. */
  lemma PidofRoundTrip(pids: seq<nat>)
    requires forall k :: 0 <= k < |pids| ==> 0 < pids[k] <= INT_MAX
    requires |PidofText(pids)| < BUFFER_SIZE
    ensures Discovered(Output(PidofText(pids))) == pids
  {
    if pids != [] {
      var line := Join(Words(pids)) + "\n";
      PidofLineIsPlain(pids);
      FgetsWholeLine(line);
      CStringWhole(line);
      PidsOfPidofLine(pids);
    }
  }

  /** pidof's line holds no NUL, and its only newline is the last character. */
  lemma PidofLineIsPlain(pids: seq<nat>)
    ensures var line := Join(Words(pids)) + "\n";
      '\0' !in line && forall k :: 0 <= k < |line| - 1 ==> line[k] != '\n'
  {
    var ws := Words(pids);
    var j := Join(ws);
    var line := j + "\n";
    WordsAreDecimals(pids);
    JoinOfDigits(ws);
    assert forall k :: 0 <= k < |line| - 1 ==> line[k] == j[k];
    assert line[|line| - 1] == '\n';
  }

  // ------------------------------------------------ a line longer than the buffer

  /** fgets stops after 127 characters of a line that has no newline among them. */
  lemma FgetsCutsLongLine(text: string)
    requires |text| >= BUFFER_SIZE
    requires forall k :: 0 <= k < BUFFER_SIZE - 1 ==> text[k] != '\n'
    ensures Fgets(text, BUFFER_SIZE) == Some(text[..BUFFER_SIZE - 1])
  {
  }

  /** A long line without newline or NUL before the cut is discovered as the tokens of
      its first 127 characters. */
  lemma DiscoveredOfCut(text: string)
    requires |text| >= BUFFER_SIZE
    requires forall k :: 0 <= k < BUFFER_SIZE - 1 ==> text[k] != '\n' && text[k] != '\0'
    ensures Discovered(Output(text)) == PidsOfTokens(Tokens(text[..BUFFER_SIZE - 1]))
  {
    FgetsCutsLongLine(text);
    CStringWhole(text[..BUFFER_SIZE - 1]);
  }

  /** A line ending in a space and `1` has `"1"` as its last token. */
  lemma TokensEndInOne(line: string)
    requires |line| >= 2 && line[|line| - 2] == ' ' && line[|line| - 1] == '1'
    ensures Tokens(line) == Tokens(line[..|line| - 2]) + ["1"]
  {
    var front := line[..|line| - 2];
    assert line == front + " " + "1";
    TokensOfLastWord(front, "1");
  }

  lemma AtoiOfOne()
    ensures Atoi("1") == 1
  {
    assert Decimal(1) == "1";
    AtoiOfDecimal(1, []);
    assert "1" + [] == "1";
  }

  /** When pidof's line is longer than the buffer and the cut falls just after the first
      digit of a PID, that digit is parsed as a PID of its own: a line whose characters
      125 and 126 are a space and '1' makes discovery end with PID 1. */
  lemma CutLineEndsInPidOne(text: string)
    requires |text| >= BUFFER_SIZE
    requires forall k :: 0 <= k < BUFFER_SIZE - 1 ==> text[k] != '\n' && text[k] != '\0'
    requires text[BUFFER_SIZE - 3] == ' ' && text[BUFFER_SIZE - 2] == '1'
    ensures var found := Discovered(Output(text));
      found != [] && found[|found| - 1] == 1
  {
    var line := text[..BUFFER_SIZE - 1];
    var ts := Tokens(line[..|line| - 2]);
    assert Discovered(Output(text)) == PidsOfTokens(Tokens(line)) by {
      DiscoveredOfCut(text);
    }
    assert PidsOfTokens(Tokens(line)) == PidsOfTokens(ts) + [1] by {
      TokensEndInOne(line);
      AtoiOfOne();
      PidsOfTokensSnoc(ts, "1");
    }
  }
}
