/** The C and C++ string primitives the firmware leans on, stated over
    `seq<char>`: `strtok`, `strstr`, `std::string::find` and `substr` with
    64-bit `size_t` arithmetic, `isdigit`/`isspace`, `atoi`, and the line
    structure that `fgets` sees in a text file. */
module CStrings {
  import opened Basics

  /** `std::string::npos`: the largest 64-bit `size_t`. */
  const NPOS: int := 0xFFFF_FFFF_FFFF_FFFF

  /** Number of distinct `size_t` values; unsigned arithmetic wraps modulo this. */
  const SIZE_MODULUS: int := 0x1_0000_0000_0000_0000

  function SizeAdd(a: int, b: int): (r: int)
    ensures 0 <= r < SIZE_MODULUS
    ensures 0 <= a + b < SIZE_MODULUS ==> r == a + b
  {
    (a + b) % SIZE_MODULUS
  }

  function SizeSub(a: int, b: int): (r: int)
    ensures 0 <= r < SIZE_MODULUS
    ensures 0 <= a - b < SIZE_MODULUS ==> r == a - b
  {
    (a - b) % SIZE_MODULUS
  }

  // ---------------------------------------------------------------------------
  // Character classes

  predicate IsDigit(c: char) {
    '0' <= c <= '9'
  }

  predicate IsSpace(c: char) {
    c == ' ' || c == '\t' || c == '\n' || c == '\r' || c == '\U{000B}' || c == '\U{000C}'
  }

  predicate AllDigits(s: string) {
    forall i :: 0 <= i < |s| ==> IsDigit(s[i])
  }

  function DigitValue(c: char): nat
    requires IsDigit(c)
  {
    c as int - '0' as int
  }

  function DigitChar(d: nat): (c: char)
    requires d < 10
    ensures IsDigit(c) && DigitValue(c) == d
  {
    ('0' as int + d) as char
  }

  // ---------------------------------------------------------------------------
  // strstr / std::string::find / substr

  /** `pat` occurs in `s` at index `i`. */
  predicate OccursAt(s: string, pat: string, i: int) {
    0 <= i && i + |pat| <= |s| && s[i..i + |pat|] == pat
  }

  /** `strstr(s, pat) != NULL`. */
  predicate Occurs(s: string, pat: string) {
    exists i :: 0 <= i <= |s| && OccursAt(s, pat, i)
  }

  function FindFrom(s: string, pat: string, i: nat): (r: int)
    requires |s| < NPOS
    ensures r == NPOS || (i <= r && OccursAt(s, pat, r))
    ensures r == NPOS ==> forall j :: i <= j ==> !OccursAt(s, pat, j)
    ensures r != NPOS ==> forall j :: i <= j < r ==> !OccursAt(s, pat, j)
    decreases |s| + 1 - i
  {
    if i + |pat| > |s| then NPOS
    else if s[i..i + |pat|] == pat then i
    else FindFrom(s, pat, i + 1)
  }

  /** `s.find(pat)`: the first index where `pat` occurs, or `npos`. */
  function Find(s: string, pat: string): (r: int)
    requires |s| < NPOS
    ensures r == NPOS <==> !Occurs(s, pat)
    ensures r != NPOS ==> OccursAt(s, pat, r) && forall j :: 0 <= j < r ==> !OccursAt(s, pat, j)
  {
    FindFrom(s, pat, 0)
  }

  /** `s.substr(pos, count)`: at most `count` characters starting at `pos`.
      (`pos > size()` throws in C++; callers here establish `pos <= |s|`.) */
  function Substr(s: string, pos: int, count: int): (r: string)
    requires 0 <= pos <= |s|
    requires 0 <= count
    ensures |r| == if count < |s| - pos then count else |s| - pos
    ensures r == s[pos..pos + |r|]
  {
    if count < |s| - pos then s[pos..pos + count] else s[pos..]
  }

  // ---------------------------------------------------------------------------
  // strtok

  /** The token `strtok` returns, and the text a following `strtok(NULL, ...)`
      call continues from (the delimiter that ended the token is consumed). */
  datatype Token = Token(text: string, rest: string)

  function IndexIn(s: string, delims: set<char>): (k: nat)
    ensures k <= |s|
    ensures forall i :: 0 <= i < k ==> s[i] !in delims
    ensures k < |s| ==> s[k] in delims
    decreases |s|
  {
    if |s| == 0 || s[0] in delims then 0 else 1 + IndexIn(s[1..], delims)
  }

  /** `strtok`: skip leading delimiters; `NULL` (None) if nothing is left,
      otherwise the longest delimiter-free run and the text after the
      delimiter that ended it. */
  function Strtok(s: string, delims: set<char>): (r: Option<Token>)
    ensures r.None? <==> forall i :: 0 <= i < |s| ==> s[i] in delims
    ensures r.Some? ==> |r.value.text| > 0
    ensures r.Some? ==> forall i :: 0 <= i < |r.value.text| ==> r.value.text[i] !in delims
    ensures r.Some? ==> |r.value.rest| < |s|
    ensures r.Some? ==> (forall c :: c in r.value.text ==> c in s) && (forall c :: c in r.value.rest ==> c in s)
    decreases |s|
  {
    if |s| == 0 then None
    else if s[0] in delims then
      var r := Strtok(s[1..], delims);
      assert forall i :: 1 <= i < |s| ==> s[i] == s[1..][i - 1];
      r
    else
      var k := IndexIn(s, delims);
      Some(Token(s[..k], if k < |s| then s[k + 1..] else ""))
  }

  lemma {:induction false} IndexInAppend(a: string, b: string, delims: set<char>)
    requires forall i :: 0 <= i < |a| ==> a[i] !in delims
    ensures IndexIn(a + b, delims) == |a| + IndexIn(b, delims)
    decreases |a|
  {
    if |a| > 0 {
      assert (a + b)[1..] == a[1..] + b;
      IndexInAppend(a[1..], b, delims);
    } else {
      assert a + b == b;
    }
  }

  /** Leading delimiters are skipped: they do not change the token or the
      text after it. */
  lemma {:induction false} StrtokSkips(d: string, s: string, delims: set<char>)
    requires forall i :: 0 <= i < |d| ==> d[i] in delims
    ensures Strtok(d + s, delims) == Strtok(s, delims)
    decreases |d|
  {
    if |d| > 0 {
      assert (d + s)[0] == d[0];
      assert (d + s)[1..] == d[1..] + s;
      StrtokSkips(d[1..], s, delims);
    } else {
      assert d + s == s;
    }
  }

  /** A non-empty delimiter-free field followed by a delimiter is returned as
      the token, and scanning resumes right after that delimiter. */
  lemma StrtokField(a: string, sep: char, b: string, delims: set<char>)
    requires |a| > 0 && sep in delims
    requires forall i :: 0 <= i < |a| ==> a[i] !in delims
    ensures Strtok(a + [sep] + b, delims) == Some(Token(a, b))
  {
    var s := a + [sep] + b;
    assert s == a + ([sep] + b);
    assert s[0] == a[0];
    IndexInAppend(a, [sep] + b, delims);
    assert IndexIn(s, delims) == |a|;
    assert s[..|a|] == a;
    assert s[|a| + 1..] == b;
  }

  /** A non-empty field without delimiters is returned whole, leaving nothing. */
  lemma StrtokLast(a: string, delims: set<char>)
    requires |a| > 0
    requires forall i :: 0 <= i < |a| ==> a[i] !in delims
    ensures Strtok(a, delims) == Some(Token(a, ""))
  {
    assert a[0] !in delims;
    IndexInAppend(a, "", delims);
    assert a + "" == a;
    assert IndexIn(a, delims) == |a|;
  }

  // ---------------------------------------------------------------------------
  // Decimal digits and atoi

  /** Length of the run of decimal digits at the front of `s`. */
  function DigitRun(s: string): (k: nat)
    ensures k <= |s|
    ensures AllDigits(s[..k])
    ensures k < |s| ==> !IsDigit(s[k])
    decreases |s|
  {
    if |s| > 0 && IsDigit(s[0]) then 1 + DigitRun(s[1..]) else 0
  }

  /** Value of a string of decimal digits, most significant first. */
  function DigitsValue(s: string): nat
    requires AllDigits(s)
    decreases |s|
  {
    if |s| == 0 then 0 else DigitsValue(s[..|s| - 1]) * 10 + DigitValue(s[|s| - 1])
  }

  function SkipSpace(s: string): (r: string)
    ensures |r| <= |s| && r == s[|s| - |r|..]
    ensures |r| > 0 ==> !IsSpace(r[0])
    decreases |s|
  {
    if |s| > 0 && IsSpace(s[0]) then SkipSpace(s[1..]) else s
  }

  /** `atoi`: optional white space, an optional sign, then the longest run of
      digits (0 when there is none). */
  function Atoi(s: string): int
  {
    var t := SkipSpace(s);
    var neg := |t| > 0 && t[0] == '-';
    var u := if |t| > 0 && (t[0] == '-' || t[0] == '+') then t[1..] else t;
    var n: int := DigitsValue(u[..DigitRun(u)]);
    if neg then -n else n
  }

  /** Text that starts with a digit converts to the value of its leading run
      of digits. */
  lemma AtoiOfDigits(s: string)
    requires |s| > 0 && IsDigit(s[0])
    ensures Atoi(s) == DigitsValue(s[..DigitRun(s)])
  {
    assert !IsSpace(s[0]) && s[0] != '-' && s[0] != '+';
    assert SkipSpace(s) == s;
  }

  lemma {:induction false} DigitRunAppend(a: string, b: string)
    requires AllDigits(a)
    requires |b| == 0 || !IsDigit(b[0])
    ensures DigitRun(a + b) == |a|
    decreases |a|
  {
    if |a| > 0 {
      assert (a + b)[1..] == a[1..] + b;
      DigitRunAppend(a[1..], b);
    } else {
      assert a + b == b;
    }
  }

  // ---------------------------------------------------------------------------
  // Lines of a text file, as successive `fgets` calls return them

  function IndexOfNewline(s: string): (k: nat)
    ensures k <= |s|
    ensures forall i :: 0 <= i < k ==> s[i] != '\n'
    ensures k < |s| ==> s[k] == '\n'
  {
    IndexIn(s, {'\n'})
  }

  predicate NoNewline(s: string) {
    '\n' !in s
  }

  /** The lines of a text, without their terminators: what successive `fgets`
      calls return (with long lines never split).  A final line lacking its
      `'\n'` is still a line; a text ending in `'\n'` has no empty last line. */
  function SplitLines(text: string): (lines: seq<string>)
    ensures forall i :: 0 <= i < |lines| ==> NoNewline(lines[i])
    decreases |text|
  {
    if |text| == 0 then []
    else
      var k := IndexOfNewline(text);
      if k == |text| then [text] else [text[..k]] + SplitLines(text[k + 1..])
  }

  /** The text a writer produces by emitting each line followed by `'\n'`. */
  function JoinLines(lines: seq<string>): string
  {
    if |lines| == 0 then "" else lines[0] + "\n" + JoinLines(lines[1..])
  }

  /** Reading back the lines of a file written line by line yields exactly the
      lines written, as long as none of them contains a newline. */
  lemma {:induction false} SplitJoinLines(lines: seq<string>)
    requires forall i :: 0 <= i < |lines| ==> NoNewline(lines[i])
    ensures SplitLines(JoinLines(lines)) == lines
    decreases |lines|
  {
    if |lines| > 0 {
      var a, tail := lines[0], JoinLines(lines[1..]);
      var text := a + "\n" + tail;
      assert text == a + (['\n'] + tail);
      assert text[0] == if |a| > 0 then a[0] else '\n';
      IndexInAppend(a, ['\n'] + tail, {'\n'});
      assert IndexOfNewline(text) == |a|;
      assert text[..|a|] == a;
      assert text[|a| + 1..] == tail;
      SplitJoinLines(lines[1..]);
    }
  }
}
