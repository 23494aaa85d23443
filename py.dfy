/** The Python built-ins the repository's scripts rely on, stated over Dafny strings:
    `str.split()` and `str.split(sep)`, `str.splitlines()`, `str.strip()`, slicing,
    `str.upper()`/`str.lower()`, `os.path.basename`/`dirname`/`splitext`, `pathlib`
    names and suffixes, `f'{i:02d}'`, and `int()`/`float()` on text. */
module Py {
  import opened Results

  /** Built-in exceptions that the modelled code lets escape. */
  datatype Exception = KeyError | TypeError | ValueError | IndexError | FileNotFoundError

  // ------------------------------------------------------------------ characters

  /** `c.isspace()`: the characters `str.split()` and `str.strip()` treat as whitespace. */
  predicate IsSpace(c: char) {
    var n := c as int;
    n == 0x20 || 0x09 <= n <= 0x0d || 0x1c <= n <= 0x1f || n == 0x85 || n == 0xa0 ||
    n == 0x1680 || 0x2000 <= n <= 0x200a || n == 0x2028 || n == 0x2029 || n == 0x202f ||
    n == 0x205f || n == 0x3000
  }

  /** The line boundaries of `str.splitlines()` (`\r\n` is handled in `Lines`). */
  predicate IsLineBreak(c: char) {
    var n := c as int;
    0x0a <= n <= 0x0d || 0x1c <= n <= 0x1e || n == 0x85 || n == 0x2028 || n == 0x2029
  }

  predicate IsDigit(c: char) {
    '0' <= c <= '9'
  }

  predicate AllDigits(s: string) {
    forall i :: 0 <= i < |s| ==> IsDigit(s[i])
  }

  /** ASCII case mapping; `str.upper()` on other characters is not modelled. */
  function UpperChar(c: char): char {
    if 'a' <= c <= 'z' then (c as int - 32) as char else c
  }

  function LowerChar(c: char): char {
    if 'A' <= c <= 'Z' then (c as int + 32) as char else c
  }

  function Upper(s: string): string {
    seq(|s|, i requires 0 <= i < |s| => UpperChar(s[i]))
  }

  function Lower(s: string): string {
    seq(|s|, i requires 0 <= i < |s| => LowerChar(s[i]))
  }

  /** Case mapping leaves a character that is not an ASCII letter where it was and
      introduces no new occurrence of it. */
  lemma CaseKeepsOthers(s: string, c: char)
    requires !('a' <= c <= 'z') && !('A' <= c <= 'Z')
    ensures c in Upper(s) <==> c in s
    ensures c in Lower(s) <==> c in s
  {
    if c in s {
      var i :| 0 <= i < |s| && s[i] == c;
      assert Upper(s)[i] == c && Lower(s)[i] == c;
    }
  }

  // ------------------------------------------------------------------ slicing

  /** `s[i:j]` for non-negative bounds: clamped to the string, empty when `j <= i`. */
  function Slice(s: string, i: nat, j: nat): string {
    var hi := if j < |s| then j else |s|;
    if hi <= i then [] else s[i..hi]
  }

  /** `s[:n]` */
  function Take(s: string, n: nat): string {
    Slice(s, 0, n)
  }

  /** `s[n:]` */
  function Drop(s: string, n: nat): string {
    Slice(s, n, |s|)
  }

  predicate StartsWith(s: string, prefix: string) {
    |prefix| <= |s| && s[..|prefix|] == prefix
  }

  // ------------------------------------------------------------------ searching

  /** `s.find(c)`, except that a missing `c` gives `|s|`. */
  function IndexOf(s: string, c: char): (i: nat)
    ensures i <= |s|
    ensures i < |s| ==> s[i] == c
    ensures forall j :: 0 <= j < i ==> s[j] != c
  {
    if s == [] || s[0] == c then 0 else 1 + IndexOf(s[1..], c)
  }

  /** `s.rfind(c)`: the last index holding `c`, -1 when there is none. */
  function LastIndexOf(s: string, c: char): (i: int)
    ensures -1 <= i < |s|
    ensures 0 <= i ==> s[i] == c
    ensures forall j :: i < j < |s| ==> s[j] != c
  {
    if s == [] then -1
    else if s[|s| - 1] == c then |s| - 1
    else LastIndexOf(s[..|s| - 1], c)
  }

  // ------------------------------------------------------------------ splitting

  /** The length of the run of non-whitespace characters that starts `s`. */
  function WordLength(s: string): (n: nat)
    ensures n <= |s|
    ensures forall i :: 0 <= i < n ==> !IsSpace(s[i])
    ensures n < |s| ==> IsSpace(s[n])
  {
    if s == [] || IsSpace(s[0]) then 0 else 1 + WordLength(s[1..])
  }

  predicate IsWord(w: string) {
    w != [] && forall i :: 0 <= i < |w| ==> !IsSpace(w[i])
  }

  /** `s.split()`: the maximal runs of non-whitespace characters, in order. */
  function Words(s: string): (ws: seq<string>)
    ensures forall i :: 0 <= i < |ws| ==> IsWord(ws[i])
    decreases |s|
  {
    if s == [] then []
    else if IsSpace(s[0]) then Words(s[1..])
    else
      var n := WordLength(s);
      [s[..n]] + Words(s[n..])
  }

  /** `' '.join(ws)` */
  function JoinSpace(ws: seq<string>): string {
    if ws == [] then ""
    else if |ws| == 1 then ws[0]
    else ws[0] + " " + JoinSpace(ws[1..])
  }

  lemma {:induction false} WordLengthOfWord(w: string, t: string)
    requires forall i :: 0 <= i < |w| ==> !IsSpace(w[i])
    requires t == [] || IsSpace(t[0])
    ensures WordLength(w + t) == |w|
  {
    if w != [] {
      assert (w + t)[1..] == w[1..] + t;
      WordLengthOfWord(w[1..], t);
    }
  }

  /** A word followed by nothing or by whitespace is split off whole. */
  lemma WordsOfWord(w: string, t: string)
    requires IsWord(w)
    requires t == [] || IsSpace(t[0])
    ensures Words(w + t) == [w] + Words(t)
  {
    WordLengthOfWord(w, t);
    assert (w + t)[..|w|] == w;
    assert (w + t)[|w|..] == t;
  }

  /** Splitting a space-joined list of words gives the words back. */
  lemma {:induction false} WordsOfJoin(ws: seq<string>)
    requires forall i :: 0 <= i < |ws| ==> IsWord(ws[i])
    ensures Words(JoinSpace(ws)) == ws
  {
    if |ws| == 1 {
      WordsOfWord(ws[0], []);
      assert ws[0] + [] == ws[0];
    } else if |ws| > 1 {
      var rest := JoinSpace(ws[1..]);
      assert ws[0] + " " + rest == ws[0] + (" " + rest);
      WordsOfWord(ws[0], " " + rest);
      assert (" " + rest)[1..] == rest;
      WordsOfJoin(ws[1..]);
    }
  }

  /** Leading whitespace does not change the words. */
  lemma {:induction false} WordsOfLStrip(s: string)
    ensures Words(LStrip(s, Whitespace)) == Words(s)
    decreases |s|
  {
    if s != [] && IsSpace(s[0]) {
      WordsOfLStrip(s[1..]);
    }
  }

  /** A run of non-whitespace is not extended by what follows it when that starts with
      whitespace. */
  lemma {:induction false} WordLengthOfAppend(s: string, t: string)
    requires t == [] || IsSpace(t[0])
    ensures WordLength(s + t) == WordLength(s)
  {
    if s != [] && !IsSpace(s[0]) {
      assert (s + t)[1..] == s[1..] + t;
      WordLengthOfAppend(s[1..], t);
    } else if s == [] {
      assert s + t == t;
    }
  }

  /** Trailing whitespace does not change the words. */
  lemma {:induction false} WordsOfTrailingSpace(s: string, t: string)
    requires forall i :: 0 <= i < |t| ==> IsSpace(t[i])
    ensures Words(s + t) == Words(s)
    decreases |s| + |t|
  {
    if s == [] {
      assert s + t == t;
      if t != [] {
        WordsOfTrailingSpace([], t[1..]);
        assert [] + t[1..] == t[1..];
      }
    } else if IsSpace(s[0]) {
      assert (s + t)[1..] == s[1..] + t;
      WordsOfTrailingSpace(s[1..], t);
    } else {
      var n := WordLength(s);
      WordLengthOfAppend(s, t);
      assert (s + t)[..n] == s[..n];
      assert (s + t)[n..] == s[n..] + t;
      WordsOfTrailingSpace(s[n..], t);
    }
  }

  /** `s.strip().split() == s.split()` */
  lemma WordsOfStrip(s: string)
    ensures Words(Strip(s)) == Words(s)
  {
    var u := LStrip(s, Whitespace);
    var r := RStrip(u, Whitespace);
    WordsOfLStrip(s);
    RStripSpaces(u);
    WordsOfTrailingSpace(r, u[|r|..]);
  }

  /** What `rstrip()` removes is whitespace. */
  lemma RStripSpaces(u: string)
    ensures var r := RStrip(u, Whitespace);
      && u == r + u[|r|..]
      && forall i :: 0 <= i < |u[|r|..]| ==> IsSpace(u[|r|..][i])
  {
    var r := RStrip(u, Whitespace);
    forall i | 0 <= i < |u| - |r|
      ensures IsSpace(u[|r|..][i])
    {
      assert Drops(Whitespace, u[|r| + i]);
    }
  }

  /** `s.split(sep)` for a one-character separator: never empty, and the fields between
      separators in order. */
  function Split(s: string, sep: char): (fields: seq<string>)
    ensures |fields| >= 1
    ensures fields[0] == s[..IndexOf(s, sep)]
    ensures |fields| == 1 <==> sep !in s
    decreases |s|
  {
    var i := IndexOf(s, sep);
    if i == |s| then [s] else [s[..i]] + Split(s[i + 1..], sep)
  }

  /** The first field of `a + sep + b` is `a` when `a` holds no separator. */
  lemma SplitAtFirst(a: string, sep: char, b: string)
    requires sep !in a
    ensures Split(a + [sep] + b, sep)[0] == a
  {
    var s := a + [sep] + b;
    assert s[|a|] == sep;
    assert s[..|a|] == a;
    assert IndexOf(s, sep) == |a|;
  }

  /** `(a + sep + b).split(sep)` is `[a, b]` when neither part holds the separator. */
  lemma SplitPair(a: string, sep: char, b: string)
    requires sep !in a && sep !in b
    ensures Split(a + [sep] + b, sep) == [a, b]
  {
    var s := a + [sep] + b;
    SplitAtFirst(a, sep, b);
    assert s[|a| + 1..] == b;
    assert Split(b, sep) == [b];
  }

  /** The length of the text before the first line boundary. */
  function LineLength(s: string): (n: nat)
    ensures n <= |s|
    ensures forall i :: 0 <= i < n ==> !IsLineBreak(s[i])
    ensures n < |s| ==> IsLineBreak(s[n])
  {
    if s == [] || IsLineBreak(s[0]) then 0 else 1 + LineLength(s[1..])
  }

  /** `s.splitlines()`: the text between line boundaries, no empty last line for a
      trailing boundary, and `\r\n` counted as one boundary. */
  function Lines(s: string): (lines: seq<string>)
    ensures forall i, j :: 0 <= i < |lines| && 0 <= j < |lines[i]| ==> !IsLineBreak(lines[i][j])
    decreases |s|
  {
    if s == [] then []
    else
      var n := LineLength(s);
      if n == |s| then [s]
      else
        var k := if s[n] == '\r' && n + 1 < |s| && s[n + 1] == '\n' then 2 else 1;
        [s[..n]] + Lines(s[n + k..])
  }

  // ------------------------------------------------------------------ stripping

  /** The argument of `strip`: no argument (whitespace) or a one-character string. */
  datatype Chars = Whitespace | Only(c: char)

  predicate Drops(chars: Chars, x: char) {
    match chars
    case Whitespace => IsSpace(x)
    case Only(c) => x == c
  }

  /** How many leading characters `s.lstrip(chars)` removes. */
  function LStripCount(s: string, chars: Chars): (k: nat)
    ensures k <= |s|
    ensures forall i :: 0 <= i < k ==> Drops(chars, s[i])
    ensures k == |s| || !Drops(chars, s[k])
    decreases |s|
  {
    if s != [] && Drops(chars, s[0]) then 1 + LStripCount(s[1..], chars) else 0
  }

  /** `s.lstrip(chars)` */
  function LStrip(s: string, chars: Chars): string {
    s[LStripCount(s, chars)..]
  }

  /** How many characters `s.rstrip(chars)` keeps. */
  function RStripCount(s: string, chars: Chars): (k: nat)
    ensures k <= |s|
    ensures forall i :: k <= i < |s| ==> Drops(chars, s[i])
    ensures k == 0 || !Drops(chars, s[k - 1])
    decreases |s|
  {
    if s != [] && Drops(chars, s[|s| - 1]) then RStripCount(s[..|s| - 1], chars) else |s|
  }

  /** `s.rstrip(chars)` */
  function RStrip(s: string, chars: Chars): string {
    s[..RStripCount(s, chars)]
  }

  /** `lstrip` stops at a kept character and removes a dropped one. */
  lemma LStripStep(s: string, chars: Chars)
    ensures s == [] || !Drops(chars, s[0]) ==> LStrip(s, chars) == s
    ensures s != [] && Drops(chars, s[0]) ==> LStrip(s, chars) == LStrip(s[1..], chars)
  {
  }

  /** `rstrip` stops at a kept character and removes a dropped one. */
  lemma RStripStep(s: string, chars: Chars)
    ensures s == [] || !Drops(chars, s[|s| - 1]) ==> RStrip(s, chars) == s
    ensures s != [] && Drops(chars, s[|s| - 1]) ==> RStrip(s, chars) == RStrip(s[..|s| - 1], chars)
  {
  }

  /** `s.strip()` */
  function Strip(s: string): string {
    RStrip(LStrip(s, Whitespace), Whitespace)
  }

  /** `s.strip(c)` for a one-character argument. */
  function StripChar(s: string, c: char): string {
    RStrip(LStrip(s, Only(c)), Only(c))
  }

  // ------------------------------------------------------------------ paths

  predicate AllAre(s: string, c: char) {
    forall i :: 0 <= i < |s| ==> s[i] == c
  }

  /** `os.path.basename(p)`: what follows the last `/`. */
  function Basename(p: string): (r: string)
    ensures '/' !in r
  {
    p[LastIndexOf(p, '/') + 1..]
  }

  /** `os.path.dirname(p)`: what precedes the last `/`, without trailing slashes unless
      it is made of slashes only. */
  function Dirname(p: string): string {
    var head := p[..LastIndexOf(p, '/') + 1];
    if head != [] && !AllAre(head, '/') then RStrip(head, Only('/')) else head
  }

  /** `os.path.splitext(p)`: the extension is the part from the last `.` of the last path
      component, unless only dots precede that `.` within the component. */
  function SplitExt(p: string): (parts: (string, string))
    ensures parts.0 + parts.1 == p
  {
    var sep := LastIndexOf(p, '/');
    var dot := LastIndexOf(p, '.');
    if sep < dot && !AllAre(p[sep + 1..dot], '.') then (p[..dot], p[dot..]) else (p, "")
  }

  /** `os.path.join(a, b)`: an absolute `b` replaces `a`; otherwise one `/` separates
      them unless `a` is empty or already ends with one. */
  function PathJoin(a: string, b: string): string {
    if StartsWith(b, "/") then b
    else if a == [] || a[|a| - 1] == '/' then a + b
    else a + "/" + b
  }

  /** The directory `os.mkdir(p)` makes or finds: `p` without its trailing `/`s, the
      root excepted (`.` and `..` components and repeated inner `/`s are not
      normalised). */
  function TrimSlashes(p: string): (d: string)
    ensures StartsWith(p, d)
    ensures forall k :: |d| <= k < |p| ==> p[k] == '/'
    ensures p != [] ==> d != []
    ensures |d| > 1 ==> d[|d| - 1] != '/'
    decreases |p|
  {
    if |p| > 1 && p[|p| - 1] == '/' then TrimSlashes(p[..|p| - 1]) else p
  }

  /** A trailing `/` names the same directory. */
  lemma TrimSlashesOfSlashed(p: string)
    requires p != []
    ensures TrimSlashes(p + "/") == TrimSlashes(p)
  {
    assert (p + "/")[..|p|] == p;
  }

  /** `Path(p).name`: the last non-empty component (normalising `.` components is not
      modelled). */
  function PathName(p: string): string {
    Basename(RStrip(p, Only('/')))
  }

  /** `Path(n).with_suffix('').name` for a bare name `n`: drops the last suffix, which
      needs a `.` that is neither the first nor the last character. */
  function DropSuffix(name: string): string {
    var i := LastIndexOf(name, '.');
    if 0 < i < |name| - 1 then name[..i] else name
  }

  /** `Path(n).name` of a bare, non-empty name is the name itself. */
  lemma PathNameOfName(n: string)
    requires '/' !in n
    ensures PathName(n) == n
  {
    assert RStrip(n, Only('/')) == n by {
      if n != [] {
        assert n[|n| - 1] != '/';
      }
    }
    var i := LastIndexOf(n, '/');
    assert i == -1;
    assert n[i + 1..] == n;
  }

  /** Joining directories in front of a bare name leaves `Path(...).name` alone. */
  lemma PathNameOfJoin(a: string, n: string)
    requires n != [] && '/' !in n
    ensures PathName(PathJoin(a, n)) == n
  {
    var r := PathJoin(a, n);
    assert r[|r| - 1] == n[|n| - 1];
    assert RStrip(r, Only('/')) == r;
    var k := |r| - |n|;
    assert r[k..] == n;
    if k > 0 {
      assert r[k - 1] == '/';
    }
    assert LastIndexOf(r, '/') == k - 1;
  }

  // ------------------------------------------------------------------ lists as sets

  /** `set(s)` */
  function Elements<T(==,!new)>(s: seq<T>): set<T> {
    set x | x in s
  }

  /** A list without repeated entries. */
  predicate Distinct<T(==)>(s: seq<T>) {
    forall i, j :: 0 <= i < j < |s| ==> s[i] != s[j]
  }

  /** Appending a new entry keeps a list free of repeats. */
  lemma DistinctAppend<T(!new)>(s: seq<T>, x: T)
    requires Distinct(s) && x !in Elements(s)
    ensures Distinct(s + [x]) && Elements(s + [x]) == Elements(s) + {x}
  {
  }

  /** A list without repeats is as long as the set of its entries. */
  lemma {:induction false} DistinctCard<T(!new)>(s: seq<T>)
    requires Distinct(s)
    ensures |Elements(s)| == |s|
  {
    if s != [] {
      var t := s[..|s| - 1];
      assert Elements(s) == Elements(t) + {s[|s| - 1]} by {
        assert s == t + [s[|s| - 1]];
      }
      assert s[|s| - 1] !in Elements(t);
      DistinctCard(t);
    }
  }

  /** Splitting a set by membership in another: the two parts add up to it, and a
      subset of the common part is no larger than that part. */
  lemma CardSplit<T(!new)>(a: set<T>, b: set<T>, sub: set<T>)
    requires sub <= a * b
    ensures |a| == |a - b| + |a * b|
    ensures |a * b| == |sub| + |(a * b) - sub|
  {
    assert a == (a - b) + (a * b);
    assert (a - b) * (a * b) == {};
    assert a * b == sub + ((a * b) - sub);
    assert sub * ((a * b) - sub) == {};
  }

  /** A subset is no larger than its superset. */
  lemma SubsetCard<T(!new)>(a: set<T>, b: set<T>)
    requires a <= b
    ensures |a| <= |b|
  {
    assert b == a + (b - a);
    assert a * (b - a) == {};
  }

  /** The values of a function on the first `n` naturals. */
  function Image<T(!new)>(f: nat -> T, n: nat): set<T> {
    set i: nat | i < n :: f(i)
  }

  /** A function that never repeats a value takes `n` values on the first `n` naturals. */
  lemma {:induction false} ImageCard<T(!new)>(f: nat -> T, n: nat)
    requires forall a: nat, b: nat :: a < b < n ==> f(a) != f(b)
    ensures |Image(f, n)| == n
  {
    if n > 0 {
      ImageCard(f, n - 1);
      assert Image(f, n) == Image(f, n - 1) + {f(n - 1)};
    }
  }

  // ------------------------------------------------------------------ numbers as text

  function DigitChar(d: nat): (c: char)
    requires d < 10
    ensures IsDigit(c)
  {
    "0123456789"[d]
  }

  function DigitValue(c: char): (d: nat)
    requires IsDigit(c)
    ensures d < 10
  {
    c as int - '0' as int
  }

  /** `str(n)` for a natural number. */
  function Decimal(n: nat): (s: string)
    ensures AllDigits(s)
    ensures n < 10 ==> |s| == 1
    ensures n >= 10 ==> |s| >= 2
  {
    if n < 10 then [DigitChar(n)] else Decimal(n / 10) + [DigitChar(n % 10)]
  }

  /** The value of a string of decimal digits (`int(s)` without sign or spaces). */
  function ParseDigits(s: string): nat
    requires AllDigits(s)
  {
    if s == [] then 0 else 10 * ParseDigits(s[..|s| - 1]) + DigitValue(s[|s| - 1])
  }

  lemma {:induction false} ParseDecimal(n: nat)
    ensures ParseDigits(Decimal(n)) == n
  {
    var s := Decimal(n);
    if n >= 10 {
      assert s[..|s| - 1] == Decimal(n / 10);
      ParseDecimal(n / 10);
    }
  }

  lemma {:induction false} ParseLeadingZero(s: string)
    requires AllDigits(s)
    ensures AllDigits("0" + s) && ParseDigits("0" + s) == ParseDigits(s)
  {
    if s != [] {
      assert ("0" + s)[..|"0" + s| - 1] == "0" + s[..|s| - 1];
      ParseLeadingZero(s[..|s| - 1]);
    }
  }

  /** `f'{n:02d}'`: at least two digits, zero-padded. */
  function ZeroPad2(n: nat): string {
    if n < 10 then "0" + Decimal(n) else Decimal(n)
  }

  /** The padded index reads back as the index, so different indices give different
      names. */
  lemma ParseZeroPad2(n: nat)
    ensures |ZeroPad2(n)| >= 2 && AllDigits(ZeroPad2(n))
    ensures ParseDigits(ZeroPad2(n)) == n
  {
    ParseDecimal(n);
    if n < 10 {
      ParseLeadingZero(Decimal(n));
    }
  }

  function Pow10(n: nat): (p: nat)
    ensures p >= 1
  {
    if n == 0 then 1 else 10 * Pow10(n - 1)
  }

  /** `int(s)` on text: optional surrounding whitespace and sign, then decimal digits
      (underscores and non-ASCII digits are not modelled). */
  function ParseInt(s: string): Option<int> {
    var t := Strip(s);
    if t != [] && (t[0] == '+' || t[0] == '-') && t[1..] != [] && AllDigits(t[1..]) then
      Some(if t[0] == '-' then 0 - ParseDigits(t[1..]) as int else ParseDigits(t[1..]))
    else if t != [] && AllDigits(t) then Some(ParseDigits(t))
    else None
  }

  /** The value of an unsigned decimal `digits[.digits]`, at least one digit in all. */
  function ParseUnsignedReal(t: string): Option<real> {
    var k := IndexOf(t, '.');
    var whole := t[..k];
    var fraction := if k < |t| then t[k + 1..] else "";
    if AllDigits(whole) && AllDigits(fraction) && (whole != [] || fraction != []) then
      var part := if fraction == [] then 0.0 else ParseDigits(fraction) as real / Pow10(|fraction|) as real;
      Some(ParseDigits(whole) as real + part)
    else None
  }

  /** `float(s)` on text: optional surrounding whitespace and sign, then a plain decimal
      (exponents, `inf`, `nan` and underscores are not modelled). */
  function ParseFloat(s: string): Option<real> {
    var t := Strip(s);
    if t != [] && (t[0] == '+' || t[0] == '-') then
      match ParseUnsignedReal(t[1..])
      case Some(v) => Some(if t[0] == '-' then -v else v)
      case None => None
    else ParseUnsignedReal(t)
  }

  /** Digits with no spaces around them survive `strip()`. */
  lemma StripDigits(s: string)
    requires s != [] && AllDigits(s)
    ensures Strip(s) == s
  {
    assert !IsSpace(s[0]) && !IsSpace(s[|s| - 1]);
  }

  /** A plain string of digits reads as the same number as a float as it does as an int. */
  lemma UnsignedRealOfDigits(t: string)
    requires t != [] && AllDigits(t)
    ensures ParseUnsignedReal(t) == Some(ParseDigits(t) as real)
  {
    assert IndexOf(t, '.') == |t|;
    assert t[..|t|] == t;
  }

  /** `float(str(n)) == n` */
  lemma FloatOfDecimal(n: nat)
    ensures ParseFloat(Decimal(n)) == Some(n as real)
  {
    var s := Decimal(n);
    StripDigits(s);
    ParseDecimal(n);
    assert IsDigit(s[0]);
    UnsignedRealOfDigits(s);
  }
}
