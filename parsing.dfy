/**
 * The library text routines the chess and configuration code leans on, as
 * functions on strings: the C character classes, whitespace tokenisation
 * (`istringstream >> std::string`), delimiter splitting (`std::getline` with a
 * delimiter), substring search (`std::string::find`) and the numeric
 * conversions `std::stoi`, `std::stoul` and `std::stod`, which parse the
 * longest numeric prefix after leading whitespace and throw when there is none
 * or when the value does not fit.
 */
module Parsing {
  import opened Wrappers

  /** `std::isspace` in the C locale. */
  predicate IsSpace(c: char)
  {
    c == ' ' || c == '\t' || c == '\n' || c == '\r' || c == '\U{000B}' || c == '\U{000C}'
  }

  /** `std::isdigit`. */
  predicate IsDigit(c: char)
  {
    '0' <= c <= '9'
  }

  function DigitValue(c: char): (d: nat)
    requires IsDigit(c)
    ensures d <= 9
  {
    (c as int) - ('0' as int)
  }

  // ---------------------------------------------------------------------------
  // Search and splitting
  // ---------------------------------------------------------------------------

  /** `s` starts with `p`. */
  predicate StartsWith(s: string, p: string)
  {
    |p| <= |s| && s[..|p|] == p
  }

  /** `s.find(sub) != npos`, written as a scan over the start positions. */
  predicate Contains(s: string, sub: string)
    decreases |s|
  {
    StartsWith(s, sub) || (|s| > 0 && Contains(s[1..], sub))
  }

  /** A string contains whatever it is built around. */
  lemma {:induction false} ContainsInfix(a: string, sub: string, b: string)
    ensures Contains(a + sub + b, sub)
    decreases |a|
  {
    if |a| == 0 {
      assert a + sub + b == sub + b;
      assert (sub + b)[..|sub|] == sub;
    } else {
      assert (a + sub + b)[1..] == a[1..] + sub + b;
      ContainsInfix(a[1..], sub, b);
    }
  }

  /** A string that lacks some character of `sub` does not contain it. */
  lemma {:induction false} NoContains(s: string, sub: string, j: nat)
    requires j < |sub| && sub[j] !in s
    ensures !Contains(s, sub)
    decreases |s|
  {
    if |s| > 0 {
      assert forall x :: x in s[1..] ==> x in s;
      NoContains(s[1..], sub, j);
    }
  }

  /** Position of the first `d` in `s`, or |s| when there is none (`find`). */
  function IndexOf(s: string, d: char): (n: nat)
    ensures n <= |s|
    ensures forall i :: 0 <= i < n ==> s[i] != d
    ensures n < |s| ==> s[n] == d
    decreases |s|
  {
    if |s| == 0 then 0 else if s[0] == d then 0 else 1 + IndexOf(s[1..], d)
  }

  /**
   * The pieces `std::getline(ss, piece, d)` yields one after the other: the
   * text up to each `d`; no piece after a final `d`, and none for "".
   */
  function SplitOn(s: string, d: char): (r: seq<string>)
    ensures forall p :: p in r ==> d !in p
    ensures s == [] <==> r == []
    decreases |s|
  {
    if s == [] then []
    else
      var n := IndexOf(s, d);
      if n == |s| then [s] else [s[..n]] + SplitOn(s[n + 1..], d)
  }

  /** The pieces joined back with `d` between them. */
  function Join(ps: seq<string>, d: char): string
  {
    if |ps| == 0 then [] else if |ps| == 1 then ps[0] else ps[0] + [d] + Join(ps[1..], d)
  }

  /** Splitting loses nothing except a final delimiter. */
  lemma {:induction false} JoinSplit(s: string, d: char)
    requires s == [] || s[|s| - 1] != d
    ensures Join(SplitOn(s, d), d) == s
    decreases |s|
  {
    if s != [] {
      var n := IndexOf(s, d);
      if n < |s| {
        var rest := s[n + 1..];
        assert rest != [] && rest[|rest| - 1] == s[|s| - 1];
        JoinSplit(rest, d);
        var tail := SplitOn(rest, d);
        var ps := [s[..n]] + tail;
        assert SplitOn(s, d) == ps;
        assert |tail| > 0 && ps[0] == s[..n] && ps[1..] == tail;
        assert Join(ps, d) == s[..n] + [d] + Join(tail, d);
        assert s == s[..n] + [d] + rest;
      }
    }
  }

  /** IndexOf finds the first occurrence. */
  lemma {:induction false} IndexOfFirst(s: string, d: char, k: nat)
    requires k <= |s| && (forall i :: 0 <= i < k ==> s[i] != d) && (k < |s| ==> s[k] == d)
    ensures IndexOf(s, d) == k
    decreases k
  {
    if k > 0 {
      IndexOfFirst(s[1..], d, k - 1);
    }
  }

  /** A join starts with its first piece and ends with its last. */
  lemma {:induction false} JoinEnds(ps: seq<string>, d: char)
    requires |ps| > 0
    ensures |Join(ps, d)| >= |ps[0]| && Join(ps, d)[..|ps[0]|] == ps[0]
    ensures |Join(ps, d)| >= |ps[|ps| - 1]| && Join(ps, d)[|Join(ps, d)| - |ps[|ps| - 1]|..] == ps[|ps| - 1]
    decreases |ps|
  {
    if |ps| > 1 {
      JoinEnds(ps[1..], d);
      var rest := Join(ps[1..], d);
      assert Join(ps, d) == ps[0] + [d] + rest;
      var last := ps[|ps| - 1];
      assert ps[1..][|ps[1..]| - 1] == last;
      assert rest[|rest| - |last|..] == last;
      assert Join(ps, d)[|Join(ps, d)| - |last|..] == rest[|rest| - |last|..];
    }
  }

  /** A delimiter-free piece followed by the delimiter splits off as the first piece. */
  lemma SplitCons(p: string, d: char, rest: string)
    requires d !in p
    ensures SplitOn(p + [d] + rest, d) == [p] + SplitOn(rest, d)
  {
    var s := p + [d] + rest;
    IndexOfFirst(s, d, |p|);
    assert s[..|p|] == p;
    assert s[|p| + 1..] == rest;
  }

  /** Pieces free of the delimiter, the last one non-empty, are what splitting their join gives back. */
  lemma {:induction false} SplitOfJoin(ps: seq<string>, d: char)
    requires |ps| > 0 && ps[|ps| - 1] != []
    requires forall p :: p in ps ==> d !in p
    ensures SplitOn(Join(ps, d), d) == ps
    decreases |ps|
  {
    assert ps[0] in ps;
    if |ps| == 1 {
      IndexOfFirst(ps[0], d, |ps[0]|);
    } else {
      var tail := ps[1..];
      assert forall p :: p in tail ==> p in ps;
      SplitOfJoin(tail, d);
      SplitCons(ps[0], d, Join(tail, d));
      assert ps == [ps[0]] + tail;
    }
  }

  /** Length of the run of non-space characters at the front of `s`. */
  function WordLen(s: string): (n: nat)
    ensures n <= |s|
    ensures forall i :: 0 <= i < n ==> !IsSpace(s[i])
    ensures n < |s| ==> IsSpace(s[n])
    decreases |s|
  {
    if |s| == 0 || IsSpace(s[0]) then 0 else 1 + WordLen(s[1..])
  }

  /** A non-empty run of non-space characters. */
  predicate Word(w: string)
  {
    |w| > 0 && forall i :: 0 <= i < |w| ==> !IsSpace(w[i])
  }

  /** The words `iss >> word` extracts until the stream is exhausted. */
  function Tokens(s: string): (r: seq<string>)
    ensures forall w :: w in r ==> Word(w)
    decreases |s|
  {
    if |s| == 0 then []
    else if IsSpace(s[0]) then Tokens(s[1..])
    else
      var n := WordLen(s);
      [s[..n]] + Tokens(s[n..])
  }

  /** Words are kept in order: a string of words joined by single spaces splits back into them. */
  lemma {:induction false} TokensOfJoin(ws: seq<string>)
    requires forall w :: w in ws ==> Word(w)
    ensures Tokens(Join(ws, ' ')) == ws
    decreases |ws|
  {
    if |ws| == 1 {
      WordAlone(ws[0], []);
      assert ws[0] + [] == ws[0];
    } else if |ws| > 1 {
      var rest := Join(ws[1..], ' ');
      TokensOfJoin(ws[1..]);
      WordAlone(ws[0], [' '] + rest);
      assert Join(ws, ' ') == ws[0] + ([' '] + rest);
      assert ([' '] + rest)[1..] == rest;
    }
  }

  /** A word followed by nothing or by a space is the first token. */
  lemma {:induction false} WordAlone(w: string, t: string)
    requires Word(w)
    requires t == [] || IsSpace(t[0])
    ensures Tokens(w + t) == [w] + Tokens(t)
  {
    WordLenOf(w, t);
    assert (w + t)[..|w|] == w;
    assert (w + t)[|w|..] == t;
  }

  lemma {:induction false} WordLenOf(w: string, t: string)
    requires forall i :: 0 <= i < |w| ==> !IsSpace(w[i])
    requires t == [] || IsSpace(t[0])
    ensures WordLen(w + t) == |w|
    decreases |w|
  {
    if |w| > 0 {
      assert (w + t)[1..] == w[1..] + t;
      WordLenOf(w[1..], t);
    }
  }

  /** `s` with its leading whitespace removed. */
  function TrimStart(s: string): (r: string)
    ensures |r| <= |s|
    ensures r == [] || !IsSpace(r[0])
    ensures forall i :: 0 <= i < |s| - |r| ==> IsSpace(s[i])
    decreases |s|
  {
    if |s| > 0 && IsSpace(s[0]) then TrimStart(s[1..]) else s
  }

  /** What TrimStart keeps is a suffix of its input. */
  lemma {:induction false} TrimStartSuffix(s: string)
    ensures TrimStart(s) == s[|s| - |TrimStart(s)|..]
    decreases |s|
  {
    if |s| > 0 && IsSpace(s[0]) {
      TrimStartSuffix(s[1..]);
    }
  }

  /** `s` with its trailing whitespace removed. */
  function TrimEnd(s: string): (r: string)
    ensures |r| <= |s|
    ensures r == [] || !IsSpace(r[|r| - 1])
    ensures forall i :: |r| <= i < |s| ==> IsSpace(s[i])
    decreases |s|
  {
    if |s| > 0 && IsSpace(s[|s| - 1]) then TrimEnd(s[..|s| - 1]) else s
  }

  // ---------------------------------------------------------------------------
  // Numbers
  // ---------------------------------------------------------------------------

  /** Length of the run of digits at the front of `s`. */
  function DigitRun(s: string): (n: nat)
    ensures n <= |s|
    ensures forall i :: 0 <= i < n ==> IsDigit(s[i])
    ensures n < |s| ==> !IsDigit(s[n])
    decreases |s|
  {
    if |s| == 0 || !IsDigit(s[0]) then 0 else 1 + DigitRun(s[1..])
  }

  /** The decimal value of a string of digits. */
  function DigitsValue(d: string): nat
    requires forall i :: 0 <= i < |d| ==> IsDigit(d[i])
    decreases |d|
  {
    if |d| == 0 then 0 else DigitsValue(d[..|d| - 1]) * 10 + DigitValue(d[|d| - 1])
  }

  /**
   * What `strtol`, `strtoul` and friends read: leading whitespace, one optional
   * sign, then the longest run of digits.  None when there is no digit.
   */
  function Integer(s: string): (r: Option<(bool, nat)>)
  {
    var t := TrimStart(s);
    if |t| > 0 && t[0] == '-' then WithSign(true, Digits(t[1..]))
    else if |t| > 0 && t[0] == '+' then WithSign(false, Digits(t[1..]))
    else WithSign(false, Digits(t))
  }

  /** The value of the longest run of digits at the front, None when there is none. */
  function Digits(u: string): (r: Option<nat>)
  {
    var n := DigitRun(u);
    if n == 0 then None else Some(DigitsValue(u[..n]))
  }

  /** A magnitude that was read, with its sign. */
  function WithSign(neg: bool, m: Option<nat>): (r: Option<(bool, nat)>)
  {
    match m
    case None => None
    case Some(v) => Some((neg, v))
  }

  /** The value of a sign and a magnitude. */
  function Signed(p: (bool, nat)): int
  {
    if p.0 then -(p.1 as int) else p.1 as int
  }

  const IntMin: int := -0x8000_0000
  const IntMax: int := 0x7FFF_FFFF
  const ULongLimit: nat := 0x1_0000_0000_0000_0000

  /** `std::stoi`: None stands for the invalid_argument or out_of_range exception. */
  function StoI(s: string): (r: Option<int>)
    ensures r.Some? ==> IntMin <= r.value <= IntMax
    ensures r.Some? <==> Integer(s).Some? && IntMin <= Signed(Integer(s).value) <= IntMax
  {
    match Integer(s)
    case None => None
    case Some(p) =>
      var v := Signed(p);
      if IntMin <= v <= IntMax then Some(v) else None
  }

  /**
   * `std::stoul` on a 64-bit unsigned long: a magnitude that does not fit is
   * out_of_range; a leading '-' negates the magnitude modulo 2^64.
   */
  function StoUL(s: string): (r: Option<nat>)
    ensures r.Some? ==> r.value < ULongLimit
    ensures r.Some? <==> Integer(s).Some? && Integer(s).value.1 < ULongLimit
  {
    match Integer(s)
    case None => None
    case Some((neg, m)) =>
      if m >= ULongLimit then None
      else if neg then Some((ULongLimit - m) % ULongLimit)
      else Some(m)
  }

  /** The decimal rendering of a natural number (`std::to_string`). */
  function Decimal(n: nat): (d: string)
    ensures |d| > 0 && forall i :: 0 <= i < |d| ==> IsDigit(d[i])
    decreases n
  {
    var last := [('0' as int + n % 10) as char];
    if n < 10 then last else Decimal(n / 10) + last
  }

  /** Reading back a rendering gives the number. */
  lemma {:induction false} DigitsValueDecimal(n: nat)
    ensures DigitsValue(Decimal(n)) == n
    decreases n
  {
    var d := Decimal(n);
    if n >= 10 {
      DigitsValueDecimal(n / 10);
      assert d[..|d| - 1] == Decimal(n / 10);
    }
  }

  lemma {:induction false} DigitRunAll(d: string, t: string)
    requires forall i :: 0 <= i < |d| ==> IsDigit(d[i])
    requires t == [] || !IsDigit(t[0])
    ensures DigitRun(d + t) == |d|
    decreases |d|
  {
    if |d| > 0 {
      assert (d + t)[1..] == d[1..] + t;
      DigitRunAll(d[1..], t);
    }
  }

  /**
   * The integer conversions read a leading number and ignore what follows it:
   * the rendering of n, followed by anything that does not start with a digit,
   * reads as n.
   */
  lemma IntegerPrefix(n: nat, t: string)
    requires t == [] || !IsDigit(t[0])
    ensures Integer(Decimal(n) + t) == Some((false, n))
  {
    var d := Decimal(n);
    assert !IsSpace(d[0]) && d[0] != '-' && d[0] != '+';
    assert TrimStart(d + t) == d + t;
    DigitRunAll(d, t);
    assert (d + t)[..|d|] == d;
    DigitsValueDecimal(n);
  }

  /** `std::stoi` round-trips every non-negative int, with any non-digit suffix. */
  lemma StoIDecimal(n: nat, t: string)
    requires n <= IntMax && (t == [] || !IsDigit(t[0]))
    ensures StoI(Decimal(n) + t) == Some(n)
  {
    IntegerPrefix(n, t);
  }

  /** `std::stoul` round-trips every value below 2^64, with any non-digit suffix. */
  lemma StoULDecimal(n: nat, t: string)
    requires n < ULongLimit && (t == [] || !IsDigit(t[0]))
    ensures StoUL(Decimal(n) + t) == Some(n)
  {
    IntegerPrefix(n, t);
  }

  /** A text without any digit is not a number to either integer conversion. */
  lemma NoDigitNoNumber(s: string)
    requires forall i :: 0 <= i < |s| ==> !IsDigit(s[i])
    ensures StoI(s) == None && StoUL(s) == None
  {
    var t := TrimStart(s);
    var u := if |t| > 0 && (t[0] == '-' || t[0] == '+') then t[1..] else t;
    TrimStartSuffix(s);
    if |u| > 0 {
      assert u[0] == s[|s| - |u|];
    }
  }

  /** m * 10^e for an integer exponent, one factor of ten at a time. */
  function Scale(m: real, e: int): real
    decreases if e < 0 then -e else e
  {
    if e == 0 then m else if e > 0 then 10.0 * Scale(m, e - 1) else Scale(m, e + 1) / 10.0
  }

  /**
   * `std::stod` on decimal text: whitespace, a sign, digits with an optional
   * fraction (at least one digit in all), and an exponent when `e`/`E` is
   * followed by an optional sign and at least one digit.  The value is the exact
   * real the text denotes.  Overflow to `out_of_range`, and the `inf`, `nan`
   * and hexadecimal forms, are not part of this reading.
   */
  function StoD(s: string): (r: Option<real>)
  {
    SignedValue(TrimStart(s))
  }

  /** An optional sign, then the unsigned number. */
  function SignedValue(t: string): (r: Option<real>)
  {
    if |t| > 0 && t[0] == '-' then Negate(Unsigned(t[1..]))
    else if |t| > 0 && t[0] == '+' then Unsigned(t[1..])
    else Unsigned(t)
  }

  /** The negation of a number that was read. */
  function Negate(x: Option<real>): (r: Option<real>)
  {
    match x
    case None => None
    case Some(m) => Some(-m)
  }

  /** The number after the sign: digits, an optional fraction, an optional exponent. */
  function Unsigned(u: string): (r: Option<real>)
  {
    var n := DigitRun(u);
    var hasDot := n < |u| && u[n] == '.';
    var f := if hasDot then DigitRun(u[n + 1..]) else 0;
    if n == 0 && f == 0 then None
    else
      var fraction := if hasDot then Scale(DigitsValue(u[n + 1..][..f]) as real, -f) else 0.0;
      var rest := if hasDot then u[n + 1 + f..] else u[n..];
      Some(Scale(DigitsValue(u[..n]) as real + fraction, Exponent(rest)))
  }

  /** The exponent part `[eE][+-]digits` at the front of `s`, or 0 when it is not complete. */
  function Exponent(s: string): int
  {
    if |s| == 0 || (s[0] != 'e' && s[0] != 'E') then 0
    else
      var t := s[1..];
      var neg := |t| > 0 && t[0] == '-';
      var u := if |t| > 0 && (t[0] == '-' || t[0] == '+') then t[1..] else t;
      var n := DigitRun(u);
      if n == 0 then 0
      else if neg then -(DigitsValue(u[..n]) as int) else DigitsValue(u[..n])
  }

  /** `std::stod` reads every rendered natural number exactly, and its negation. */
  lemma StoDDecimal(n: nat)
    ensures StoD(Decimal(n)) == Some(n as real)
    ensures StoD(['-'] + Decimal(n)) == Some(-(n as real))
  {
    var d := Decimal(n);
    StoDDigits(d, n);
    StoDMinus(d);
  }

  /** The rendering of n, as unsigned number text, is n. */
  lemma StoDDigits(d: string, n: nat)
    requires d == Decimal(n)
    ensures TrimStart(d) == d && d[0] != '-' && d[0] != '+'
    ensures Unsigned(d) == Some(n as real)
  {
    assert !IsSpace(d[0]) && d[0] != '-' && d[0] != '+';
    DigitRunAll(d, []);
    assert d + [] == d;
    DigitsValueDecimal(n);
    assert d[..|d|] == d;
  }

  /** With no blank or sign in front, `std::stod` reads the unsigned number, and a minus sign in front negates it. */
  lemma StoDMinus(d: string)
    requires TrimStart(d) == d && (|d| == 0 || (d[0] != '-' && d[0] != '+'))
    ensures StoD(d) == Unsigned(d)
    ensures StoD(['-'] + d) == Negate(Unsigned(d))
  {
    var m := ['-'] + d;
    assert !IsSpace(m[0]);
    assert TrimStart(m) == m;
    assert m[1..] == d;
  }
}
