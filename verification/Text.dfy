/** Strings: the split loop of include/util.h, decimal printing (std::to_string)
    and decimal parsing (std::stoi). A `char` stands for one byte. */
module Text {
  import opened Wrappers

  const INT_MAX := 0x7fff_ffff
  const INT_MIN := -0x8000_0000

  // ----- splitting and joining -----

  /** The pieces of `s` between occurrences of `sep`. */
  function Split(s: string, sep: char): (v: seq<string>)
    ensures |v| >= 1
  {
    if s == [] then [""]
    else if s[0] == sep then [""] + Split(s[1..], sep)
    else
      var v := Split(s[1..], sep);
      [[s[0]] + v[0]] + v[1..]
  }

  /** The pieces of `v` with one `sep` between neighbours. */
  function Join(v: seq<string>, sep: char): string
    requires |v| >= 1
  {
    if |v| == 1 then v[0] else v[0] + [sep] + Join(v[1..], sep)
  }

  /** Every character of a piece is a character of `s` other than `sep`. */
  lemma {:induction false} SplitPiece(s: string, sep: char, i: nat, c: char)
    requires i < |Split(s, sep)| && c in Split(s, sep)[i]
    ensures c in s && c != sep
  {
    if s != [] {
      var v := Split(s[1..], sep);
      if s[0] == sep {
        assert i > 0;
        SplitPiece(s[1..], sep, i - 1, c);
      } else if i == 0 {
        assert Split(s, sep)[0] == [s[0]] + v[0];
        if c != s[0] {
          SplitPiece(s[1..], sep, 0, c);
        }
      } else {
        SplitPiece(s[1..], sep, i, c);
      }
    }
  }

  /** The pieces are free of `sep`, and of every character that s is free of. */
  lemma SplitPieceFree(s: string, sep: char, i: nat, c: char)
    requires i < |Split(s, sep)|
    requires c == sep || c !in s
    ensures c !in Split(s, sep)[i]
  {
    if c in Split(s, sep)[i] {
      SplitPiece(s, sep, i, c);
    }
  }

  /** Joining undoes splitting, on every string. */
  lemma {:induction false} JoinSplit(s: string, sep: char)
    ensures Join(Split(s, sep), sep) == s
  {
    if s != [] {
      JoinSplit(s[1..], sep);
      var v := Split(s[1..], sep);
      if s[0] == sep {
        assert Split(s, sep)[1..] == v;
      } else {
        assert Split(s, sep)[1..] == v[1..];
      }
    }
  }

  lemma {:induction false} SplitFirst(s: string, sep: char, p: nat)
    requires p <= |s| && sep !in s[..p]
    requires p == |s| || s[p] == sep
    ensures p == |s| ==> Split(s, sep) == [s]
    ensures p < |s| ==> Split(s, sep) == [s[..p]] + Split(s[p + 1..], sep)
  {
    if p > 0 {
      assert s[..p][0] == s[0];
      assert s[1..][..p - 1] == s[..p][1..];
      SplitFirst(s[1..], sep, p - 1);
      if p < |s| {
        assert s[1..][p - 1 + 1..] == s[p + 1..];
        assert s[..p] == [s[0]] + s[1..][..p - 1];
      } else {
        assert Split(s[1..], sep) == [s[1..]];
        assert [s[0]] + s[1..] == s;
        assert Split(s, sep) == [s];
      }
    }
  }

  lemma SplitRest(s: string, sep: char, pos: nat, p: nat)
    requires pos <= p <= |s| && sep !in s[pos..p]
    requires p == |s| || s[p] == sep
    ensures Split(s[pos..], sep) == [s[pos..p]] + (if p < |s| then Split(s[p + 1..], sep) else [])
  {
    var t := s[pos..];
    assert t[..p - pos] == s[pos..p];
    if p < |s| {
      assert t[p - pos + 1..] == s[p + 1..];
    } else {
      assert s[pos..p] == t;
    }
    SplitFirst(t, sep, p - pos);
  }

  /** Splitting undoes joining exactly when no piece holds the separator. */
  lemma {:induction false} SplitJoin(v: seq<string>, sep: char)
    requires |v| >= 1
    ensures Split(Join(v, sep), sep) == v <==> forall i | 0 <= i < |v| :: sep !in v[i]
  {
    if forall i | 0 <= i < |v| :: sep !in v[i] {
      SplitJoinFree(v, sep);
    } else {
      var i :| 0 <= i < |v| && sep in v[i];
      if Split(Join(v, sep), sep) == v {
        SplitPiece(Join(v, sep), sep, i, sep);
      }
    }
  }

  lemma {:induction false} SplitJoinFree(v: seq<string>, sep: char)
    requires |v| >= 1
    requires forall i | 0 <= i < |v| :: sep !in v[i]
    ensures Split(Join(v, sep), sep) == v
  {
    var s, p := Join(v, sep), |v[0]|;
    assert s[..p] == v[0];
    SplitFirst(s, sep, p);
    if |v| > 1 {
      assert s[p + 1..] == Join(v[1..], sep);
      SplitJoinFree(v[1..], sep);
    }
  }

  lemma {:induction false} JoinSnoc(v: seq<string>, x: string, sep: char)
    requires |v| >= 1
    ensures Join(v + [x], sep) == Join(v, sep) + [sep] + x
  {
    if |v| == 1 {
      assert (v + [x])[1..] == [x];
    } else {
      assert (v + [x])[1..] == v[1..] + [x];
      JoinSnoc(v[1..], x, sep);
    }
  }

  /** Between two joins there is one separator, too. */
  lemma {:induction false} JoinAppend(a: seq<string>, b: seq<string>, sep: char)
    requires |a| >= 1 && |b| >= 1
    ensures Join(a + b, sep) == Join(a, sep) + [sep] + Join(b, sep)
  {
    if |a| == 1 {
      assert (a + b)[1..] == b;
    } else {
      assert (a + b)[1..] == a[1..] + b;
      JoinAppend(a[1..], b, sep);
      assert a[0] + [sep] + (Join(a[1..], sep) + [sep] + Join(b, sep)) ==
             a[0] + [sep] + Join(a[1..], sep) + [sep] + Join(b, sep);
    }
  }

  lemma {:induction false} JoinChars(v: seq<string>, sep: char, c: char)
    requires |v| >= 1 && c != sep
    requires forall i | 0 <= i < |v| :: c !in v[i]
    ensures c !in Join(v, sep)
  {
    if |v| > 1 {
      JoinChars(v[1..], sep, c);
    }
  }

  /** std::string::find(sep, pos): the first occurrence at or after `pos`. */
  method Find(s: string, sep: char, pos: nat) returns (r: Option<nat>)
    requires pos <= |s|
    ensures r.None? ==> sep !in s[pos..]
    ensures r.Some? ==> pos <= r.value < |s| && s[r.value] == sep && sep !in s[pos..r.value]
  {
    var i := pos;
    while i < |s|
      invariant pos <= i <= |s|
      invariant sep !in s[pos..i]
    {
      if s[i] == sep {
        return Some(i);
      }
      i := i + 1;
    }
    return None;
  }

  /** The body of the loop of Util::split: the token at pos, and where the next one starts. */
  method NextToken(s: string, sep: char, pos: nat) returns (tok: string, next: Option<nat>)
    requires pos <= |s|
    ensures next.Some? ==> pos < next.value <= |s|
    ensures Split(s[pos..], sep) == [tok] + if next.Some? then Split(s[next.value..], sep) else []
  {
    var sepPos := Find(s, sep, pos);
    if sepPos.None? {
      SplitRest(s, sep, pos, |s|);
      tok := s[pos..];
      next := None;
      assert s[pos..|s|] == tok;
    } else {
      SplitRest(s, sep, pos, sepPos.value);
      tok := s[pos..sepPos.value];
      next := Some(sepPos.value + 1);
    }
  }

  /** Util::split. */
  method SplitLoop(s: string, sep: char) returns (v: seq<string>)
    ensures v == Split(s, sep)
  {
    v := [];
    var pos, done := 0, false;
    ghost var rest := Split(s, sep);
    assert s[0..] == s;
    while !done
      invariant pos <= |s| && Split(s, sep) == v + rest
      invariant rest == if done then [] else Split(s[pos..], sep)
      decreases !done, |s| - pos
    {
      var tok, next := NextToken(s, sep, pos);
      ghost var rest' := if next.Some? then Split(s[next.value..], sep) else [];
      AppendFirst(v, tok, rest');
      v := v + [tok];
      rest := rest';
      if next.Some? {
        pos := next.value;
      } else {
        done := true;
      }
    }
  }

  lemma AppendFirst<T>(a: seq<T>, x: T, b: seq<T>)
    ensures a + ([x] + b) == (a + [x]) + b
  {
  }

  // ----- decimal integers -----

  predicate IsDigit(c: char) {
    '0' <= c <= '9'
  }

  predicate AllDigits(s: string) {
    forall i | 0 <= i < |s| :: IsDigit(s[i])
  }

  function DigitChar(d: nat): (c: char)
    requires d < 10
    ensures IsDigit(c) && DigitValue(c) == d
  {
    ('0' as int + d) as char
  }

  function DigitValue(c: char): (d: nat)
    requires IsDigit(c)
    ensures d < 10
  {
    c as int - '0' as int
  }

  /** The decimal digits of n, without leading zeros. */
  function Digits(n: nat): (s: string)
    ensures |s| >= 1 && AllDigits(s)
    ensures s[0] == '0' <==> n == 0
  {
    if n < 10 then [DigitChar(n)] else Digits(n / 10) + [DigitChar(n % 10)]
  }

  /** The number that a digit string denotes. */
  function Value(s: string): nat
    requires AllDigits(s)
  {
    if s == [] then 0 else Value(s[..|s| - 1]) * 10 + DigitValue(s[|s| - 1])
  }

  lemma {:induction false} ValueOfDigits(n: nat)
    ensures Value(Digits(n)) == n
  {
    if n >= 10 {
      ValueOfDigits(n / 10);
      assert Digits(n)[..|Digits(n)| - 1] == Digits(n / 10);
    }
  }

  lemma {:induction false} ValueLeadingZero(s: string)
    requires AllDigits(s)
    ensures Value(['0'] + s) == Value(s)
  {
    if s != [] {
      var t := ['0'] + s;
      assert t[..|t| - 1] == ['0'] + s[..|s| - 1];
      ValueLeadingZero(s[..|s| - 1]);
    }
  }

  /** A digit string without a leading zero is the canonical text of its value. */
  lemma {:induction false} DigitsOfValue(s: string)
    requires AllDigits(s) && s != [] && s[0] != '0'
    ensures Digits(Value(s)) == s
  {
    var init := s[..|s| - 1];
    if init == [] {
      assert Value(s) == DigitValue(s[0]);
      assert s == [s[0]];
    } else {
      DigitsOfValue(init);
      var v := Value(init);
      assert v != 0;
      assert Value(s) == v * 10 + DigitValue(s[|s| - 1]);
      assert Value(s) / 10 == v && Value(s) % 10 == DigitValue(s[|s| - 1]);
      assert s == init + [s[|s| - 1]];
    }
  }

  /** The number of decimal digits grows with the number. */
  lemma {:induction false} DigitsMonotone(m: nat, n: nat)
    requires m <= n
    ensures |Digits(m)| <= |Digits(n)|
  {
    if n >= 10 && m >= 10 {
      DigitsMonotone(m / 10, n / 10);
    }
  }

  // ----- how many digits -----

  function Pow10(w: nat): (p: nat)
    ensures p >= 1
  {
    if w == 0 then 1 else 10 * Pow10(w - 1)
  }

  lemma {:induction false} DigitsExactly(n: nat, w: nat)
    requires 1 <= w
    ensures |Digits(n)| <= w <==> n < Pow10(w)
  {
    if n >= 10 {
      assert |Digits(n)| == |Digits(n / 10)| + 1;
      if w == 1 {
        assert Pow10(1) == 10;
      } else {
        DigitsExactly(n / 10, w - 1);
        DivByTen(n, Pow10(w - 1));
      }
    }
  }

  lemma DivByTen(n: nat, p: nat)
    ensures n / 10 < p <==> n < 10 * p
  {
  }

  lemma IdDigits(k: nat)
    ensures k <= INT_MAX ==> 1 <= |Digits(k)| <= 10
    ensures |Digits(INT_MAX)| == 10
  {
    assert Pow10(10) == 10_000_000_000 && Pow10(9) == 1_000_000_000;
    if k <= INT_MAX {
      DigitsExactly(k, 10);
    }
    DigitsExactly(INT_MAX, 10);
    DigitsExactly(INT_MAX, 9);
  }

  /** std::to_string(int). */
  function ToString(n: int): (s: string)
    ensures n >= 0 ==> s == Digits(n)
  {
    if n < 0 then ['-'] + Digits(-n) else Digits(n)
  }

  /** t is the decimal text of n: without leading zeros, and with a minus if n is negative. */
  ghost predicate DecimalText(t: string, n: int) {
    if n < 0 then t != "" && t[0] == '-' && DigitText(t[1..], -n) else DigitText(t, n)
  }

  ghost predicate DigitText(t: string, n: nat) {
    && t != "" && (t[0] == '0' ==> |t| == 1)
    && (forall i | 0 <= i < |t| :: '0' <= t[i] <= '9')
    && AllDigits(t) && Value(t) == n
  }

  /** A digit string denotes what it should in the positional system. */
  lemma {:induction false} ValueIsPositional(a: string, b: string)
    requires AllDigits(a) && AllDigits(b)
    ensures AllDigits(a + b) && Value(a + b) == Value(a) * Pow10(|b|) + Value(b)
  {
    if b == [] {
      assert a + b == a;
    } else {
      var init, last := b[..|b| - 1], b[|b| - 1];
      ValueIsPositional(a, init);
      assert a + b == (a + init) + [last];
      ValueSnoc(a + init, last);
      ValueSnoc(init, last);
      assert b == init + [last] && Pow10(|b|) == 10 * Pow10(|init|);
      TimesTen(Value(a), Pow10(|init|), Value(init));
    }
  }

  lemma ValueSnoc(s: string, c: char)
    requires AllDigits(s) && IsDigit(c)
    ensures AllDigits(s + [c]) && Value(s + [c]) == Value(s) * 10 + DigitValue(c)
  {
    assert (s + [c])[..|s|] == s;
  }

  lemma ValueOfDigit(c: char)
    requires '0' <= c <= '9'
    ensures AllDigits([c]) && Value([c]) == c as int - '0' as int
  {
    assert [c][..0] == "";
  }

  lemma TimesTen(x: nat, p: nat, y: nat)
    ensures (x * p + y) * 10 == x * (10 * p) + y * 10
  {
  }

  lemma DigitTextExactly(t: string, n: nat)
    ensures t == Digits(n) <==> DigitText(t, n)
  {
    ValueOfDigits(n);
    OneZero(n);
    if DigitText(t, n) {
      if t[0] == '0' {
        assert t == ['0'];
        ValueOfDigit('0');
      } else {
        DigitsOfValue(t);
      }
    }
  }

  lemma OneZero(n: nat)
    ensures Digits(n)[0] == '0' ==> |Digits(n)| == 1
  {
  }

  /** std::to_string prints exactly that text. */
  lemma ToStringExactly(t: string, n: int)
    ensures t == ToString(n) <==> DecimalText(t, n)
  {
    if n >= 0 {
      DigitTextExactly(t, n);
    } else if t != "" {
      DigitTextExactly(t[1..], -n);
      assert t == [t[0]] + t[1..];
    }
  }

  lemma ToStringFree(n: int, c: char)
    requires !IsDigit(c) && c != '-'
    ensures c !in ToString(n)
  {
    var d := Digits(if n < 0 then -n else n);
    assert forall i | 0 <= i < |d| :: d[i] != c;
  }

  /** isspace in the "C" locale. */
  predicate IsSpace(c: char) {
    c in {' ', '\t', '\n', '\U{0B}', '\U{0C}', '\r'}
  }

  /** The first index at or after i where the characters stop being spaces. */
  function SkipSpaces(s: string, i: nat): (j: nat)
    requires i <= |s|
    ensures i <= j <= |s|
    ensures forall k | i <= k < j :: IsSpace(s[k])
    ensures j < |s| ==> !IsSpace(s[j])
    decreases |s| - i
  {
    if i < |s| && IsSpace(s[i]) then SkipSpaces(s, i + 1) else i
  }

  /** The first index at or after i where the characters stop being digits. */
  function SkipDigits(s: string, i: nat): (j: nat)
    requires i <= |s|
    ensures i <= j <= |s|
    ensures forall k | i <= k < j :: IsDigit(s[k])
    ensures j < |s| ==> !IsDigit(s[j])
    decreases |s| - i
  {
    if i < |s| && IsDigit(s[i]) then SkipDigits(s, i + 1) else i
  }

  /** std::stoi(s, &pos, 10): the number read and the index just after it. None
      stands for std::invalid_argument and std::out_of_range. */
  function Stoi(s: string): (r: Option<(int, nat)>)
    ensures r.Some? ==> INT_MIN <= r.value.0 <= INT_MAX && 0 < r.value.1 <= |s|
  {
    var i := SkipSpaces(s, 0);
    var j := if i < |s| && (s[i] == '+' || s[i] == '-') then i + 1 else i;
    var k := SkipDigits(s, j);
    if k == j then None
    else
      var magnitude: int := Value(s[j..k]);
      var number: int := if s[i] == '-' then -magnitude else magnitude;
      if INT_MIN <= number <= INT_MAX then Some((number, k)) else None
  }

  /** parse_positive_int. */
  function ParsePositiveInt(s: string): Result<int> {
    match Stoi(s)
    case None => Err(InvalidMessage)
    case Some((number, pos)) =>
      if pos != |s| || number <= 0 then Err(InvalidMessage) else Ok(number)
  }

  /** s is: spaces, then a plus sign or nothing, then the digits of n. */
  ghost predicate PositiveIntText(s: string, n: int) {
    exists i: nat, j: nat :: PositiveIntParts(s, n, i, j)
  }

  ghost predicate PositiveIntParts(s: string, n: int, i: nat, j: nat) {
    && i <= j < |s|
    && (forall k | 0 <= k < i :: s[k] in {' ', '\t', '\n', '\U{0B}', '\U{0C}', '\r'})
    && (j == i || (j == i + 1 && s[i] == '+'))
    && (forall k | j <= k < |s| :: '0' <= s[k] <= '9')
    && AllDigits(s[j..]) && Value(s[j..]) == n
    && 1 <= n <= 0x7fff_ffff
  }

  /** The texts that parse_positive_int accepts, and the number it reads. */
  lemma ParsePositiveIntAccepts(s: string, n: int)
    ensures ParsePositiveInt(s) == Ok(n) <==> PositiveIntText(s, n)
  {
    if ParsePositiveInt(s) == Ok(n) {
      PartsOfParsed(s, n);
    }
    if PositiveIntText(s, n) {
      var i: nat, j: nat :| PositiveIntParts(s, n, i, j);
      ParseParts(s, n, i, j);
    }
  }

  lemma PartsOfParsed(s: string, n: int)
    requires ParsePositiveInt(s) == Ok(n)
    ensures PositiveIntText(s, n)
  {
    var i := SkipSpaces(s, 0);
    var j := if i < |s| && (s[i] == '+' || s[i] == '-') then i + 1 else i;
    var k := SkipDigits(s, j);
    StoiParts(s, n, i, j, k);
    ToTheEnd(s, j);
    assert PositiveIntParts(s, n, i, j);
  }

  /** Where stoi reads a positive number. */
  lemma StoiParts(s: string, n: int, i: nat, j: nat, k: nat)
    requires Stoi(s) == Some((n, |s|)) && n > 0
    requires i == SkipSpaces(s, 0) && j == if i < |s| && (s[i] == '+' || s[i] == '-') then i + 1 else i
    requires k == SkipDigits(s, j)
    ensures j < k == |s| && AllDigits(s[j..k]) && Value(s[j..k]) == n && n <= INT_MAX
    ensures s[i] != '-'
  {
    assert AllDigits(s[j..k]);
    ghost var magnitude: int := Value(s[j..k]);
    assert n == if s[i] == '-' then -magnitude else magnitude;
  }

  lemma ToTheEnd(s: string, j: nat)
    requires j <= |s|
    ensures s[j..|s|] == s[j..]
  {
  }

  lemma ParseParts(s: string, n: int, i: nat, j: nat)
    requires PositiveIntParts(s, n, i, j)
    ensures ParsePositiveInt(s) == Ok(n)
  {
    assert !IsSpace(s[i]);
    SkipSpacesTo(s, 0, i);
    SkipDigitsTo(s, j);
    assert s[j..|s|] == s[j..];
  }

  lemma SkipSpacesTo(s: string, from: nat, to: nat)
    requires from <= to < |s| && !IsSpace(s[to])
    requires forall k | from <= k < to :: IsSpace(s[k])
    ensures SkipSpaces(s, from) == to
  {
  }

  lemma SkipDigitsTo(s: string, from: nat)
    requires from <= |s| && forall k | from <= k < |s| :: IsDigit(s[k])
    ensures SkipDigits(s, from) == |s|
  {
  }

  /** Printing then parsing gives the number back exactly for the positive 32-bit numbers. */
  lemma ParsePrinted(n: int)
    ensures ParsePositiveInt(ToString(n)) == Ok(n) <==> 1 <= n <= INT_MAX
    ensures ParsePositiveInt(ToString(n)).Ok? <==> 1 <= n <= INT_MAX
  {
    var s := ToString(n);
    if n >= 0 {
      ValueOfDigits(n);
      assert SkipSpaces(s, 0) == 0;
      assert SkipDigits(s, 0) == |s|;
      assert s[0..|s|] == s;
    } else {
      assert s[0] == '-';
      assert SkipSpaces(s, 0) == 0;
    }
  }
}
