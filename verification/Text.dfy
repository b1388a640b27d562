/** Characters and decimal numerals, as JavaScript's string methods and regular expressions see them. */
module Text {
  import opened Wrappers

  predicate IsDigit(c: char) { '0' <= c <= '9' }

  predicate IsWordChar(c: char) { IsDigit(c) || 'a' <= c <= 'z' || 'A' <= c <= 'Z' || c == '_' }

  /** White space as `\s` and `trim` understand it. */
  predicate IsSpace(c: char) {
    || '\U{9}' <= c <= '\U{D}' || c == ' ' || c == '\U{A0}' || c == '\U{1680}'
    || '\U{2000}' <= c <= '\U{200A}' || c == '\U{2028}' || c == '\U{2029}' || c == '\U{202F}'
    || c == '\U{205F}' || c == '\U{3000}' || c == '\U{FEFF}'
  }

  function LowerChar(c: char): char {
    if 'A' <= c <= 'Z' then ((c as int) + 32) as char else c
  }

  function Lower(s: string): (r: string)
    ensures |r| == |s|
    ensures forall i :: 0 <= i < |s| ==> r[i] == LowerChar(s[i])
  {
    seq(|s|, i requires 0 <= i < |s| => LowerChar(s[i]))
  }

  function TrimStart(s: string): string {
    if s != [] && IsSpace(s[0]) then TrimStart(s[1..]) else s
  }

  function TrimEnd(s: string): string {
    if s != [] && IsSpace(s[|s| - 1]) then TrimEnd(s[..|s| - 1]) else s
  }

  function Trim(s: string): string {
    TrimEnd(TrimStart(s))
  }

  /** `s.replace(/[^...]/g, '')`: the characters that satisfy `keep`, in order. */
  function Keep(s: string, keep: char -> bool): string {
    if s == [] then []
    else if keep(s[0]) then [s[0]] + Keep(s[1..], keep)
    else Keep(s[1..], keep)
  }

  lemma {:induction false} KeepConcat(a: string, b: string, keep: char -> bool)
    ensures Keep(a + b, keep) == Keep(a, keep) + Keep(b, keep)
  {
    if a == [] {
      assert a + b == b;
    } else {
      var rest := a[1..];
      KeepConcat(rest, b, keep);
      assert (a + b)[0] == a[0] && (a + b)[1..] == rest + b;
      assert [a[0]] + (Keep(rest, keep) + Keep(b, keep)) == [a[0]] + Keep(rest, keep) + Keep(b, keep);
    }
  }

  lemma {:induction false} KeptOnly(s: string, keep: char -> bool)
    ensures forall c :: c in Keep(s, keep) ==> keep(c)
  {
    if s != [] { KeptOnly(s[1..], keep); }
  }

  lemma {:induction false} KeepAll(s: string, keep: char -> bool)
    requires forall c :: c in s ==> keep(c)
    ensures Keep(s, keep) == s
  {
    if s != [] { KeepAll(s[1..], keep); }
  }

  lemma {:induction false} KeepNone(s: string, keep: char -> bool)
    requires forall c :: c in s ==> !keep(c)
    ensures Keep(s, keep) == []
  {
    if s != [] { KeepNone(s[1..], keep); }
  }

  ghost predicate AllSpaces(s: string) { forall i :: 0 <= i < |s| ==> IsSpace(s[i]) }

  lemma {:induction false} TrimStartMeans(s: string) returns (a: string)
    ensures AllSpaces(a) && s == a + TrimStart(s)
    ensures TrimStart(s) == "" || !IsSpace(TrimStart(s)[0])
  {
    if s != [] && IsSpace(s[0]) {
      var rest := TrimStartMeans(s[1..]);
      a := [s[0]] + rest;
    } else {
      a := [];
    }
  }

  lemma {:induction false} TrimEndMeans(s: string) returns (b: string)
    ensures AllSpaces(b) && s == TrimEnd(s) + b
    ensures TrimEnd(s) == "" || (!IsSpace(TrimEnd(s)[|TrimEnd(s)| - 1]) && TrimEnd(s)[0] == s[0])
  {
    if s != [] && IsSpace(s[|s| - 1]) {
      var rest := TrimEndMeans(s[..|s| - 1]);
      b := rest + [s[|s| - 1]];
      assert s == s[..|s| - 1] + [s[|s| - 1]];
    } else {
      b := [];
    }
  }

  /** Trimming takes white space off both ends, and all of it. */
  lemma TrimMeans(s: string) returns (a: string, b: string)
    ensures AllSpaces(a) && AllSpaces(b) && s == a + Trim(s) + b
    ensures Trim(s) == "" || (!IsSpace(Trim(s)[0]) && !IsSpace(Trim(s)[|Trim(s)| - 1]))
  {
    a := TrimStartMeans(s);
    b := TrimEndMeans(TrimStart(s));
    assert s == a + (Trim(s) + b);
  }

  /** The character classes by their code points. */
  lemma CharacterClasses(c: char)
    ensures IsDigit(c) <==> 48 <= c as int <= 57
    ensures IsWordChar(c) <==> 48 <= c as int <= 57 || 65 <= c as int <= 90 || c as int == 95 || 97 <= c as int <= 122
    ensures IsSpace(c) <==>
              || 9 <= c as int <= 13 || c as int == 32 || c as int == 160 || c as int == 5760
              || 8192 <= c as int <= 8202 || c as int == 8232 || c as int == 8233 || c as int == 8239
              || c as int == 8287 || c as int == 12288 || c as int == 65279
  {
  }

  lemma LowerCase(c: char)
    ensures LowerChar(c) as int == if 65 <= c as int <= 90 then c as int + 32 else c as int
  {
  }

  // ---------- Decimal numerals ----------

  ghost predicate AllDigits(s: string) { forall i :: 0 <= i < |s| ==> IsDigit(s[i]) }

  function DigitChar(d: int): (c: char)
    requires 0 <= d < 10
    ensures IsDigit(c) && c as int - '0' as int == d
  {
    ('0' as int + d) as char
  }

  function Digits(n: nat): (s: string)
    ensures s != [] && AllDigits(s)
  {
    if n < 10 then [DigitChar(n)] else Digits(n / 10) + [DigitChar(n % 10)]
  }

  /** The number a string of digits denotes. */
  function Value(s: string): nat
    requires AllDigits(s)
  {
    if s == [] then 0 else Value(s[..|s| - 1]) * 10 + (s[|s| - 1] as int - '0' as int)
  }

  lemma {:induction false} ValueOfDigits(n: nat)
    ensures Value(Digits(n)) == n
  {
    if n >= 10 {
      ValueOfDigits(n / 10);
      assert Digits(n)[..|Digits(n)| - 1] == Digits(n / 10);
    }
  }

  /** `n` written with exactly two digits. */
  function TwoDigits(n: nat): (s: string)
    requires n < 100
    ensures |s| == 2 && AllDigits(s)
  {
    [DigitChar(n / 10), DigitChar(n % 10)]
  }

  function ThreeDigits(n: nat): (s: string)
    requires n < 1000
    ensures |s| == 3 && AllDigits(s)
  {
    TwoDigits(n / 10) + [DigitChar(n % 10)]
  }

  lemma ThousandsSplit(n: nat)
    requires 1000 <= n
    ensures Digits(n) == Digits(n / 1000) + ThreeDigits(n % 1000)
  {
    var m, l := n / 10, n / 100;
    assert m / 10 == l && l / 10 == n / 1000;
    assert n % 1000 / 10 / 10 == l % 10 && n % 1000 / 10 % 10 == m % 10 && n % 1000 % 10 == n % 10;
    assert Digits(l) == Digits(n / 1000) + [DigitChar(l % 10)];
    assert Digits(m) == Digits(l) + [DigitChar(m % 10)];
    assert Digits(n) == Digits(m) + [DigitChar(n % 10)];
  }

  lemma ValueOfHundreds(n: nat, c: nat)
    requires c < 100
    ensures Value(Digits(n) + TwoDigits(c)) == n * 100 + c
  {
    var s := Digits(n) + TwoDigits(c);
    ValueOfDigits(n);
    assert s[..|s| - 1][..|s| - 2] == Digits(n);
  }

  lemma DigitCount(n: nat)
    ensures |Digits(n)| <= 3 <==> n < 1000
  {
    if 1000 <= n {
      ThousandsSplit(n);
    } else if 10 <= n {
      assert |Digits(n / 10)| <= 2;
    }
  }

  lemma ThreeDigitsAtMost(s: string)
    requires AllDigits(s) && |s| <= 3
    ensures Value(s) < 1000
  {
    if |s| > 0 {
      var a := s[..|s| - 1];
      if |a| > 0 {
        var b := a[..|a| - 1];
        if |b| > 0 { assert b[..|b| - 1] == []; }
      }
    }
  }

  // ---------- parseFloat on digits and dots ----------

  /** The exact decimal `mantissa / 10^scale`. */
  datatype Decimal = Decimal(mantissa: nat, scale: nat)

  function LeadingDigits(s: string): (d: string)
    ensures d <= s && AllDigits(d)
    ensures |d| < |s| ==> !IsDigit(s[|d|])
  {
    if s == [] || !IsDigit(s[0]) then [] else [s[0]] + LeadingDigits(s[1..])
  }

  /** `parseFloat` of a text made of digits and dots only; `None` stands for NaN. */
  function ParseFloat(s: string): Option<Decimal> {
    var whole := LeadingDigits(s);
    var rest := s[|whole|..];
    var fraction := if rest != [] && rest[0] == '.' then LeadingDigits(rest[1..]) else [];
    if whole == [] && fraction == [] then None else Some(Decimal(Value(whole + fraction), |fraction|))
  }

  lemma {:induction false} LeadingDigitsStop(d: string, rest: string)
    requires AllDigits(d) && (rest == [] || !IsDigit(rest[0]))
    ensures LeadingDigits(d + rest) == d
  {
    if d == [] {
      assert d + rest == rest;
    } else {
      assert (d + rest)[1..] == d[1..] + rest;
      LeadingDigitsStop(d[1..], rest);
    }
  }

  lemma ParseFixed(whole: string, fraction: string)
    requires AllDigits(whole) && AllDigits(fraction) && whole != []
    ensures ParseFloat(whole + "." + fraction) == Some(Decimal(Value(whole + fraction), |fraction|))
  {
    var s := whole + "." + fraction;
    assert s == whole + ("." + fraction);
    LeadingDigitsStop(whole, "." + fraction);
    assert s[|whole|..] == "." + fraction;
    assert ("." + fraction)[1..] == fraction;
    assert fraction + "" == fraction;
    LeadingDigitsStop(fraction, "");
  }

  lemma ParseHundredths(n: nat, c: nat)
    requires c < 100
    ensures ParseFloat(Digits(n) + "." + TwoDigits(c)) == Some(Decimal(n * 100 + c, 2))
  {
    ParseFixed(Digits(n), TwoDigits(c));
    ValueOfHundreds(n, c);
  }

  lemma ParseWhole(whole: string)
    requires AllDigits(whole) && whole != []
    ensures ParseFloat(whole) == Some(Decimal(Value(whole), 0))
  {
    assert whole + "" == whole;
    LeadingDigitsStop(whole, "");
    assert whole[|whole|..] == [];
  }
}
