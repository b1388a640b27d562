/** The naira printer and the phone number normaliser. */
module Nigeria {
  import opened Wrappers
  import opened Text

  const NAIRA: char := '\U{20A6}'

  // ---------- formatNaira ----------

  /** The first group of `n` written with thousands separators: one to three digits. */
  function LeadGroup(n: nat): (s: string)
    ensures 1 <= |s| <= 3 && AllDigits(s)
  {
    if n < 1000 then DigitCount(n); Digits(n) else LeadGroup(n / 1000)
  }

  /** The groups after the first, each with its comma. */
  function TailGroups(n: nat): string {
    if n < 1000 then [] else TailGroups(n / 1000) + "," + ThreeDigits(n % 1000)
  }

  /** Groups of three digits, each after a comma. */
  ghost predicate IsGroups(s: string) {
    s == [] || (4 <= |s| && IsGroups(s[..|s| - 4]) && IsGroup(s[|s| - 4..]))
  }

  ghost predicate IsGroup(s: string) {
    |s| == 4 && s[0] == ',' && AllDigits(s[1..])
  }

  lemma {:induction false} TailIsGroups(n: nat)
    ensures IsGroups(TailGroups(n))
  {
    if n >= 1000 {
      var a, g := TailGroups(n / 1000), "," + ThreeDigits(n % 1000);
      TailIsGroups(n / 1000);
      assert TailGroups(n) == a + g;
      assert (a + g)[..|a + g| - 4] == a && (a + g)[|a + g| - 4..] == g && g[1..] == ThreeDigits(n % 1000);
    }
  }

  /** The en-NG currency format of an amount in kobo; `None` is an amount that is not a number. */
  function FormatNaira(kobo: Option<int>): string {
    match kobo
    case None => [NAIRA] + "0.00"
    case Some(k) =>
      if k < 0 then "-" + [NAIRA] + Plain(-k) else [NAIRA] + Plain(k)
  }

  /** The number part: comma groups, a dot and two digits. */
  function Plain(kobo: nat): string {
    LeadGroup(kobo / 100) + TailGroups(kobo / 100) + "." + TwoDigits(kobo % 100)
  }

  function Abs(k: int): nat { if k < 0 then -k else k }

  lemma KeepAround(a: string, dropped: string, d: string, keep: char -> bool)
    requires Keep(dropped, keep) == "" && Keep(d, keep) == d
    ensures Keep(a + dropped + d, keep) == Keep(a, keep) + d
  {
    var x := a + dropped;
    assert Keep(x, keep) == Keep(a, keep) by { KeepConcat(a, dropped, keep); }
    KeepConcat(x, d, keep);
  }

  /** Dropping the commas gives back the plain numeral. */
  lemma {:induction false} GroupsWithoutCommas(n: nat, keep: char -> bool)
    requires forall c :: IsDigit(c) ==> keep(c)
    requires !keep(',')
    ensures Keep(LeadGroup(n) + TailGroups(n), keep) == Digits(n)
  {
    if n < 1000 {
      assert LeadGroup(n) + TailGroups(n) == Digits(n);
      KeepAll(Digits(n), keep);
    } else {
      var m, d := n / 1000, ThreeDigits(n % 1000);
      GroupsWithoutCommas(m, keep);
      assert LeadGroup(n) + TailGroups(n) == (LeadGroup(m) + TailGroups(m)) + "," + d;
      KeepNone(",", keep);
      KeepAll(d, keep);
      KeepAround(LeadGroup(m) + TailGroups(m), ",", d, keep);
      ThousandsSplit(n);
    }
  }

  /** Any cleaning that keeps digits and dots and drops commas turns the printed number into a plain one. */
  lemma CleanedPlain(kobo: nat, keep: char -> bool)
    requires forall c :: IsDigit(c) ==> keep(c)
    requires keep('.') && !keep(',')
    ensures Keep(Plain(kobo), keep) == Digits(kobo / 100) + "." + TwoDigits(kobo % 100)
  {
    var groups, cents := LeadGroup(kobo / 100) + TailGroups(kobo / 100), "." + TwoDigits(kobo % 100);
    assert Plain(kobo) == groups + cents;
    KeepConcat(groups, cents, keep);
    GroupsWithoutCommas(kobo / 100, keep);
    KeepAll(cents, keep);
  }

  lemma CleanedPlainParses(kobo: nat, keep: char -> bool)
    requires forall c :: IsDigit(c) ==> keep(c)
    requires keep('.') && !keep(',')
    ensures ParseFloat(Keep(Plain(kobo), keep)) == Some(Decimal(kobo, 2))
  {
    CleanedPlain(kobo, keep);
    ParseHundredths(kobo / 100, kobo % 100);
  }

  /** The examples of the documentation: sign, comma groups, a dot and two digits. */
  lemma FormatNairaExamples()
    ensures FormatNaira(Some(1540050)) == "\U{20A6}15,400.50"
    ensures FormatNaira(Some(-5)) == "-\U{20A6}0.05"
    ensures FormatNaira(None) == "\U{20A6}0.00"
  {
    FifteenThousand();
    FiveKobo();
  }

  lemma FifteenThousand()
    ensures Plain(1540050) == "15,400.50"
  {
    assert Digits(15) == "15";
    assert TailGroups(15) == "" && LeadGroup(15) == "15";
    assert TailGroups(15400) == ",400" && LeadGroup(15400) == "15";
  }

  lemma FiveKobo()
    ensures Plain(5) == "0.05"
  {
    assert Digits(0) == "0" && TailGroups(0) == "";
  }

  // ---------- normalizePhoneNumber ----------

  predicate PhonePunctuation(c: char) { IsSpace(c) || c == '-' || c == '(' || c == ')' }

  predicate NotPunctuation(c: char) { !PhonePunctuation(c) }

  function NormalizePhoneNumber(phone: string): string {
    var cleaned := Keep(phone, NotPunctuation);
    if "+234" <= cleaned then cleaned
    else if "234" <= cleaned then "+" + cleaned
    else if "0" <= cleaned && |cleaned| == 11 then "+234" + cleaned[1..]
    else cleaned
  }

  /** `/^\+234[789][01]\d{8}$/` on the normalised number. */
  predicate IsValidNigerianPhone(phone: string) {
    var n := NormalizePhoneNumber(phone);
    && |n| == 14 && "+234" <= n
    && '7' <= n[4] <= '9' && '0' <= n[5] <= '1'
    && forall i :: 6 <= i < 14 ==> IsDigit(n[i])
  }

  /** Spaces, hyphens and parentheses go, and nothing else does unless the text has one of the three prefixes. */
  lemma NormalizeInFields(phone: string, rest: string)
    requires rest == Keep(phone, (c: char) => c !in "-()" && !IsSpace(c))
    ensures NormalizePhoneNumber(phone)
         == if "+234" <= rest then rest
            else if "234" <= rest then "+" + rest
            else if "0" <= rest && |rest| == 11 then "+234" + rest[1..]
            else rest
  {
    SameKeep(phone, NotPunctuation, (c: char) => c !in "-()" && !IsSpace(c));
  }

  lemma {:induction false} SameKeep(s: string, p: char -> bool, q: char -> bool)
    requires forall c :: p(c) <==> q(c)
    ensures Keep(s, p) == Keep(s, q)
  {
    if s != [] { SameKeep(s[1..], p, q); }
  }

  /** A normalised number is a fixed point, so a number stored once is found again. */
  lemma NormalizeIsIdempotent(phone: string)
    ensures NormalizePhoneNumber(NormalizePhoneNumber(phone)) == NormalizePhoneNumber(phone)
  {
    KeptOnly(phone, NotPunctuation);
    KeepAll(NormalizePhoneNumber(phone), NotPunctuation);
  }

  /**
    The local, the international and the E.164 spelling of one ten-digit number, however punctuated,
    are brought to the same text: uniqueness of phone numbers can be checked on it.
   */
  lemma SpellingsAgree(local: string, national: string, e164: string, number: string)
    requires |number| == 10 && AllDigits(number)
    requires Keep(local, NotPunctuation) == "0" + number
    requires Keep(national, NotPunctuation) == "234" + number
    requires Keep(e164, NotPunctuation) == "+234" + number
    ensures NormalizePhoneNumber(local) == NormalizePhoneNumber(national) == NormalizePhoneNumber(e164)
            == "+234" + number
  {
    assert ("0" + number)[0] == '0' && ("234" + number)[0] == '2';
    assert "+" + ("234" + number) == "+234" + number;
    assert ("0" + number)[1..] == number;
  }

  /** A mobile subscriber's ten digits. */
  ghost predicate IsSubscriber(number: string) {
    && |number| == 10
    && '7' <= number[0] <= '9' && '0' <= number[1] <= '1'
    && forall i :: 2 <= i < 10 ==> IsDigit(number[i])
  }

  ghost predicate Spells(cleaned: string, number: string) {
    cleaned == "0" + number || cleaned == "234" + number || cleaned == "+234" + number
  }

  lemma SpellingIsValid(phone: string, number: string)
    requires IsSubscriber(number) && Spells(Keep(phone, NotPunctuation), number)
    ensures IsValidNigerianPhone(phone)
  {
    var cleaned := Keep(phone, NotPunctuation);
    assert ("0" + number)[0] == '0' && ("234" + number)[0] == '2' && ("+234" + number)[0] == '+';
    assert cleaned == "0" + number ==> cleaned[1..] == number;
    assert "+" + ("234" + number) == "+234" + number;
    assert NormalizePhoneNumber(phone) == "+234" + number;
    assert forall i :: 4 <= i < 14 ==> ("+234" + number)[i] == number[i - 4];
  }

  lemma ValidIsASpelling(phone: string) returns (number: string)
    requires IsValidNigerianPhone(phone)
    ensures IsSubscriber(number) && Spells(Keep(phone, NotPunctuation), number)
  {
    var cleaned, n := Keep(phone, NotPunctuation), NormalizePhoneNumber(phone);
    number := n[4..];
    assert n == "+234" + number;
    if "+234" <= cleaned {
    } else if "234" <= cleaned {
      assert cleaned == n[1..] == "234" + number;
    } else {
      assert cleaned[0] == '0' && cleaned == "0" + cleaned[1..] && cleaned[1..] == n[4..];
    }
  }

  /** The valid numbers are exactly the three spellings of the subscriber numbers, however punctuated. */
  lemma ValidExactlyWhenSpelled(phone: string)
    ensures IsValidNigerianPhone(phone)
       <==> exists number :: IsSubscriber(number) && Spells(Keep(phone, NotPunctuation), number)
  {
    if IsValidNigerianPhone(phone) {
      var number := ValidIsASpelling(phone);
    }
    if number :| IsSubscriber(number) && Spells(Keep(phone, NotPunctuation), number) {
      SpellingIsValid(phone, number);
    }
  }
}
