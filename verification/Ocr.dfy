/** Reading amounts, references, banks and narrations out of receipt text. */
module Ocr {
  import opened Wrappers
  import opened Text
  import opened Regex
  import opened Nigeria

  // ---------- Patterns ----------

  predicate IsSeparator(c: char) { c == ':' || IsSpace(c) }
  predicate NotComma(c: char) { c != ',' }
  predicate IsReferenceChar(c: char) { IsWordChar(c) || c == '-' }
  predicate IsInLine(c: char) { c != '\n' && c != '\r' }

  /** The words in order, as alternatives. */
  function OneOf(words: seq<string>): Re
    requires words != []
  {
    if |words| == 1 then Word(words[0]) else Alt(Word(words[0]), OneOf(words[1..]))
  }

  function SpacedIdPattern(word: string): Re { Cat(Word(word), Cat(Chars(IsSpace, 0, None), Word("ID"))) }

  const SEPARATORS := Chars(IsSeparator, 0, None)
  const CENTS := Cat(Word("."), Chars(IsDigit, 2, Some(2)))
  const COMMA_GROUP := Cat(Word(","), Chars(IsDigit, 3, Some(3)))

  const AMOUNT_WORDS := ["NGN", [NAIRA], "Amt", "Amount", "Debit"]
  const AMOUNT_LEAD := Cat(OneOf(AMOUNT_WORDS), SEPARATORS)
  const GROUPED := Cat(Chars(IsDigit, 1, Some(3)), Cat(Star(COMMA_GROUP), Opt(CENTS)))
  const UNGROUPED := Cat(Chars(IsDigit, 1, None), Opt(CENTS))
  const AMOUNT := Alt(GROUPED, UNGROUPED)

  const SESSION_LEAD := Boundary
  const SESSION_ID := Cat(Chars(IsDigit, 30, Some(30)), Boundary)
  const REFERENCE_LABEL := Alt(SpacedIdPattern("Session"), Alt(OneOf(["Ref", "RRN"]), SpacedIdPattern("Txn")))
  const REFERENCE_LEAD := Cat(REFERENCE_LABEL, SEPARATORS)
  const REFERENCE := Chars(IsReferenceChar, 10, Some(32))

  const NARRATION_LEAD := Cat(OneOf(["Narration", "Desc", "Remark", "Description"]), SEPARATORS)
  const NARRATION := Chars(IsInLine, 1, None)

  predicate IsDateMark(c: char) { c == '-' || c == '/' }

  const DATE_MARK := Chars(IsDateMark, 1, Some(1))
  const DAY_FIRST :=
    Cat(Chars(IsDigit, 1, Some(2)), Cat(DATE_MARK, Cat(Chars(IsDigit, 1, Some(2)), Cat(DATE_MARK, Chars(IsDigit, 2, Some(4))))))
  const YEAR_FIRST :=
    Cat(Chars(IsDigit, 4, Some(4)), Cat(DATE_MARK, Cat(Chars(IsDigit, 1, Some(2)), Cat(DATE_MARK, Chars(IsDigit, 1, Some(2))))))

  const BANKS := [
    "GTBank", "Guaranty Trust Bank", "Access Bank", "Zenith Bank", "First Bank", "UBA",
    "United Bank for Africa", "Kuda", "OPay", "Palmpay", "Moniepoint", "Stanbic IBTC",
    "Fidelity Bank", "Wema Bank", "Sterling Bank", "MTN", "Airtel", "EKEDC", "IKEDC"]

  function BankPattern(bank: string): Re { Cat(Boundary, Cat(Word(bank), Boundary)) }

  // ---------- What is extracted ----------

  function ExtractAmount(text: string): Option<Decimal> {
    AmountOf(text, Search(AMOUNT_LEAD, AMOUNT, text))
  }

  function AmountOf(text: string, found: Option<(nat, nat)>): Option<Decimal>
    requires found.Some? ==> found.value.0 <= found.value.1 <= |text|
  {
    match found
    case None => None
    case Some(span) => ParseFloat(Keep(text[span.0..span.1], NotComma))
  }

  function SessionReference(text: string): Option<string> {
    match Search(SESSION_LEAD, SESSION_ID, text)
    case Some(span) => Some(text[span.0..span.1])
    case None => None
  }

  function LabelledReference(text: string): Option<string> {
    match Search(REFERENCE_LEAD, REFERENCE, text)
    case Some(span) => Some(Trim(text[span.0..span.1]))
    case None => None
  }

  /** A 30-digit session number if there is one, else what follows a label such as `Ref:`. */
  function ExtractReference(text: string): Option<string> {
    if SessionReference(text).Some? then SessionReference(text) else LabelledReference(text)
  }

  function ExtractNarration(text: string): Option<string> {
    match Search(NARRATION_LEAD, NARRATION, text)
    case None => None
    case Some(span) => Some(Trim(text[span.0..span.1]))
  }

  /** `parse` is the host's date parser; a text it cannot read gives no date. */
  function ExtractDate(text: string, parse: string -> Option<int>): Option<int> {
    match Search(Empty, Alt(DAY_FIRST, YEAR_FIRST), text)
    case None => None
    case Some(span) => parse(text[span.0..span.1])
  }

  // ---------- How the amount pattern matches ----------

  /** After the leading digits the pattern takes what it can and never fails. */
  lemma TailMatches(t: string, i: nat)
    requires i <= |t|
    ensures First(Cat(Star(COMMA_GROUP), Opt(CENTS)), t, i).Some?
  {
    StarMatches(COMMA_GROUP, t, i);
    var e := First(Star(COMMA_GROUP), t, i).value;
    FirstOfOpt(CENTS, t, e);
    FirstOfCat(Star(COMMA_GROUP), Opt(CENTS), t, i);
  }

  lemma GroupedMatchesAtDigit(t: string, i: nat)
    requires i <= |t|
    ensures First(GROUPED, t, i).Some? <==> i < |t| && IsDigit(t[i])
    ensures First(GROUPED, t, i).Some? ==>
              First(GROUPED, t, i) == First(Cat(Star(COMMA_GROUP), Opt(CENTS)), t, i + RunLength(IsDigit, 3, t, i))
  {
    FirstOfChars(IsDigit, 1, Some(3), t, i);
    if i < |t| && IsDigit(t[i]) {
      TailMatches(t, i + RunLength(IsDigit, 3, t, i));
      FirstOfCat(Chars(IsDigit, 1, Some(3)), Cat(Star(COMMA_GROUP), Opt(CENTS)), t, i);
    } else {
      FirstOfCatNone(Chars(IsDigit, 1, Some(3)), Cat(Star(COMMA_GROUP), Opt(CENTS)), t, i);
    }
  }

  // ---------- The second alternative of the amount pattern ----------

  lemma AmountIsGrouped(t: string, i: nat)
    requires i <= |t|
    ensures First(AMOUNT, t, i) == First(GROUPED, t, i)
  {
    GroupedMatchesAtDigit(t, i);
    if !(i < |t| && IsDigit(t[i])) {
      FirstOfCatNone(Chars(IsDigit, 1, None), Opt(CENTS), t, i);
    }
  }

  /** On every text the amount pattern finds the same span with its second alternative removed. */
  lemma SecondAlternativeNeverWins(text: string)
    ensures Search(AMOUNT_LEAD, AMOUNT, text) == Search(AMOUNT_LEAD, GROUPED, text)
  {
    forall i: nat | i <= |text| ensures First(AMOUNT, text, i) == First(GROUPED, text, i) {
      AmountIsGrouped(text, i);
    }
    forall p: nat | p <= |text|
      ensures CaptureHere(AMOUNT_LEAD, AMOUNT, text, p) == CaptureHere(AMOUNT_LEAD, GROUPED, text, p)
    {
      SameGroup(AMOUNT, GROUPED, text, Ends(AMOUNT_LEAD, text, p));
    }
    SameSearch(AMOUNT_LEAD, AMOUNT_LEAD, AMOUNT, GROUPED, text);
  }

  /** Whenever the pattern is found, the captured text is a number. */
  lemma FoundAmountIsANumber(text: string)
    ensures ExtractAmount(text).Some? <==> Search(AMOUNT_LEAD, AMOUNT, text).Some?
  {
    var found := Search(AMOUNT_LEAD, AMOUNT, text);
    if found.Some? {
      var (m, e) := found.value;
      FoundSpan(AMOUNT_LEAD, AMOUNT, text);
      AmountIsGrouped(text, m);
      GroupedMatchesAtDigit(text, m);
      var c := text[m..e];
      assert m < e && c[0] == text[m];
      var kept := Keep(c, NotComma);
      assert kept[0] == c[0];
    }
  }

  // ---------- Round trip with the printer ----------

  /** The text `x` stands in `t` from `q` on. */
  ghost predicate TextAt(t: string, q: nat, x: string) {
    q + |x| <= |t| && forall k :: 0 <= k < |x| ==> t[q + k] == x[k]
  }

  lemma TextAtSplit(t: string, q: nat, a: string, b: string)
    requires TextAt(t, q, a + b)
    ensures TextAt(t, q, a) && TextAt(t, q + |a|, b)
  {
    forall k | 0 <= k < |a| ensures t[q + k] == a[k] { assert (a + b)[k] == a[k]; }
    forall k | 0 <= k < |b| ensures t[q + |a| + k] == b[k] { assert (a + b)[|a| + k] == b[k]; }
  }

  lemma DigitRun(t: string, q: nat, d: string, n: nat)
    requires TextAt(t, q, d) && AllDigits(d) && |d| <= n
    requires |d| == n || q + |d| == |t| || !IsDigit(t[q + |d|])
    ensures RunLength(IsDigit, n, t, q) == |d|
    decreases |d|
  {
    if d != [] {
      assert d == d[..1] + d[1..];
      TextAtSplit(t, q, d[..1], d[1..]);
      assert t[q + 0] == d[0];
      DigitRun(t, q + 1, d[1..], n - 1);
    }
  }

  lemma MarkedDigits(mark: string, d: string, t: string, q: nat)
    requires AllDigits(d) && TextAt(t, q, mark + d)
    ensures First(Cat(Word(mark), Chars(IsDigit, |d|, Some(|d|))), t, q) == Some(q + |mark| + |d|)
  {
    TextAtSplit(t, q, mark, d);
    DigitRun(t, q + |mark|, d, |d|);
    FirstOfChars(IsDigit, |d|, Some(|d|), t, q + |mark|);
    FirstOfCat(Word(mark), Chars(IsDigit, |d|, Some(|d|)), t, q);
  }

  /** `r`, tried at `q`, ends at `e`. */
  predicate EndsAt(r: Re, t: string, q: nat, e: nat) {
    q <= |t| && First(r, t, q) == Some(e)
  }

  lemma GroupIsTaken(g: string, t: string, q: nat)
    requires IsGroup(g) && TextAt(t, q, g)
    ensures First(COMMA_GROUP, t, q) == Some(q + 4)
  {
    var d := g[1..];
    assert g == "," + d && |d| == 3;
    MarkedDigits(",", d, t, q);
  }

  lemma StarTakesOne(g: string, t: string, q: nat, e: nat)
    requires IsGroup(g) && TextAt(t, q, g) && EndsAt(Star(COMMA_GROUP), t, q + 4, e)
    ensures EndsAt(Star(COMMA_GROUP), t, q, e)
  {
    GroupIsTaken(g, t, q);
    StarStep(COMMA_GROUP, t, q, q + 4, e);
  }

  /** The last group of a tail, and what stands before it. */
  lemma LastGroupAt(tail: string, t: string, q: nat) returns (a: string, g: string)
    requires tail != [] && IsGroups(tail) && TextAt(t, q, tail)
    ensures IsGroups(a) && IsGroup(g) && |tail| == |a| + 4
    ensures TextAt(t, q, a) && TextAt(t, q + |a|, g)
  {
    a, g := tail[..|tail| - 4], tail[|tail| - 4..];
    assert tail == a + g;
    TextAtSplit(t, q, a, g);
  }

  /** What a step over one group keeps, a step over all groups keeps. */
  lemma {:induction false} OverAllGroups(ends: nat -> Option<nat>, tail: string, t: string, q: nat, e: nat)
    requires IsGroups(tail) && TextAt(t, q, tail) && ends(q + |tail|) == Some(e)
    requires forall p: nat, g: string :: IsGroup(g) && TextAt(t, p, g) && ends(p + 4) == Some(e) ==> ends(p) == Some(e)
    ensures ends(q) == Some(e)
    decreases |tail|
  {
    if tail != [] {
      var a, g := LastGroupAt(tail, t, q);
      assert q + |tail| == q + |a| + 4;
      OverAllGroups(ends, a, t, q, e);
    }
  }

  function StarFrom(t: string): nat -> Option<nat> {
    (q: nat) => if q <= |t| then First(Star(COMMA_GROUP), t, q) else None
  }

  /** The starred comma group passes over all groups of a printed number. */
  lemma StarTakesTail(tail: string, t: string, q: nat, e: nat)
    requires IsGroups(tail) && TextAt(t, q, tail) && EndsAt(Star(COMMA_GROUP), t, q + |tail|, e)
    ensures EndsAt(Star(COMMA_GROUP), t, q, e)
  {
    var ends := StarFrom(t);
    forall p: nat, g: string | IsGroup(g) && TextAt(t, p, g) && ends(p + 4) == Some(e) ensures ends(p) == Some(e) {
      StarTakesOne(g, t, p, e);
    }
    OverAllGroups(ends, tail, t, q, e);
  }

  lemma StarStops(t: string, q: nat)
    requires q <= |t| && (q == |t| || t[q] != ',')
    ensures EndsAt(Star(COMMA_GROUP), t, q, q)
  {
    WordStartsAlike(",", t, q);
    FirstOfCatNone(Word(","), Chars(IsDigit, 3, Some(3)), t, q);
    FirstOfStar(COMMA_GROUP, t, q);
  }

  lemma DotAt(cents: string, t: string, q: nat)
    requires TextAt(t, q, "." + cents)
    ensures q < |t| && t[q] == '.'
  {
    assert t[q + 0] == ("." + cents)[0];
  }

  lemma StarTakesGroups(tail: string, cents: string, t: string, q: nat)
    requires IsGroups(tail) && TextAt(t, q, tail) && TextAt(t, q + |tail|, "." + cents)
    ensures EndsAt(Star(COMMA_GROUP), t, q, q + |tail|)
  {
    DotAt(cents, t, q + |tail|);
    StarStops(t, q + |tail|);
    StarTakesTail(tail, t, q, q + |tail|);
  }

  lemma EndsAtInTurn(a: Re, b: Re, t: string, q: nat, m: nat, e: nat)
    requires EndsAt(a, t, q, m) && EndsAt(b, t, m, e)
    ensures EndsAt(Cat(a, b), t, q, e)
  {
    FirstOfCat(a, b, t, q);
  }

  lemma CentsTaken(cents: string, t: string, q: nat)
    requires |cents| == 2 && AllDigits(cents) && TextAt(t, q, "." + cents)
    ensures EndsAt(Opt(CENTS), t, q, q + 3)
  {
    MarkedDigits(".", cents, t, q);
    FirstOfOpt(CENTS, t, q);
  }

  /** The parts of a printed number where it stands in a text. */
  lemma PlainParts(kobo: nat, t: string, q: nat)
    requires TextAt(t, q, Plain(kobo))
    ensures var lead, tail, cents := LeadGroup(kobo / 100), TailGroups(kobo / 100), TwoDigits(kobo % 100);
            && |Plain(kobo)| == |lead| + |tail| + 3
            && TextAt(t, q, lead) && TextAt(t, q + |lead|, tail) && TextAt(t, q + |lead| + |tail|, "." + cents)
            && IsDigit(t[q]) && !IsDigit(t[q + |lead|])
  {
    var lead, tail, cents := LeadGroup(kobo / 100), TailGroups(kobo / 100), TwoDigits(kobo % 100);
    var rest := tail + ("." + cents);
    assert Plain(kobo) == lead + rest;
    TextAtSplit(t, q, lead, rest);
    TextAtSplit(t, q + |lead|, tail, "." + cents);
    TailStartsWithComma(kobo / 100);
    assert t[q + 0] == lead[0] && t[q + |lead| + 0] == rest[0];
  }

  lemma ThreeInTurn(a: Re, b: Re, c: Re, t: string, q: nat, m1: nat, m2: nat, e: nat)
    requires EndsAt(a, t, q, m1) && EndsAt(b, t, m1, m2) && EndsAt(c, t, m2, e)
    ensures EndsAt(Cat(a, Cat(b, c)), t, q, e)
  {
    EndsAtInTurn(b, c, t, m1, m2, e);
    EndsAtInTurn(a, Cat(b, c), t, q, m1, e);
  }

  lemma LeadTaken(lead: string, t: string, q: nat)
    requires 1 <= |lead| <= 3 && AllDigits(lead) && TextAt(t, q, lead)
    requires |lead| == 3 || q + |lead| == |t| || !IsDigit(t[q + |lead|])
    ensures EndsAt(Chars(IsDigit, 1, Some(3)), t, q, q + |lead|)
  {
    DigitRun(t, q, lead, 3);
    FirstOfChars(IsDigit, 1, Some(3), t, q);
  }

  lemma GroupedTakesParts(cents: string, t: string, q: nat, q1: nat, q2: nat)
    requires EndsAt(Chars(IsDigit, 1, Some(3)), t, q, q1) && EndsAt(Star(COMMA_GROUP), t, q1, q2)
    requires |cents| == 2 && AllDigits(cents) && TextAt(t, q2, "." + cents)
    ensures EndsAt(GROUPED, t, q, q2 + 3)
  {
    CentsTaken(cents, t, q2);
    ThreeInTurn(Chars(IsDigit, 1, Some(3)), Star(COMMA_GROUP), Opt(CENTS), t, q, q1, q2, q2 + 3);
  }

  lemma GroupedTakesNumber(tail: string, cents: string, t: string, q: nat, q1: nat, q2: nat)
    requires EndsAt(Chars(IsDigit, 1, Some(3)), t, q, q1) && q2 == q1 + |tail|
    requires IsGroups(tail) && TextAt(t, q1, tail)
    requires |cents| == 2 && AllDigits(cents) && TextAt(t, q2, "." + cents)
    ensures EndsAt(GROUPED, t, q, q2 + 3)
  {
    StarTakesGroups(tail, cents, t, q1);
    GroupedTakesParts(cents, t, q, q1, q2);
  }

  /** The pattern takes a printed number exactly, whatever stands after it. */
  lemma GroupedTakesPlain(kobo: nat, t: string, q: nat)
    requires TextAt(t, q, Plain(kobo))
    ensures EndsAt(GROUPED, t, q, q + |Plain(kobo)|)
  {
    PlainParts(kobo, t, q);
    TailIsGroups(kobo / 100);
    var q1 := q + |LeadGroup(kobo / 100)|;
    LeadTaken(LeadGroup(kobo / 100), t, q);
    GroupedTakesNumber(TailGroups(kobo / 100), TwoDigits(kobo % 100), t, q, q1, q1 + |TailGroups(kobo / 100)|);
  }

  lemma {:induction false} TailStartsWithComma(n: nat)
    ensures TailGroups(n) == [] || TailGroups(n)[0] == ','
  {
    if n >= 1000 { TailStartsWithComma(n / 1000); }
  }

  lemma {:induction false} FirstOfOneOf(words: seq<string>, k: nat, t: string, i: nat)
    requires i <= |t| && k < |words| && WordAt(words[k], t, i)
    requires forall j :: 0 <= j < k ==> !WordAt(words[j], t, i)
    ensures First(OneOf(words), t, i) == Some(i + |words[k]|)
  {
    if k > 0 {
      FirstOfOneOf(words[1..], k - 1, t, i);
      assert Ends(Word(words[0]), t, i) == [];
    }
  }

  /** From `e` on there are separators, if any, and then a digit. */
  ghost predicate NumberFollows(t: string, e: nat) {
    exists m: nat :: m < |t| && Run(t, IsSeparator, e, m) && IsDigit(t[m])
  }

  /** A keyword stands at `i` and a number follows it. */
  ghost predicate AmountStartsAt(t: string, i: nat) {
    exists w :: w in {"NGN", "\U{20A6}", "Amt", "Amount", "Debit"} && WordAt(w, t, i) && NumberFollows(t, i + |w|)
  }

  /** No keyword before `p` is followed by a number. */
  ghost predicate NoAmountBefore(t: string, p: nat) {
    forall i: nat :: i < p ==> !AmountStartsAt(t, i)
  }

  lemma {:induction false} OneOfMember(words: seq<string>, t: string, i: nat, e: nat) returns (k: nat)
    requires words != [] && i <= |t| && e in Ends(OneOf(words), t, i)
    ensures k < |words| && WordAt(words[k], t, i) && e == i + |words[k]|
  {
    if WordAt(words[0], t, i) && e == i + |words[0]| {
      k := 0;
    } else {
      var j := OneOfMember(words[1..], t, i, e);
      k := j + 1;
    }
  }

  lemma SeparatorsMember(t: string, e: nat, m: nat)
    requires e <= |t| && m in Ends(SEPARATORS, t, e)
    ensures Run(t, IsSeparator, e, m)
  {
    RunLengthIsRun(IsSeparator, |t|, t, e);
  }

  lemma CapturedIsAmount(t: string, i: nat)
    requires i <= |t| && CaptureHere(AMOUNT_LEAD, AMOUNT, t, i).Some?
    ensures AmountStartsAt(t, i)
  {
    var m := CaptureHere(AMOUNT_LEAD, AMOUNT, t, i).value.0;
    CaptureIsMatch(AMOUNT_LEAD, AMOUNT, t, i);
    AmountIsGrouped(t, m);
    GroupedMatchesAtDigit(t, m);
    var e := EndsFromMember(SEPARATORS, t, Ends(OneOf(AMOUNT_WORDS), t, i), i, m);
    var k := OneOfMember(AMOUNT_WORDS, t, i, e);
    SeparatorsMember(t, e, m);
    assert NumberFollows(t, e);
    StartsAtKeyword(t, i, k);
  }

  lemma StartsAtKeyword(t: string, i: nat, k: nat)
    requires k < |AMOUNT_WORDS| && WordAt(AMOUNT_WORDS[k], t, i) && NumberFollows(t, i + |AMOUNT_WORDS[k]|)
    ensures AmountStartsAt(t, i)
  {
    var w := AMOUNT_WORDS[k];
    assert w in {"NGN", "\U{20A6}", "Amt", "Amount", "Debit"};
  }

  lemma SeparatorsEnd(t: string, e: nat, m: nat)
    requires m < |t| && Run(t, IsSeparator, e, m) && IsDigit(t[m])
    ensures First(SEPARATORS, t, e) == Some(m)
  {
    SeparatorRun(t, e, m, |t|);
    FirstOfChars(IsSeparator, 0, None, t, e);
  }

  lemma {:induction false} SeparatorRun(t: string, e: nat, m: nat, max: nat)
    requires e <= m < |t| && m - e <= max && Run(t, IsSeparator, e, m) && IsDigit(t[m])
    ensures RunLength(IsSeparator, max, t, e) == m - e
    decreases m - e
  {
    if e < m { SeparatorRun(t, e + 1, m, max - 1); }
  }

  lemma CharDiffers(word: string, t: string, i: nat, x: nat)
    requires x < |word| && i + x < |t| && LowerChar(t[i + x]) != LowerChar(word[x])
    ensures !WordAt(word, t, i)
  {
  }

  /** No two keywords can stand at one place. */
  lemma KeywordsApart(t: string, i: nat, j: nat, k: nat)
    requires j < k < |AMOUNT_WORDS| && WordAt(AMOUNT_WORDS[k], t, i)
    ensures !WordAt(AMOUNT_WORDS[j], t, i)
  {
    var x := if j == 2 && k == 3 then 2 else 0;
    assert LowerChar(t[i + x]) == LowerChar(AMOUNT_WORDS[k][x]);
    CharDiffers(AMOUNT_WORDS[j], t, i, x);
  }

  lemma FirstAtKeyword(t: string, i: nat, k: nat)
    requires k < |AMOUNT_WORDS| && WordAt(AMOUNT_WORDS[k], t, i)
    ensures i <= |t| && First(OneOf(AMOUNT_WORDS), t, i) == Some(i + |AMOUNT_WORDS[k]|)
  {
    forall l | 0 <= l < k ensures !WordAt(AMOUNT_WORDS[l], t, i) { KeywordsApart(t, i, l, k); }
    FirstOfOneOf(AMOUNT_WORDS, k, t, i);
  }

  lemma LeadAtKeyword(t: string, i: nat, k: nat, m: nat)
    requires k < |AMOUNT_WORDS| && WordAt(AMOUNT_WORDS[k], t, i)
    requires m < |t| && Run(t, IsSeparator, i + |AMOUNT_WORDS[k]|, m) && IsDigit(t[m])
    ensures First(AMOUNT_LEAD, t, i) == Some(m)
  {
    FirstAtKeyword(t, i, k);
    SeparatorsEnd(t, i + |AMOUNT_WORDS[k]|, m);
    FirstOfCat(OneOf(AMOUNT_WORDS), SEPARATORS, t, i);
  }

  lemma AmountIsCaptured(t: string, i: nat)
    requires i <= |t| && AmountStartsAt(t, i)
    ensures CaptureHere(AMOUNT_LEAD, AMOUNT, t, i).Some?
  {
    var w :| w in {"NGN", "\U{20A6}", "Amt", "Amount", "Debit"} && WordAt(w, t, i) && NumberFollows(t, i + |w|);
    var k := if w == "NGN" then 0 else if w == "\U{20A6}" then 1 else if w == "Amt" then 2 else if w == "Amount" then 3 else 4;
    assert AMOUNT_WORDS[k] == w;
    var m: nat :| m < |t| && Run(t, IsSeparator, i + |AMOUNT_WORDS[k]|, m) && IsDigit(t[m]);
    LeadAtKeyword(t, i, k, m);
    AmountIsGrouped(t, m);
    GroupedMatchesAtDigit(t, m);
    CaptureOfFirsts(AMOUNT_LEAD, AMOUNT, t, i, m, First(AMOUNT, t, m).value);
  }

  /** The pattern captures at a position exactly when a keyword stands there and a number follows it. */
  lemma CapturedExactlyWhenNumberFollows(t: string, i: nat)
    requires i <= |t|
    ensures CaptureHere(AMOUNT_LEAD, AMOUNT, t, i).Some? <==> AmountStartsAt(t, i)
  {
    if CaptureHere(AMOUNT_LEAD, AMOUNT, t, i).Some? { CapturedIsAmount(t, i); }
    if AmountStartsAt(t, i) { AmountIsCaptured(t, i); }
  }

  lemma NairaIsKeyword(t: string, i: nat)
    requires i < |t| && t[i] == NAIRA
    ensures First(OneOf(AMOUNT_WORDS), t, i) == Some(i + 1)
  {
    WordStartsAlike("NGN", t, i);
    assert WordAt([NAIRA], t, i);
    FirstOfOneOf(AMOUNT_WORDS, 1, t, i);
  }

  /** At a naira sign that a digit follows, the lead-in is the sign alone. */
  lemma LeadAtNaira(t: string, i: nat)
    requires i + 1 < |t| && t[i] == NAIRA && IsDigit(t[i + 1])
    ensures First(AMOUNT_LEAD, t, i) == Some(i + 1)
  {
    NairaIsKeyword(t, i);
    FirstOfChars(IsSeparator, 0, None, t, i + 1);
    FirstOfCat(OneOf(AMOUNT_WORDS), SEPARATORS, t, i);
  }

  lemma NoKeywordAtMinus(t: string, i: nat)
    requires i < |t| && t[i] == '-'
    ensures !AmountStartsAt(t, i)
  {
    forall w | w in {"NGN", "\U{20A6}", "Amt", "Amount", "Debit"} ensures !WordAt(w, t, i) {
      WordStartsAlike(w, t, i);
    }
  }

  lemma NoAmountAtMinus(t: string, i: nat)
    requires i < |t| && t[i] == '-' && NoAmountBefore(t, i)
    ensures NoAmountBefore(t, i + 1)
  {
    NoKeywordAtMinus(t, i);
  }

  lemma NairaThenNumber(text: string, p: nat, kobo: nat)
    requires TextAt(text, p, [NAIRA] + Plain(kobo))
    ensures p + 1 < |text| && text[p] == NAIRA && IsDigit(text[p + 1]) && TextAt(text, p + 1, Plain(kobo))
  {
    TextAtSplit(text, p, [NAIRA], Plain(kobo));
    assert text[p + 0] == [NAIRA][0];
    PlainParts(kobo, text, p + 1);
  }

  /** No amount starts before `p`, and at `p` the lead-in leads to one: that is what the search finds. */
  lemma FirstAmountDecides(t: string, p: nat, m: nat, e: nat)
    requires p <= |t| && First(AMOUNT_LEAD, t, p) == Some(m) && First(AMOUNT, t, m) == Some(e)
    requires NoAmountBefore(t, p)
    ensures Search(AMOUNT_LEAD, AMOUNT, t) == Some((m, e))
  {
    CaptureOfFirsts(AMOUNT_LEAD, AMOUNT, t, p, m, e);
    forall i: nat | i < p ensures CaptureHere(AMOUNT_LEAD, AMOUNT, t, i).None? {
      CapturedExactlyWhenNumberFollows(t, i);
    }
    FoundHere(AMOUNT_LEAD, AMOUNT, t, p);
  }

  lemma NumberTaken(t: string, q: nat, kobo: nat)
    requires TextAt(t, q, Plain(kobo))
    ensures q <= |t| && First(AMOUNT, t, q) == Some(q + |Plain(kobo)|)
  {
    AmountIsGrouped(t, q);
    GroupedTakesPlain(kobo, t, q);
  }

  /** The first amount of the text is a naira sign right before a printed number: that number is found. */
  lemma NumberFound(text: string, p: nat, kobo: nat)
    requires TextAt(text, p, [NAIRA] + Plain(kobo))
    requires NoAmountBefore(text, p)
    ensures Search(AMOUNT_LEAD, AMOUNT, text) == Some((p + 1, p + 1 + |Plain(kobo)|))
    ensures TextAt(text, p + 1, Plain(kobo))
  {
    NairaThenNumber(text, p, kobo);
    LeadAtNaira(text, p);
    NumberTaken(text, p + 1, kobo);
    FirstAmountDecides(text, p, p + 1, p + 1 + |Plain(kobo)|);
  }

  lemma ReadAtNaira(text: string, p: nat, kobo: nat)
    requires TextAt(text, p, [NAIRA] + Plain(kobo))
    requires NoAmountBefore(text, p)
    ensures ExtractAmount(text) == Some(Decimal(kobo, 2))
  {
    NumberFound(text, p, kobo);
    CleanedPlainParses(kobo, NotComma);
    AmountOfSpan(text, Search(AMOUNT_LEAD, AMOUNT, text), p + 1, Plain(kobo), Some(Decimal(kobo, 2)));
  }

  lemma AmountOfSpan(text: string, found: Option<(nat, nat)>, m: nat, x: string, amount: Option<Decimal>)
    requires found == Some((m, m + |x|)) && TextAt(text, m, x)
    requires ParseFloat(Keep(x, NotComma)) == amount
    ensures AmountOf(text, found) == amount
  {
    assert text[m..m + |x|] == x;
  }

  /**
    Reading back what the printer wrote, inside any text in which no keyword before the amount is
    followed by a number of its own: the digits come back exactly, and a minus sign is lost.
   */
  lemma PrintedAmountIsReadBack(kobo: int, before: string, after: string)
    requires NoAmountBefore(before + FormatNaira(Some(kobo)) + after, |before|)
    ensures ExtractAmount(before + FormatNaira(Some(kobo)) + after) == Some(Decimal(Abs(kobo), 2))
  {
    var text := before + FormatNaira(Some(kobo)) + after;
    var p := if kobo < 0 then |before| + 1 else |before|;
    PrintedAt(kobo, before, after);
    if kobo < 0 { NoAmountAtMinus(text, |before|); }
    ReadAtNaira(text, p, Abs(kobo));
  }

  lemma PrintedAt(kobo: int, before: string, after: string)
    ensures var text := before + FormatNaira(Some(kobo)) + after;
            && TextAt(text, if kobo < 0 then |before| + 1 else |before|, [NAIRA] + Plain(Abs(kobo)))
            && (kobo < 0 ==> text[|before|] == '-')
  {
    var sign := if kobo < 0 then "-" else "";
    SignedText(kobo, sign);
    MiddleAt(before, sign, [NAIRA] + Plain(Abs(kobo)), after);
  }

  lemma SignedText(kobo: int, sign: string)
    requires sign == if kobo < 0 then "-" else ""
    ensures FormatNaira(Some(kobo)) == sign + ([NAIRA] + Plain(Abs(kobo)))
  {
  }

  lemma MiddleAt(a: string, b: string, x: string, c: string)
    ensures TextAt(a + (b + x) + c, |a| + |b|, x)
    ensures b != [] ==> (a + (b + x) + c)[|a|] == b[0]
  {
    assert a + (b + x) + c == (a + b) + x + c;
  }

  lemma TextIsWord(word: string, t: string, i: nat)
    requires TextAt(t, i, word)
    ensures WordAt(word, t, i)
  {
  }

  lemma LeadAtNgn(text: string, p: nat)
    requires TextAt(text, p, "NGN" + " ") && p + 4 < |text| && IsDigit(text[p + 4])
    ensures First(AMOUNT_LEAD, text, p) == Some(p + 4)
  {
    TextAtSplit(text, p, "NGN", " ");
    TextIsWord("NGN", text, p);
    assert text[p + 3 + 0] == " "[0];
    LeadAtKeyword(text, p, 0, p + 4);
  }

  /** The text ends at `q`, or what stands there does not go on with the number before it. */
  predicate NumberEndsAt(t: string, q: nat) {
    q == |t| || (q < |t| && !IsDigit(t[q]) && t[q] != ',' && t[q] != '.')
  }

  /** A bare numeral is taken up to its third digit. */
  lemma GroupedCutsNumeral(d: string, k: nat, t: string, q: nat)
    requires d != [] && AllDigits(d) && k == if |d| < 3 then |d| else 3
    requires TextAt(t, q, d) && NumberEndsAt(t, q + |d|)
    ensures First(AMOUNT, t, q) == Some(q + k)
  {
    assert d == d[..k] + d[k..];
    TextAtSplit(t, q, d[..k], d[k..]);
    assert t[q + 0] == d[0];
    assert k < |d| ==> t[q + k] == d[k];
    DigitRun(t, q, d[..k], 3);
    AmountIsGrouped(t, q);
    GroupedMatchesAtDigit(t, q);
    TailTakesNothing(t, q + k);
  }

  lemma CutNumeralParses(d: string, k: nat, text: string, found: Option<(nat, nat)>, m: nat)
    requires AllDigits(d) && 0 < k <= |d| && TextAt(text, m, d) && found == Some((m, m + k))
    ensures m + k <= |text| && AmountOf(text, found) == Some(Decimal(Value(d[..k]), 0))
  {
    assert d == d[..k] + d[k..];
    TextAtSplit(text, m, d[..k], d[k..]);
    KeepAll(d[..k], NotComma);
    ParseWhole(d[..k]);
    AmountOfSpan(text, found, m, d[..k], Some(Decimal(Value(d[..k]), 0)));
  }

  lemma NgnAndNumeral(d: string, text: string, p: nat)
    requires TextAt(text, p, "NGN " + d)
    ensures TextAt(text, p, "NGN" + " ") && TextAt(text, p + 4, d)
  {
    TextAtSplit(text, p, "NGN ", d);
    assert "NGN" + " " == "NGN ";
  }

  lemma CutNumeralIsRead(d: string, k: nat, text: string, p: nat, m: nat)
    requires AllDigits(d) && 0 < k <= |d| && TextAt(text, m, d)
    requires p <= |text| && First(AMOUNT_LEAD, text, p) == Some(m) && First(AMOUNT, text, m) == Some(m + k)
    requires NoAmountBefore(text, p)
    ensures ExtractAmount(text) == Some(Decimal(Value(d[..k]), 0))
  {
    FirstAmountDecides(text, p, m, m + k);
    CutNumeralParses(d, k, text, Search(AMOUNT_LEAD, AMOUNT, text), m);
  }

  lemma UngroupedIsCut(d: string, k: nat, text: string, p: nat)
    requires d != [] && AllDigits(d) && k == if |d| < 3 then |d| else 3
    requires TextAt(text, p, "NGN " + d) && NumberEndsAt(text, p + 4 + |d|)
    requires NoAmountBefore(text, p)
    ensures ExtractAmount(text) == Some(Decimal(Value(d[..k]), 0))
  {
    NgnAndNumeral(d, text, p);
    assert text[p + 4 + 0] == d[0];
    LeadAtNgn(text, p);
    GroupedCutsNumeral(d, k, text, p + 4);
    CutNumeralIsRead(d, k, text, p, p + 4);
  }

  lemma TailTakesNothing(t: string, q: nat)
    requires q <= |t| && (q == |t| || (t[q] != ',' && t[q] != '.'))
    ensures First(Cat(Star(COMMA_GROUP), Opt(CENTS)), t, q) == Some(q)
  {
    StarStops(t, q);
    WordStartsAlike(".", t, q);
    FirstOfCatNone(Word("."), Chars(IsDigit, 2, Some(2)), t, q);
    FirstOfOpt(CENTS, t, q);
    FirstOfCat(Star(COMMA_GROUP), Opt(CENTS), t, q);
  }

  /**
    A whole amount written without commas, as in `NGN 15000`, inside any text in which no number
    follows an earlier keyword, comes back exactly when it has at most three digits: the first
    alternative stops after the third.
   */
  lemma UngroupedAmountIsReadBackUnderAThousand(n: nat, text: string, p: nat)
    requires TextAt(text, p, "NGN " + Digits(n)) && NumberEndsAt(text, p + 4 + |Digits(n)|)
    requires NoAmountBefore(text, p)
    ensures ExtractAmount(text) == Some(Decimal(n, 0)) <==> n < 1000
  {
    var d := Digits(n);
    var k := if |d| < 3 then |d| else 3;
    UngroupedIsCut(d, k, text, p);
    DigitCount(n);
    ValueOfDigits(n);
    ThreeDigitsAtMost(d[..k]);
    if |d| <= 3 { assert d[..k] == d; }
  }

  /** The example of the comment beside the pattern comes back a hundred times too small. */
  lemma FifteenThousandIsReadAsOneHundredAndFifty()
    ensures ExtractAmount("NGN 15000") == Some(Decimal(150, 0))
  {
    var d := "15000";
    assert "NGN " + d == "NGN 15000";
    UngroupedIsCut(d, 3, "NGN 15000", 0);
    ValueOfFirstThree(d);
  }

  lemma ValueOfFirstThree(d: string)
    requires d == "15000"
    ensures AllDigits(d[..3]) && Value(d[..3]) == 150
  {
    ValueOfThree(d[..3]);
  }

  lemma NoAmountInLabel(text: string, i: nat)
    requires 8 < |text| && text[..8] == "Amount: " && text[8] == NAIRA && i < 8
    ensures !AmountStartsAt(text, i)
  {
    assert forall k :: 0 <= k < 8 ==> text[k] == "Amount: "[k];
    forall w | w in {"NGN", "\U{20A6}", "Amt", "Amount", "Debit"} && !(i == 0 && w == "Amount") ensures !WordAt(w, text, i) {
      CharDiffers(w, text, i, if i == 0 && w == "Amt" then 2 else if i == 4 && w == "NGN" then 1 else 0);
    }
    NoNumberAfterLabel(text);
  }

  lemma NoNumberAfterLabel(text: string)
    requires 8 < |text| && text[6] == ':' && text[7] == ' ' && text[8] == NAIRA
    ensures !NumberFollows(text, 6)
  {
    forall m: nat | m < |text| && Run(text, IsSeparator, 6, m) ensures !IsDigit(text[m]) {
      assert m <= 8;
    }
  }

  /** An ordinary receipt line: keyword, colon, sign and amount. */
  lemma LabelledAmountIsReadBack(kobo: nat)
    ensures ExtractAmount("Amount: " + FormatNaira(Some(kobo))) == Some(Decimal(kobo, 2))
  {
    var text := "Amount: " + FormatNaira(Some(kobo)) + "";
    assert text == "Amount: " + FormatNaira(Some(kobo));
    assert text[..8] == "Amount: " && text[8] == FormatNaira(Some(kobo))[0];
    forall i: nat | i < 8 ensures !AmountStartsAt(text, i) { NoAmountInLabel(text, i); }
    assert NoAmountBefore(text, 8);
    PrintedAmountIsReadBack(kobo, "Amount: ", "");
  }

  lemma ValueOfThree(d: string)
    requires |d| == 3 && AllDigits(d)
    ensures Value(d) == 100 * (d[0] as int - '0' as int) + 10 * (d[1] as int - '0' as int) + (d[2] as int - '0' as int)
  {
    assert d[..2][..1] == d[..1] && d[..1][..0] == [];
    assert Value(d[..1]) == d[0] as int - '0' as int;
    assert Value(d[..2]) == 10 * Value(d[..1]) + (d[1] as int - '0' as int);
  }

  // ---------- References ----------

  /** A 30-digit NIP session number standing alone at `p`. */
  ghost predicate SessionAt(t: string, p: nat) {
    && p + 30 <= |t| && (forall k :: p <= k < p + 30 ==> '0' <= t[k] <= '9')
    && (p == 0 || !IsWordChar(t[p - 1])) && (p + 30 == |t| || !IsWordChar(t[p + 30]))
  }

  lemma SessionCaptured(t: string, p: nat)
    requires p <= |t|
    ensures CaptureHere(SESSION_LEAD, SESSION_ID, t, p) == if SessionAt(t, p) then Some((p, p + 30)) else None
  {
    RunLengthIsRun(IsDigit, 30, t, p);
    if p + 30 <= |t| && Run(t, IsDigit, p, p + 30) {
      assert IsDigit(t[p]) && IsDigit(t[p + 29]);
      assert AtBoundary(t, p) <==> p == 0 || !IsWordChar(t[p - 1]);
      assert AtBoundary(t, p + 30) <==> p + 30 == |t| || !IsWordChar(t[p + 30]);
      LongRun(IsDigit, 30, t, p);
      EndsFromOne(Boundary, t, p + 30, p);
      assert Ends(SESSION_ID, t, p) == Ends(Boundary, t, p + 30);
    } else {
      FirstOfCatNone(Chars(IsDigit, 30, Some(30)), Boundary, t, p);
    }
  }

  /** The first session number of a text is its reference, whatever else the text holds. */
  lemma SessionNumberIsTheReference(text: string, p: nat)
    requires SessionAt(text, p) && forall q: nat :: q < p ==> !SessionAt(text, q)
    ensures ExtractReference(text) == Some(text[p..p + 30])
  {
    forall q: nat | q <= |text|
      ensures CaptureHere(SESSION_LEAD, SESSION_ID, text, q) == if SessionAt(text, q) then Some((q, q + 30)) else None
    {
      SessionCaptured(text, q);
    }
    FoundHere(SESSION_LEAD, SESSION_ID, text, p);
  }

  lemma TrimKeeps(s: string)
    requires s != [] ==> !IsSpace(s[0]) && !IsSpace(s[|s| - 1])
    ensures Trim(s) == s
  {
  }

  lemma SessionSearch(text: string)
    ensures match SessionReference(text)
            case None => forall p: nat :: !SessionAt(text, p)
            case Some(r) => exists p: nat :: SessionAt(text, p) && r == text[p..p + 30]
  {
    forall q: nat | q <= |text|
      ensures CaptureHere(SESSION_LEAD, SESSION_ID, text, q) == if SessionAt(text, q) then Some((q, q + 30)) else None
    {
      SessionCaptured(text, q);
    }
    var p := FoundSomewhere(SESSION_LEAD, SESSION_ID, text);
  }

  lemma CharsSpan(member: char -> bool, min: nat, max: nat, t: string, m: nat, e: nat)
    requires m <= |t| && First(Chars(member, min, Some(max)), t, m) == Some(e)
    ensures m + min <= e <= m + max && Run(t[m..e], member, 0, e - m)
  {
    FirstOfChars(member, min, Some(max), t, m);
    RunLengthIsRun(member, max, t, m);
    assert forall k :: 0 <= k < e - m ==> t[m..e][k] == t[m + k];
  }

  // What the labelled pattern captures.

  /** `word`, white space if any, and `ID`, from `i` to `e`. */
  ghost predicate SpacedId(word: string, t: string, i: nat, e: nat) {
    WordAt(word, t, i) && exists m: nat :: Run(t, IsSpace, i + |word|, m) && WordAt("ID", t, m) && e == m + 2
  }

  /** A label for references stands from `i` to `e`. */
  ghost predicate LabelAt(t: string, i: nat, e: nat) {
    || SpacedId("Session", t, i, e) || SpacedId("Txn", t, i, e)
    || (e == i + 3 && (WordAt("Ref", t, i) || WordAt("RRN", t, i)))
  }

  /** From `e` on there are separators, if any, and then at least ten reference characters. */
  ghost predicate ReferenceFollows(t: string, e: nat) {
    exists m: nat :: Run(t, IsSeparator, e, m) && Run(t, IsReferenceChar, m, m + 10)
  }

  lemma SpacesThenId(t: string, s: nat, e: nat)
    requires s <= |t|
    ensures e in Ends(Cat(Chars(IsSpace, 0, None), Word("ID")), t, s)
       <==> exists m: nat :: Run(t, IsSpace, s, m) && WordAt("ID", t, m) && e == m + 2
  {
    if e in Ends(Cat(Chars(IsSpace, 0, None), Word("ID")), t, s) {
      var m := CatMember(Chars(IsSpace, 0, None), Word("ID"), t, s, e);
      RepeatEnds(IsSpace, t, s, m);
      WordEnds("ID", t, m, e);
    }
    if m: nat :| Run(t, IsSpace, s, m) && WordAt("ID", t, m) && e == m + 2 {
      RepeatEnds(IsSpace, t, s, m);
      WordEnds("ID", t, m, e);
      CatHas(Chars(IsSpace, 0, None), Word("ID"), t, s, m, e);
    }
  }

  lemma SpacedIdEnds(word: string, t: string, i: nat, e: nat)
    requires i <= |t|
    ensures e in Ends(SpacedIdPattern(word), t, i) <==> SpacedId(word, t, i, e)
  {
    var rest := Cat(Chars(IsSpace, 0, None), Word("ID"));
    if e in Ends(SpacedIdPattern(word), t, i) {
      var s := CatMember(Word(word), rest, t, i, e);
      WordEnds(word, t, i, s);
      SpacesThenId(t, s, e);
    }
    if SpacedId(word, t, i, e) {
      var s := i + |word|;
      WordEnds(word, t, i, s);
      SpacesThenId(t, s, e);
      CatHas(Word(word), rest, t, i, s, e);
    }
  }

  lemma RefOrRrnEnds(words: seq<string>, t: string, i: nat, e: nat)
    requires words == ["Ref", "RRN"] && i <= |t|
    ensures e in Ends(OneOf(words), t, i) <==> e == i + 3 && (WordAt("Ref", t, i) || WordAt("RRN", t, i))
  {
    assert words[1..] == ["RRN"];
    assert Ends(OneOf(words), t, i) == Ends(Word("Ref"), t, i) + Ends(Word("RRN"), t, i);
  }

  lemma LabelEnds(t: string, i: nat, e: nat)
    requires i <= |t|
    ensures e in Ends(REFERENCE_LABEL, t, i) <==> LabelAt(t, i, e)
  {
    SpacedIdEnds("Session", t, i, e);
    SpacedIdEnds("Txn", t, i, e);
    RefOrRrnEnds(["Ref", "RRN"], t, i, e);
  }

  lemma ReferenceMatches(t: string, m: nat)
    requires m <= |t|
    ensures First(REFERENCE, t, m).Some? <==> Run(t, IsReferenceChar, m, m + 10)
  {
    FirstOfChars(IsReferenceChar, 10, Some(32), t, m);
    RunLengthIsRun(IsReferenceChar, 32, t, m);
    if Run(t, IsReferenceChar, m, m + 10) { RunIsWithin(IsReferenceChar, 32, t, m, m + 10); }
  }

  /** The labelled pattern captures at a position exactly when a label stands there and a reference follows it. */
  lemma LabelledExactlyWhenReferenceFollows(t: string, i: nat)
    requires i <= |t|
    ensures CaptureHere(REFERENCE_LEAD, REFERENCE, t, i).Some?
       <==> exists e: nat :: LabelAt(t, i, e) && ReferenceFollows(t, e)
  {
    var mids := Ends(REFERENCE_LEAD, t, i);
    if CaptureHere(REFERENCE_LEAD, REFERENCE, t, i).Some? {
      var m := CaptureHere(REFERENCE_LEAD, REFERENCE, t, i).value.0;
      LeadEnds(t, i, m);
      ReferenceMatches(t, m);
    }
    if e: nat :| LabelAt(t, i, e) && ReferenceFollows(t, e) {
      var m: nat :| Run(t, IsSeparator, e, m) && Run(t, IsReferenceChar, m, m + 10);
      LeadEnds(t, i, m);
      ReferenceMatches(t, m);
      var k :| 0 <= k < |mids| && mids[k] == m;
    }
  }

  lemma LeadEnds(t: string, i: nat, m: nat)
    requires i <= |t|
    ensures m in Ends(REFERENCE_LEAD, t, i) <==> exists e: nat :: LabelAt(t, i, e) && Run(t, IsSeparator, e, m)
  {
    CatEnds(REFERENCE_LABEL, SEPARATORS, t, i, m);
    forall e: nat ensures e in Ends(REFERENCE_LABEL, t, i) <==> LabelAt(t, i, e) { LabelEnds(t, i, e); }
    forall e: nat | e <= |t| ensures m in Ends(SEPARATORS, t, e) <==> Run(t, IsSeparator, e, m) { RepeatEnds(IsSeparator, t, e, m); }
  }

  lemma OnlyThisLabel(word: string, t: string, i: nat, e: nat)
    requires word == "Session" || word == "Txn"
    requires WordAt(word, t, i) && LabelAt(t, i, e)
    ensures SpacedId(word, t, i, e)
  {
    assert LowerChar(t[i + 0]) == LowerChar(word[0]);
    CharDiffers("Ref", t, i, 0);
    CharDiffers("RRN", t, i, 0);
    CharDiffers(if word == "Session" then "Txn" else "Session", t, i, 0);
  }

  lemma SpacedIdIsUnique(word: string, t: string, i: nat, e: nat, e': nat)
    requires SpacedId(word, t, i, e) && SpacedId(word, t, i, e')
    ensures e == e'
  {
    var m: nat :| Run(t, IsSpace, i + |word|, m) && WordAt("ID", t, m) && e == m + 2;
    var m': nat :| Run(t, IsSpace, i + |word|, m') && WordAt("ID", t, m') && e' == m' + 2;
    assert LowerChar(t[m + 0]) == LowerChar("ID"[0]) && LowerChar(t[m' + 0]) == LowerChar("ID"[0]);
  }

  lemma LabelIsUnique(t: string, i: nat, e: nat, e': nat)
    requires LabelAt(t, i, e) && LabelAt(t, i, e')
    ensures e == e'
  {
    if WordAt("Session", t, i) || WordAt("Txn", t, i) {
      var word := if WordAt("Session", t, i) then "Session" else "Txn";
      OnlyThisLabel(word, t, i, e);
      OnlyThisLabel(word, t, i, e');
      SpacedIdIsUnique(word, t, i, e, e');
    }
  }

  /** Separators are no reference characters, so a reference starts where they end. */
  lemma ReferenceStartsOnce(t: string, e: nat, c: nat, m: nat)
    requires Run(t, IsSeparator, e, c) && Run(t, IsSeparator, e, m)
    requires Run(t, IsReferenceChar, c, c + 10) && Run(t, IsReferenceChar, m, m + 10)
    ensures c == m
  {
    assert IsReferenceChar(t[c]) && IsReferenceChar(t[m]);
  }

  lemma ReferenceEndsAt(t: string, m: nat, n: nat)
    requires 10 <= n <= 32 && Run(t, IsReferenceChar, m, m + n)
    requires n == 32 || m + n == |t| || !IsReferenceChar(t[m + n])
    ensures First(REFERENCE, t, m) == Some(m + n)
  {
    FirstOfChars(IsReferenceChar, 10, Some(32), t, m);
    RunLengthIsRun(IsReferenceChar, 32, t, m);
    RunIsWithin(IsReferenceChar, 32, t, m, m + n);
  }

  lemma CapturedStart(t: string, p: nat, e: nat, m: nat, c: nat)
    requires p <= |t| && LabelAt(t, p, e) && Run(t, IsSeparator, e, m) && Run(t, IsReferenceChar, m, m + 10)
    requires c in Ends(REFERENCE_LEAD, t, p) && c <= |t| && First(REFERENCE, t, c).Some?
    ensures c == m
  {
    LeadEnds(t, p, c);
    var e' :| LabelAt(t, p, e') && Run(t, IsSeparator, e', c);
    LabelIsUnique(t, p, e, e');
    ReferenceMatches(t, c);
    ReferenceStartsOnce(t, e, c, m);
  }

  lemma ReferenceIsCaptured(t: string, p: nat, e: nat, m: nat)
    requires p <= |t| && LabelAt(t, p, e) && Run(t, IsSeparator, e, m) && Run(t, IsReferenceChar, m, m + 10)
    ensures m <= |t| && First(REFERENCE, t, m).Some?
    ensures CaptureHere(REFERENCE_LEAD, REFERENCE, t, p) == Some((m, First(REFERENCE, t, m).value))
  {
    assert ReferenceFollows(t, e);
    LabelledExactlyWhenReferenceFollows(t, p);
    CapturedStart(t, p, e, m, CaptureHere(REFERENCE_LEAD, REFERENCE, t, p).value.0);
  }

  /** No label before `p` leads to a reference. */
  ghost predicate NoReferenceBefore(t: string, p: nat) {
    forall q: nat, e: nat :: q < p && LabelAt(t, q, e) ==> !ReferenceFollows(t, e)
  }

  lemma LabelledFound(t: string, p: nat, e: nat, m: nat)
    requires p <= |t| && LabelAt(t, p, e) && Run(t, IsSeparator, e, m) && Run(t, IsReferenceChar, m, m + 10)
    requires NoReferenceBefore(t, p)
    ensures m <= |t| && First(REFERENCE, t, m).Some?
    ensures Search(REFERENCE_LEAD, REFERENCE, t) == Some((m, First(REFERENCE, t, m).value))
  {
    ReferenceIsCaptured(t, p, e, m);
    forall q: nat | q < p ensures CaptureHere(REFERENCE_LEAD, REFERENCE, t, q).None? {
      LabelledExactlyWhenReferenceFollows(t, q);
    }
    FoundHere(REFERENCE_LEAD, REFERENCE, t, p);
  }

  /**
    What a label leads to: up to 32 letters, digits, hyphens and underscores after its separators,
    when no label before it leads to a reference.
   */
  lemma LabelledReferenceIsRead(text: string, p: nat, e: nat, m: nat, n: nat)
    requires p <= |text| && LabelAt(text, p, e) && Run(text, IsSeparator, e, m) && 10 <= n <= 32 && m + n <= |text|
    requires forall k :: m <= k < m + n ==> IsWordChar(text[k]) || text[k] == '-'
    requires n == 32 || m + n == |text| || !(IsWordChar(text[m + n]) || text[m + n] == '-')
    requires NoReferenceBefore(text, p)
    ensures LabelledReference(text) == Some(text[m..m + n])
  {
    assert Run(text, IsReferenceChar, m, m + n);
    LabelledFound(text, p, e, m);
    ReferenceEndsAt(text, m, n);
    assert text[m..m + n][0] == text[m] && text[m..m + n][n - 1] == text[m + n - 1];
    assert IsReferenceChar(text[m]) && IsReferenceChar(text[m + n - 1]);
    TrimKeeps(text[m..m + n]);
  }

  lemma LabelledIsWellFormed(text: string)
    ensures match LabelledReference(text)
            case None => true
            case Some(r) => 10 <= |r| <= 32 && Run(r, IsReferenceChar, 0, |r|)
  {
    var found := Search(REFERENCE_LEAD, REFERENCE, text);
    if found.Some? {
      var (m, e) := found.value;
      FoundSpan(REFERENCE_LEAD, REFERENCE, text);
      CharsSpan(IsReferenceChar, 10, 32, text, m, e);
      TrimKeeps(text[m..e]);
    }
  }

  /** An extracted reference is a session number or 10 to 32 reference characters, never less. */
  lemma ReferenceIsWellFormed(text: string)
    ensures match ExtractReference(text)
            case None => forall p: nat :: !SessionAt(text, p)
            case Some(r) =>
              || (exists p: nat :: SessionAt(text, p) && r == text[p..p + 30])
              || ((forall p: nat :: !SessionAt(text, p)) && 10 <= |r| <= 32 && Run(r, IsReferenceChar, 0, |r|))
  {
    SessionSearch(text);
    LabelledIsWellFormed(text);
  }

  // ---------- Narrations ----------

  const SHORTER_NARRATION_LEAD := Cat(OneOf(["Narration", "Desc", "Remark"]), SEPARATORS)

  lemma DescriptionStartsWithDesc(t: string, p: nat)
    requires WordAt("Description", t, p)
    ensures WordAt("Desc", t, p) && !IsSeparator(t[p + 4]) && IsInLine(t[p + 4])
  {
    assert forall k :: 0 <= k < 4 ==> "Desc"[k] == "Description"[k];
    assert LowerChar(t[p + 4]) == LowerChar("Description"[4]);
  }

  /** Right after the letters `Desc` of `Description` the narration is captured at once. */
  lemma DescCaptures(t: string, p: nat)
    requires WordAt("Description", t, p)
    ensures p + 4 < |t| && CaptureAt(NARRATION, t, Ends(SEPARATORS, t, p + 4)).Some?
  {
    DescriptionStartsWithDesc(t, p);
    FirstOfChars(IsSeparator, 0, None, t, p + 4);
    FirstOfChars(IsInLine, 1, None, t, p + 4);
  }

  lemma {:induction false} OneMoreWord(words: seq<string>, last: string, t: string, p: nat)
    requires words != [] && p <= |t|
    ensures Ends(OneOf(words + [last]), t, p)
         == Ends(OneOf(words), t, p) + if WordAt(last, t, p) then [p + |last|] else []
  {
    if |words| == 1 {
      assert (words + [last])[1..] == [last];
    } else {
      assert (words + [last])[1..] == words[1..] + [last];
      OneMoreWord(words[1..], last, t, p);
    }
  }

  /** A lead-in whose first way to match captures is as good as one with more ways. */
  lemma FirstWayDecides(group: Re, t: string, starts: seq<nat>, more: seq<nat>, p: nat)
    requires p <= |t| && Within(starts, p, |t|) && Within(more, p, |t|)
    requires starts != [] && CaptureAt(group, t, Ends(SEPARATORS, t, starts[0])).Some?
    ensures Within(starts + more, p, |t|)
    ensures CaptureAt(group, t, EndsFrom(SEPARATORS, t, starts + more, p))
         == CaptureAt(group, t, EndsFrom(SEPARATORS, t, starts, p))
  {
    EndsFromConcat(SEPARATORS, t, starts, more, p);
    EndsFromStep(SEPARATORS, t, starts, p);
    CaptureConcat(group, t, Ends(SEPARATORS, t, starts[0]), EndsFrom(SEPARATORS, t, starts[1..], p));
    CaptureConcat(group, t, EndsFrom(SEPARATORS, t, starts, p), EndsFrom(SEPARATORS, t, more, p));
  }

  lemma DescIsFirst(words: seq<string>, t: string, p: nat)
    requires words == ["Narration", "Desc", "Remark"] && WordAt("Description", t, p)
    ensures p + 11 <= |t| && First(OneOf(words), t, p) == Some(p + 4)
  {
    DescriptionStartsWithDesc(t, p);
    WordStartsAlike("Narration", t, p);
    WordStartsAlike("Description", t, p);
    FirstOfOneOf(words, 1, t, p);
  }

  lemma DescDecides(words: seq<string>, t: string, p: nat)
    requires words == ["Narration", "Desc", "Remark"] && WordAt("Description", t, p)
    ensures p + 11 <= |t|
    ensures var starts := Ends(OneOf(words), t, p);
            && Within(starts + [p + 11], p, |t|)
            && CaptureAt(NARRATION, t, EndsFrom(SEPARATORS, t, starts + [p + 11], p))
               == CaptureAt(NARRATION, t, EndsFrom(SEPARATORS, t, starts, p))
  {
    DescCaptures(t, p);
    DescIsFirst(words, t, p);
    FirstWayDecides(NARRATION, t, Ends(OneOf(words), t, p), [p + 11], p);
  }

  lemma DescriptionShadowedHere(words: seq<string>, all: seq<string>, t: string, p: nat)
    requires words == ["Narration", "Desc", "Remark"] && all == words + ["Description"] && p <= |t|
    ensures CaptureHere(Cat(OneOf(all), SEPARATORS), NARRATION, t, p)
         == CaptureHere(Cat(OneOf(words), SEPARATORS), NARRATION, t, p)
  {
    CaptureAfterCat(OneOf(words), SEPARATORS, NARRATION, t, p);
    CaptureAfterCat(OneOf(all), SEPARATORS, NARRATION, t, p);
    OneMoreWord(words, "Description", t, p);
    if WordAt("Description", t, p) {
      DescDecides(words, t, p);
    } else {
      assert Ends(OneOf(all), t, p) == Ends(OneOf(words), t, p);
    }
  }

  /** The alternative `Description` can never decide a match: `Desc` is tried first and succeeds. */
  lemma DescriptionNeverWins(text: string)
    ensures Search(NARRATION_LEAD, NARRATION, text) == Search(SHORTER_NARRATION_LEAD, NARRATION, text)
  {
    forall p: nat | p <= |text|
      ensures CaptureHere(NARRATION_LEAD, NARRATION, text, p) == CaptureHere(SHORTER_NARRATION_LEAD, NARRATION, text, p)
    {
      DescriptionShadowedHere(["Narration", "Desc", "Remark"], ["Narration", "Desc", "Remark", "Description"], text, p);
    }
    SameSearch(NARRATION_LEAD, SHORTER_NARRATION_LEAD, NARRATION, NARRATION, text);
  }

  lemma LongestRun(member: char -> bool, max: nat, t: string, i: nat, n: nat)
    requires Run(t, member, i, n) && n - i <= max
    requires n - i == max || n == |t| || !member(t[n])
    ensures RunLength(member, max, t, i) == n - i
  {
    RunLengthIsRun(member, max, t, i);
    RunIsWithin(member, max, t, i, n);
  }

  /** One of the words with which a narration begins stands at `p`. */
  ghost predicate NarrationWordAt(t: string, p: nat) {
    WordAt("Narration", t, p) || WordAt("Desc", t, p) || WordAt("Remark", t, p)
  }

  lemma NarrationLead(t: string, p: nat, word: string, words: seq<string>)
    requires words == ["Narration", "Desc", "Remark"] && word in words && WordAt(word, t, p)
    ensures p <= |t| && First(OneOf(words), t, p) == Some(p + |word|)
  {
    var k := if word == "Narration" then 0 else if word == "Desc" then 1 else 2;
    assert words[k] == word && LowerChar(t[p + 0]) == LowerChar(word[0]);
    forall j | 0 <= j < k ensures !WordAt(words[j], t, p) { CharDiffers(words[j], t, p, 0); }
    FirstOfOneOf(words, k, t, p);
  }

  lemma NoNarrationHere(t: string, q: nat, words: seq<string>)
    requires words == ["Narration", "Desc", "Remark"] && q <= |t| && !NarrationWordAt(t, q)
    ensures CaptureHere(Cat(OneOf(words), SEPARATORS), NARRATION, t, q).None?
  {
    if CaptureHere(Cat(OneOf(words), SEPARATORS), NARRATION, t, q).Some? {
      var c := CaptureHere(Cat(OneOf(words), SEPARATORS), NARRATION, t, q).value.0;
      var s := CatMember(OneOf(words), SEPARATORS, t, q, c);
      var k := OneOfMember(words, t, q, s);
      assert false;
    }
  }

  lemma CaptureInTurn(a: Re, b: Re, group: Re, t: string, p: nat, e: nat, m: nat, n: nat)
    requires EndsAt(a, t, p, e) && EndsAt(b, t, e, m) && EndsAt(group, t, m, n)
    ensures CaptureHere(Cat(a, b), group, t, p) == Some((m, n))
  {
    EndsAtInTurn(a, b, t, p, e, m);
    CaptureOfFirsts(Cat(a, b), group, t, p, m, n);
  }

  lemma SeparatorsTaken(t: string, e: nat, m: nat)
    requires Run(t, IsSeparator, e, m) && m < |t| && !IsSeparator(t[m])
    ensures First(SEPARATORS, t, e) == Some(m)
  {
    LongestRun(IsSeparator, |t|, t, e, m);
    FirstOfChars(IsSeparator, 0, None, t, e);
  }

  lemma LineTaken(t: string, m: nat, n: nat)
    requires m < n && Run(t, IsInLine, m, n) && (n == |t| || !IsInLine(t[n]))
    ensures First(NARRATION, t, m) == Some(n)
  {
    LongestRun(IsInLine, |t|, t, m, n);
    FirstOfChars(IsInLine, 1, None, t, m);
  }

  lemma NarrationCaptured(t: string, p: nat, word: string, m: nat, n: nat, words: seq<string>)
    requires words == ["Narration", "Desc", "Remark"] && word in words && WordAt(word, t, p)
    requires Run(t, IsSeparator, p + |word|, m) && m < n <= |t| && !IsSeparator(t[m])
    requires Run(t, IsInLine, m, n) && (n == |t| || !IsInLine(t[n]))
    ensures p <= |t| && CaptureHere(Cat(OneOf(words), SEPARATORS), NARRATION, t, p) == Some((m, n))
  {
    NarrationLead(t, p, word, words);
    SeparatorsTaken(t, p + |word|, m);
    LineTaken(t, m, n);
    CaptureInTurn(OneOf(words), SEPARATORS, NARRATION, t, p, p + |word|, m, n);
  }

  lemma NarrationFound(t: string, p: nat, word: string, m: nat, n: nat, words: seq<string>)
    requires words == ["Narration", "Desc", "Remark"] && word in words && WordAt(word, t, p)
    requires Run(t, IsSeparator, p + |word|, m) && m < n <= |t| && !IsSeparator(t[m])
    requires Run(t, IsInLine, m, n) && (n == |t| || !IsInLine(t[n]))
    requires forall q: nat :: q < p ==> !NarrationWordAt(t, q)
    ensures Search(Cat(OneOf(words), SEPARATORS), NARRATION, t) == Some((m, n))
  {
    NarrationCaptured(t, p, word, m, n, words);
    forall q: nat | q < p ensures CaptureHere(Cat(OneOf(words), SEPARATORS), NARRATION, t, q).None? {
      NoNarrationHere(t, q, words);
    }
    FoundHere(Cat(OneOf(words), SEPARATORS), NARRATION, t, p);
  }

  /** The narration is the rest of the line after the first such word and its separators, trimmed. */
  lemma NarrationIsRead(text: string, p: nat, word: string, m: nat, n: nat)
    requires word in ["Narration", "Desc", "Remark"] && WordAt(word, text, p)
    requires Run(text, IsSeparator, p + |word|, m) && m < n <= |text| && !IsSeparator(text[m])
    requires forall k :: m <= k < n ==> text[k] != '\n' && text[k] != '\r'
    requires n == |text| || text[n] == '\n' || text[n] == '\r'
    requires forall q: nat :: q < p ==> !NarrationWordAt(text, q)
    ensures ExtractNarration(text) == Some(Trim(text[m..n]))
  {
    assert Run(text, IsInLine, m, n);
    NarrationFound(text, p, word, m, n, ["Narration", "Desc", "Remark"]);
    DescriptionNeverWins(text);
  }

  // ---------- Dates ----------

  /** `n` digits stand at `p`. */
  ghost predicate DigitsAt(t: string, p: nat, n: nat) {
    p + n <= |t| && forall k :: p <= k < p + n ==> '0' <= t[k] <= '9'
  }

  ghost predicate MarkAt(t: string, p: nat) { p < |t| && (t[p] == '-' || t[p] == '/') }

  /** A date such as 2026-09-20, and one such as 20/09/2026. */
  ghost predicate IsoAt(t: string, p: nat) {
    DigitsAt(t, p, 4) && MarkAt(t, p + 4) && DigitsAt(t, p + 5, 2) && MarkAt(t, p + 7) && DigitsAt(t, p + 8, 2)
  }

  ghost predicate DayFirstAt(t: string, p: nat) {
    DigitsAt(t, p, 2) && MarkAt(t, p + 2) && DigitsAt(t, p + 3, 2) && MarkAt(t, p + 5) && DigitsAt(t, p + 6, 4)
  }

  lemma DigitsTaken(t: string, p: nat, n: nat, min: nat)
    requires DigitsAt(t, p, n) && min <= n
    ensures EndsAt(Chars(IsDigit, min, Some(n)), t, p, p + n)
  {
    LongestRun(IsDigit, n, t, p, p + n);
    FirstOfChars(IsDigit, min, Some(n), t, p);
  }

  lemma MarkTaken(t: string, p: nat)
    requires MarkAt(t, p)
    ensures EndsAt(DATE_MARK, t, p, p + 1)
  {
    LongestRun(IsDateMark, 1, t, p, p + 1);
    FirstOfChars(IsDateMark, 1, Some(1), t, p);
  }

  /** Five parts, one after the other. */
  lemma FiveInTurn(a: Re, b: Re, c: Re, d: Re, f: Re, t: string, p: nat, e1: nat, e2: nat, e3: nat, e4: nat, e5: nat)
    requires EndsAt(a, t, p, e1) && EndsAt(b, t, e1, e2) && EndsAt(c, t, e2, e3) && EndsAt(d, t, e3, e4) && EndsAt(f, t, e4, e5)
    ensures EndsAt(Cat(a, Cat(b, Cat(c, Cat(d, f)))), t, p, e5)
  {
    EndsAtInTurn(d, f, t, e3, e4, e5);
    ThreeInTurn(b, c, Cat(d, f), t, e1, e2, e3, e5);
    EndsAtInTurn(a, Cat(b, Cat(c, Cat(d, f))), t, p, e1, e5);
  }

  lemma DayFirstTaken(t: string, p: nat)
    requires DayFirstAt(t, p)
    ensures EndsAt(DAY_FIRST, t, p, p + 10)
  {
    DigitsTaken(t, p, 2, 1);
    MarkTaken(t, p + 2);
    DigitsTaken(t, p + 3, 2, 1);
    MarkTaken(t, p + 5);
    DigitsTaken(t, p + 6, 4, 2);
    FiveInTurn(Chars(IsDigit, 1, Some(2)), DATE_MARK, Chars(IsDigit, 1, Some(2)), DATE_MARK, Chars(IsDigit, 2, Some(4)),
               t, p, p + 2, p + 3, p + 5, p + 6, p + 10);
  }

  lemma YearFirstTaken(t: string, p: nat)
    requires IsoAt(t, p)
    ensures EndsAt(YEAR_FIRST, t, p, p + 10)
  {
    DigitsTaken(t, p, 4, 4);
    MarkTaken(t, p + 4);
    DigitsTaken(t, p + 5, 2, 1);
    MarkTaken(t, p + 7);
    DigitsTaken(t, p + 8, 2, 1);
    FiveInTurn(Chars(IsDigit, 4, Some(4)), DATE_MARK, Chars(IsDigit, 1, Some(2)), DATE_MARK, Chars(IsDigit, 1, Some(2)),
               t, p, p + 4, p + 5, p + 7, p + 8, p + 10);
  }

  /** After one or two of four digits stands another digit, and no mark. */
  lemma NotDayFirst(rest: Re, t: string, p: nat)
    requires DigitsAt(t, p, 4)
    ensures First(Cat(Chars(IsDigit, 1, Some(2)), Cat(DATE_MARK, rest)), t, p).None?
  {
    var whole := Cat(Chars(IsDigit, 1, Some(2)), Cat(DATE_MARK, rest));
    if First(whole, t, p).Some? {
      var e := First(whole, t, p).value;
      var s := CatMember(Chars(IsDigit, 1, Some(2)), Cat(DATE_MARK, rest), t, p, e);
      var m := CatMember(DATE_MARK, rest, t, s, e);
      assert false;
    }
  }

  lemma NoDateWithoutDigit(t: string, i: nat)
    requires i <= |t| && (i == |t| || !('0' <= t[i] <= '9'))
    ensures First(Alt(DAY_FIRST, YEAR_FIRST), t, i).None?
  {
    FirstOfChars(IsDigit, 1, Some(2), t, i);
    FirstOfChars(IsDigit, 4, Some(4), t, i);
    NoFirstPart(Chars(IsDigit, 1, Some(2)), DAY_FIRST.second, t, i);
    NoFirstPart(Chars(IsDigit, 4, Some(4)), YEAR_FIRST.second, t, i);
  }

  lemma NoFirstPart(a: Re, b: Re, t: string, i: nat)
    requires i <= |t| && First(a, t, i).None?
    ensures First(Cat(a, b), t, i).None?
  {
    FirstOfCatNone(a, b, t, i);
  }

  /** The first alternative that matches decides. */
  lemma FirstOfAlt(a: Re, b: Re, t: string, i: nat)
    requires i <= |t|
    ensures First(Alt(a, b), t, i) == if First(a, t, i).Some? then First(a, t, i) else First(b, t, i)
  {
  }

  lemma DateTaken(t: string, p: nat)
    requires IsoAt(t, p) || DayFirstAt(t, p)
    ensures EndsAt(Alt(DAY_FIRST, YEAR_FIRST), t, p, p + 10)
  {
    FirstOfAlt(DAY_FIRST, YEAR_FIRST, t, p);
    if DayFirstAt(t, p) {
      DayFirstTaken(t, p);
    } else {
      NotDayFirst(DAY_FIRST.second.second, t, p);
      YearFirstTaken(t, p);
    }
  }

  lemma NoLeadIn(group: Re, t: string, i: nat)
    requires i <= |t|
    ensures CaptureHere(Empty, group, t, i) == if First(group, t, i).Some? then Some((i, First(group, t, i).value)) else None
  {
    assert Ends(Empty, t, i) == [i];
  }

  /** The first date of a text before which no digit stands is what the host's parser is given. */
  lemma DateIsRead(text: string, p: nat, parse: string -> Option<int>)
    requires IsoAt(text, p) || DayFirstAt(text, p)
    requires forall q :: 0 <= q < p ==> !('0' <= text[q] <= '9')
    ensures p + 10 <= |text| && ExtractDate(text, parse) == parse(text[p..p + 10])
  {
    DateTaken(text, p);
    NoLeadIn(Alt(DAY_FIRST, YEAR_FIRST), text, p);
    forall q: nat | q < p ensures CaptureHere(Empty, Alt(DAY_FIRST, YEAR_FIRST), text, q).None? {
      NoDateWithoutDigit(text, q);
      NoLeadIn(Alt(DAY_FIRST, YEAR_FIRST), text, q);
    }
    FoundHere(Empty, Alt(DAY_FIRST, YEAR_FIRST), text, p);
  }

  // ---------- parseFinancialText ----------

  datatype Extracted = Extracted(
    amount: Option<Decimal>, reference: Option<string>, date: Option<int>, bank: Option<string>, narration: Option<string>,
    rawText: string, confidenceScore: int, warnings: seq<Warning>, requiresManualVerification: bool)

  datatype Warning = NoAmount | NoReference

  predicate Mentions(text: string, bank: string) { Test(BankPattern(bank), text) }

  /** A name mentioned as a word stands, in any letter case, between characters that belong to no word. */
  lemma MentionsInFields(text: string, bank: string)
    requires bank != "" && IsWordChar(bank[0]) && IsWordChar(bank[|bank| - 1])
    ensures Mentions(text, bank)
       <==> exists p: nat :: && WordAt(bank, text, p) && (p == 0 || !IsWordChar(text[p - 1]))
                             && (p + |bank| == |text| || !IsWordChar(text[p + |bank|]))
  {
    forall p: nat | p <= |text|
      ensures First(BankPattern(bank), text, p).Some?
         <==> && WordAt(bank, text, p) && (p == 0 || !IsWordChar(text[p - 1]))
              && (p + |bank| == |text| || !IsWordChar(text[p + |bank|]))
    {
      MentionedHere(text, bank, p);
    }
  }

  lemma MentionedHere(text: string, bank: string, p: nat)
    requires bank != "" && IsWordChar(bank[0]) && IsWordChar(bank[|bank| - 1]) && p <= |text|
    ensures First(BankPattern(bank), text, p).Some?
       <==> && WordAt(bank, text, p) && (p == 0 || !IsWordChar(text[p - 1]))
            && (p + |bank| == |text| || !IsWordChar(text[p + |bank|]))
  {
    var e := p + |bank|;
    if First(BankPattern(bank), text, p).Some? {
      var end := First(BankPattern(bank), text, p).value;
      var s := CatMember(Boundary, Cat(Word(bank), Boundary), text, p, end);
      var m := CatMember(Word(bank), Boundary, text, s, end);
      WordEnds(bank, text, s, m);
      assert s == p && m == e;
    }
    if WordAt(bank, text, p) {
      WordCharsMatch(bank, text, p);
      if AtBoundary(text, p) && AtBoundary(text, e) {
        WordEnds(bank, text, p, e);
        CatHas(Word(bank), Boundary, text, p, e, e);
        CatHas(Boundary, Cat(Word(bank), Boundary), text, p, p, e);
      }
    }
  }

  /** Letter case does not make a word character another kind of character. */
  lemma WordCharsMatch(word: string, t: string, p: nat)
    requires word != "" && WordAt(word, t, p) && IsWordChar(word[0]) && IsWordChar(word[|word| - 1])
    ensures IsWordChar(t[p]) && IsWordChar(t[p + |word| - 1])
  {
    assert LowerChar(t[p + 0]) == LowerChar(word[0]);
    assert LowerChar(t[p + (|word| - 1)]) == LowerChar(word[|word| - 1]);
  }

  /** The first bank of the list that the text mentions as a word. */
  ghost predicate FirstMentioned(text: string, banks: seq<string>, found: Option<string>) {
    match found
    case None => forall k :: 0 <= k < |banks| ==> !Mentions(text, banks[k])
    case Some(bank) =>
      exists k :: && 0 <= k < |banks| && bank == banks[k] && Mentions(text, bank)
                  && forall j :: 0 <= j < k ==> !Mentions(text, banks[j])
  }

  method RecogniseBank(text: string, banks: seq<string>) returns (extractedBank: Option<string>)
    ensures FirstMentioned(text, banks, extractedBank)
  {
    extractedBank := None;
    for k := 0 to |banks|
      invariant extractedBank == None
      invariant forall j :: 0 <= j < k ==> !Mentions(text, banks[j])
    {
      if Mentions(text, banks[k]) {
        extractedBank := Some(banks[k]);
        break;
      }
    }
  }

  method ParseFinancialText(text: string, parseDate: string -> Option<int>) returns (r: Extracted)
    ensures r.amount == ExtractAmount(text)
    ensures r.reference == ExtractReference(text)
    ensures r.date == ExtractDate(text, parseDate)
    ensures r.narration == ExtractNarration(text)
    ensures r.warnings == (if r.amount.None? then [NoAmount] else []) + (if r.reference.None? then [NoReference] else [])
    ensures r.confidenceScore == 85 - 20 * |r.warnings|
    ensures FirstMentioned(text, [
              "GTBank", "Guaranty Trust Bank", "Access Bank", "Zenith Bank", "First Bank", "UBA",
              "United Bank for Africa", "Kuda", "OPay", "Palmpay", "Moniepoint", "Stanbic IBTC",
              "Fidelity Bank", "Wema Bank", "Sterling Bank", "MTN", "Airtel", "EKEDC", "IKEDC"], r.bank)
    ensures r.rawText <= text && |r.rawText| == if |text| < 2000 then |text| else 2000
    ensures r.requiresManualVerification
  {
    var warnings: seq<Warning>, confidence := [], 85;

    // whenever the pattern is found its group is a number: see FoundAmountIsANumber
    var extractedAmount := ExtractAmount(text);
    if extractedAmount.None? {
      warnings := warnings + [NoAmount];
      confidence := confidence - 20;
    }

    var extractedReference := SessionReference(text);
    if extractedReference.None? {
      extractedReference := LabelledReference(text);
      if extractedReference.None? {
        warnings := warnings + [NoReference];
        confidence := confidence - 20;
      }
    }

    var extractedBank := RecogniseBank(text, BANKS);

    var extractedDate := ExtractDate(text, parseDate);

    var extractedNarration := ExtractNarration(text);

    var clamped := if confidence > 99 then 99 else confidence;
    r := Extracted(extractedAmount, extractedReference, extractedDate, extractedBank, extractedNarration,
                   if |text| < 2000 then text else text[..2000],
                   if clamped < 10 then 10 else clamped, warnings, true);
  }
}
