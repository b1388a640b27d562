/** Bank settlement rows out of CSV records: which column is read, and how an amount is cleaned. */
module Settlement {
  import opened Wrappers
  import opened Text
  import opened Nigeria

  /** A record of the CSV reader: its columns by header. */
  type Record = map<string, string>

  datatype SettlementRow = SettlementRow(
    reference: string, amount: Decimal, date: Option<string>, sender: Option<string>, narration: Option<string>)

  const REFERENCE_COLUMNS := ["Reference", "reference", "SessionID", "Session ID", "RRN", "Transaction ID"]
  const AMOUNT_COLUMNS := ["Amount", "amount", "Credit", "Credit (NGN)"]
  const DATE_COLUMNS := ["Date", "date", "Timestamp"]
  const SENDER_COLUMNS := ["Sender", "sender", "Payer"]
  const NARRATION_COLUMNS := ["Narration", "narration", "Description"]

  predicate IsAmountChar(c: char) { IsDigit(c) || c == '.' }

  /** The first of the columns that is present and not empty, as a chain of `||` picks it. */
  function Column(r: Record, names: seq<string>): (cell: Option<string>)
    ensures cell.None? ==> forall k :: 0 <= k < |names| && names[k] in r ==> r[names[k]] == ""
    ensures cell.Some? ==>
              cell.value != "" &&
              exists k :: && 0 <= k < |names| && names[k] in r && r[names[k]] == cell.value
                          && forall j :: 0 <= j < k && names[j] in r ==> r[names[j]] == ""
  {
    if names == [] then None
    else if names[0] in r && r[names[0]] != "" then Some(r[names[0]])
    else Column(r, names[1..])
  }

  function CleanAmount(raw: string): Decimal {
    ParseFloat(Keep(raw, IsAmountChar)).GetOr(Decimal(0, 0))
  }

  function ParseRow(r: Record): SettlementRow {
    SettlementRow(
      Trim(Column(r, REFERENCE_COLUMNS).GetOr("")),
      CleanAmount(Column(r, AMOUNT_COLUMNS).GetOr("0")),
      Column(r, DATE_COLUMNS), Column(r, SENDER_COLUMNS), Column(r, NARRATION_COLUMNS))
  }

  function ParseCsvSettlement(records: seq<Record>): seq<SettlementRow> {
    seq(|records|, i requires 0 <= i < |records| => ParseRow(records[i]))
  }

  /** Which columns a settlement row is read from, in the order of preference. */
  lemma RowInFields(r: Record)
    ensures var row := ParseRow(r);
            && row.reference == Trim(Column(r, ["Reference", "reference", "SessionID", "Session ID", "RRN", "Transaction ID"]).GetOr(""))
            && row.amount == CleanAmount(Column(r, ["Amount", "amount", "Credit", "Credit (NGN)"]).GetOr("0"))
            && row.date == Column(r, ["Date", "date", "Timestamp"])
            && row.sender == Column(r, ["Sender", "sender", "Payer"])
            && row.narration == Column(r, ["Narration", "narration", "Description"])
  {
  }

  /** A cell without digits and dots counts as nothing. */
  lemma NoAmountIsZero(raw: string)
    requires forall c :: c in raw ==> c != '.' && !('0' <= c <= '9')
    ensures CleanAmount(raw) == Decimal(0, 0)
  {
    KeepNone(raw, IsAmountChar);
  }

  lemma CleaningDropsDecoration(before: string, body: string, after: string)
    requires forall c :: c in before + after ==> !IsAmountChar(c)
    ensures Keep(before + body + after, IsAmountChar) == Keep(body, IsAmountChar)
  {
    forall c | c in before ensures !IsAmountChar(c) { assert c in before + after; }
    forall c | c in after ensures !IsAmountChar(c) { assert c in before + after; }
    KeepConcat(before + body, after, IsAmountChar);
    KeepConcat(before, body, IsAmountChar);
    KeepNone(before, IsAmountChar);
    KeepNone(after, IsAmountChar);
  }

  /**
    A printed amount comes back exactly from CSV cleaning, whatever text without digits and dots
    surrounds it; the sign does not, so a debit reads as a credit of the same size.
   */
  lemma PrintedAmountIsCleaned(kobo: int, before: string, after: string)
    requires forall c :: c in before + after ==> !IsAmountChar(c)
    ensures CleanAmount(before + FormatNaira(Some(kobo)) + after) == Decimal(Abs(kobo), 2)
  {
    var sign := if kobo < 0 then ['-', NAIRA] else [NAIRA];
    assert FormatNaira(Some(kobo)) == sign + Plain(Abs(kobo));
    assert before + FormatNaira(Some(kobo)) + after == (before + sign) + Plain(Abs(kobo)) + after;
    forall c | c in (before + sign) + after ensures !IsAmountChar(c) {
      if c in sign {
      } else {
        assert c in before + after;
      }
    }
    CleaningDropsDecoration(before + sign, Plain(Abs(kobo)), after);
    CleanedPlainParses(Abs(kobo), IsAmountChar);
  }

  /** The amount is recovered exactly when it is not negative. */
  lemma SignDecidesTheRoundTrip(kobo: int)
    ensures CleanAmount(FormatNaira(Some(kobo))).mantissa == kobo <==> 0 <= kobo
  {
    PrintedAmountIsCleaned(kobo, "", "");
    assert "" + FormatNaira(Some(kobo)) + "" == FormatNaira(Some(kobo));
  }

  /** Files that are read one after the other give the rows of the file that joins them. */
  lemma FilesConcatenate(a: seq<Record>, b: seq<Record>)
    ensures ParseCsvSettlement(a + b) == ParseCsvSettlement(a) + ParseCsvSettlement(b)
  {
    forall i | 0 <= i < |a + b|
      ensures ParseCsvSettlement(a + b)[i] == (ParseCsvSettlement(a) + ParseCsvSettlement(b))[i]
    {
      if i >= |a| { assert (a + b)[i] == b[i - |a|]; }
    }
  }

  function TotalKobo(rows: seq<SettlementRow>): nat {
    if rows == [] then 0 else TotalKobo(rows[..|rows| - 1]) + rows[|rows| - 1].amount.mantissa
  }

  function TotalOf(amounts: seq<int>): nat {
    if amounts == [] then 0 else TotalOf(amounts[..|amounts| - 1]) + Abs(amounts[|amounts| - 1])
  }

  lemma PrintedRowIsReadBack(r: Record, kobo: int)
    requires Column(r, AMOUNT_COLUMNS) == Some(FormatNaira(Some(kobo)))
    ensures ParseRow(r).amount == Decimal(Abs(kobo), 2)
  {
    var printed := FormatNaira(Some(kobo));
    PrintedAmountIsCleaned(kobo, "", "");
    assert "" + printed + "" == printed;
  }

  lemma {:induction false} TotalsAgree(rows: seq<SettlementRow>, amounts: seq<int>)
    requires |rows| == |amounts|
    requires forall i :: 0 <= i < |rows| ==> rows[i].amount == Decimal(Abs(amounts[i]), 2)
    ensures TotalKobo(rows) == TotalOf(amounts)
  {
    if rows != [] { TotalsAgree(rows[..|rows| - 1], amounts[..|rows| - 1]); }
  }

  /** A file whose amounts were printed in naira: each comes back to the kobo, and so does their total. */
  lemma PrintedFileIsReadBack(records: seq<Record>, amounts: seq<int>)
    requires |records| == |amounts|
    requires forall i :: 0 <= i < |records| ==> Column(records[i], AMOUNT_COLUMNS) == Some(FormatNaira(Some(amounts[i])))
    ensures forall i :: 0 <= i < |records| ==> ParseCsvSettlement(records)[i].amount == Decimal(Abs(amounts[i]), 2)
    ensures TotalKobo(ParseCsvSettlement(records)) == TotalOf(amounts)
  {
    forall i | 0 <= i < |records| ensures ParseCsvSettlement(records)[i].amount == Decimal(Abs(amounts[i]), 2) {
      PrintedRowIsReadBack(records[i], amounts[i]);
    }
    TotalsAgree(ParseCsvSettlement(records), amounts);
  }
}
