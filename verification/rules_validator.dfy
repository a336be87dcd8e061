/** The five business-rule checks run over the records once their fields are mapped.
    Each check reads canonical fields through the value resolver, scans the records
    in order, skips the records that lack what it needs, and stops at the first
    counter-example; the rules score is the percentage of checks that pass. */
module RulesValidator {
  import opened JsValues
  import opened FieldDetector

  const TotalsBalanceRule: string := "TOTALS_BALANCE"
  const LineMathRule: string := "LINE_MATH"
  const DateIsoRule: string := "DATE_ISO"
  const CurrencyAllowedRule: string := "CURRENCY_ALLOWED"
  const TrnPresentRule: string := "TRN_PRESENT"

  /** Both arithmetic rules accept a difference of up to one cent. */
  const Tolerance: real := 0.01

  const AllowedCurrencies: seq<string> := ["AED", "SAR", "MYR", "USD"]

  /** The outcome of one rule. An absent optional property is None; the optional
      `message` of the finding is never set by any rule, so it is not a field here. */
  datatype RuleFinding = RuleFinding(
    rule: string,
    ok: bool,
    exampleLine: Option<int>,
    expected: Option<real>,
    got: Option<real>,
    value: Option<string>)

  datatype RulesResult = RulesResult(findings: seq<RuleFinding>, score: int)

  // ---------------------------------------------------------------------------
  // First counter-example

  /** The index of the first true entry of `bad`, or |bad| when there is none. */
  function FirstBad(bad: seq<bool>): (i: nat)
    ensures i <= |bad|
    ensures forall j :: 0 <= j < i ==> !bad[j]
    ensures i < |bad| ==> bad[i]
    decreases |bad|
  {
    if bad == [] then 0
    else if bad[0] then 0
    else 1 + FirstBad(bad[1..])
  }

  /** The three facts above pin the index down. */
  lemma FirstBadIs(bad: seq<bool>, i: nat)
    requires i <= |bad|
    requires forall j :: 0 <= j < i ==> !bad[j]
    requires i < |bad| ==> bad[i]
    ensures FirstBad(bad) == i
  {
  }

  /** How a rule reads a canonical field of a record. */
  type Resolver = (Row, string) -> Option<Scalar>

  /** The resolver every rule uses: the value resolver over one coverage result. */
  function MappedValues(coverage: CoverageResult): Resolver
  {
    (row, getsField) => GetMappedValue(row, getsField, coverage)
  }

  /** A canonical field of a record as a number: None when the resolved value is
      null or undefined, or when parseFloat gives NaN. */
  function NumberAt(rt: JsRuntime, row: Row, getsField: string, resolve: Resolver): Option<real>
  {
    var v := resolve(row, getsField);
    if IsNullish(v) then None else ParseFloat(rt, v.value)
  }

  /** The optional value a string counter-example contributes: an empty string is
      falsy, so it is left out of the finding. */
  function Reported(s: string): (r: Option<string>)
  {
    if s == "" then None else Some(s)
  }

  // ---------------------------------------------------------------------------
  // TOTALS_BALANCE

  /** The totals of a record (excl. VAT, VAT, incl. VAT), when all three are present
      and numeric. */
  function Totals(rt: JsRuntime, row: Row, resolve: Resolver): Option<(real, real, real)>
  {
    var excl := NumberAt(rt, row, "invoice.total_excl_vat", resolve);
    var vat := NumberAt(rt, row, "invoice.vat_amount", resolve);
    var incl := NumberAt(rt, row, "invoice.total_incl_vat", resolve);
    if excl.Some? && vat.Some? && incl.Some? then Some((excl.value, vat.value, incl.value)) else None
  }

  /** A record that breaks the balance: its totals are known and excl. VAT plus VAT
      misses incl. VAT by more than the tolerance. */
  predicate Unbalanced(rt: JsRuntime, row: Row, resolve: Resolver)
  {
    Totals(rt, row, resolve).Some? &&
    var t := Totals(rt, row, resolve).value;
    Abs(t.0 + t.1 - t.2) > Tolerance
  }

  function UnbalancedRows(rt: JsRuntime, rows: seq<Row>, resolve: Resolver): (r: seq<bool>)
    ensures |r| == |rows|
    ensures forall j :: 0 <= j < |rows| ==> r[j] == Unbalanced(rt, rows[j], resolve)
  {
    seq(|rows|, j requires 0 <= j < |rows| => Unbalanced(rt, rows[j], resolve))
  }

  /** TOTALS_BALANCE fails exactly when some record is unbalanced, and only a
      failure carries an example. */
  function TotalsBalance(rt: JsRuntime, rows: seq<Row>, resolve: Resolver): (r: RuleFinding)
    ensures r.rule == TotalsBalanceRule && r.exampleLine == None && r.value == None
    ensures r.ok <==> forall j :: 0 <= j < |rows| ==> !Unbalanced(rt, rows[j], resolve)
    ensures r.ok <==> r.expected == None
    ensures r.ok <==> r.got == None
  {
    var bad := UnbalancedRows(rt, rows, resolve);
    var i := FirstBad(bad);
    if i == |rows| then
      RuleFinding(TotalsBalanceRule, true, None, None, None, None)
    else
      var t := Totals(rt, rows[i], resolve).value;
      RuleFinding(TotalsBalanceRule, false, None, Some(Round2(t.0 + t.1)), Some(Round2(t.2)), None)
  }

  /** The example comes from the first unbalanced record: its excl. VAT plus VAT
      and its incl. VAT, each rounded to two decimals. */
  lemma TotalsBalanceExample(rt: JsRuntime, rows: seq<Row>, resolve: Resolver, j: nat)
    requires j < |rows| && Unbalanced(rt, rows[j], resolve)
    requires forall k :: 0 <= k < j ==> !Unbalanced(rt, rows[k], resolve)
    ensures var t := Totals(rt, rows[j], resolve).value;
            var r := TotalsBalance(rt, rows, resolve);
            r.expected == Some(Round2(t.0 + t.1)) && r.got == Some(Round2(t.2))
  {
    FirstBadIs(UnbalancedRows(rt, rows, resolve), j);
  }

  method ValidateTotalsBalance(rt: JsRuntime, parsedData: seq<Row>, resolve: Resolver)
    returns (finding: RuleFinding)
    ensures finding == TotalsBalance(rt, parsedData, resolve)
  {
    var hasValidationFailure := false;
    var exampleExpected: Option<real> := None;
    var exampleGot: Option<real> := None;
    ghost var failedAt := |parsedData|;
    ghost var bad := UnbalancedRows(rt, parsedData, resolve);

    for i := 0 to |parsedData|
      invariant forall j :: 0 <= j < i ==> !bad[j]
      invariant !hasValidationFailure && failedAt == |parsedData|
    {
      var row := parsedData[i];
      var totalExclVat := resolve(row, "invoice.total_excl_vat");
      var vatAmount := resolve(row, "invoice.vat_amount");
      var totalInclVat := resolve(row, "invoice.total_incl_vat");
      if IsNullish(totalExclVat) || IsNullish(vatAmount) || IsNullish(totalInclVat) {
        continue;
      }
      var exclVat := ParseFloat(rt, totalExclVat.value);
      var vat := ParseFloat(rt, vatAmount.value);
      var inclVat := ParseFloat(rt, totalInclVat.value);
      if exclVat.None? || vat.None? || inclVat.None? {
        continue;
      }
      var expected := exclVat.value + vat.value;
      if Abs(expected - inclVat.value) > Tolerance {
        hasValidationFailure := true;
        exampleExpected := Some(Round2(expected));
        exampleGot := Some(Round2(inclVat.value));
        failedAt := i;
        break;
      }
    }

    FirstBadIs(bad, failedAt);
    finding := RuleFinding(TotalsBalanceRule, !hasValidationFailure, None,
      if hasValidationFailure && exampleExpected.Some? && exampleGot.Some? then exampleExpected else None,
      if hasValidationFailure && exampleExpected.Some? && exampleGot.Some? then exampleGot else None,
      None);
  }

  // ---------------------------------------------------------------------------
  // LINE_MATH

  /** The line figures of a record, when its quantity, unit price and line total are
      all present and numeric: quantity times unit price, and the stated total. */
  function LineFigures(rt: JsRuntime, row: Row, resolve: Resolver): Option<(real, real)>
  {
    var qty := NumberAt(rt, row, "lines[].qty", resolve);
    var price := NumberAt(rt, row, "lines[].unit_price", resolve);
    var total := NumberAt(rt, row, "lines[].line_total", resolve);
    if qty.Some? && price.Some? && total.Some? then Some((qty.value * price.value, total.value)) else None
  }

  /** A record whose line total misses quantity times unit price by more than the
      tolerance. */
  predicate LineMismatch(rt: JsRuntime, row: Row, resolve: Resolver)
  {
    LineFigures(rt, row, resolve).Some? &&
    var l := LineFigures(rt, row, resolve).value;
    Abs(l.0 - l.1) > Tolerance
  }

  function MismatchedRows(rt: JsRuntime, rows: seq<Row>, resolve: Resolver): (r: seq<bool>)
    ensures |r| == |rows|
    ensures forall j :: 0 <= j < |rows| ==> r[j] == LineMismatch(rt, rows[j], resolve)
  {
    seq(|rows|, j requires 0 <= j < |rows| => LineMismatch(rt, rows[j], resolve))
  }

  /** LINE_MATH fails exactly when some record's line does not add up, and only a
      failure carries an example. */
  function LineMath(rt: JsRuntime, rows: seq<Row>, resolve: Resolver): (r: RuleFinding)
    ensures r.rule == LineMathRule && r.value == None
    ensures r.ok <==> forall j :: 0 <= j < |rows| ==> !LineMismatch(rt, rows[j], resolve)
    ensures r.ok <==> r.exampleLine == None
    ensures r.ok <==> r.expected == None
    ensures r.ok <==> r.got == None
  {
    var i := FirstBad(MismatchedRows(rt, rows, resolve));
    if i == |rows| then
      RuleFinding(LineMathRule, true, None, None, None, None)
    else
      var l := LineFigures(rt, rows[i], resolve).value;
      RuleFinding(LineMathRule, false, Some(i + 1), Some(Round2(l.0)), Some(Round2(l.1)), None)
  }

  /** The example is the first mismatched record: its 1-based position, and its
      product and stated total rounded to two decimals. */
  lemma LineMathExample(rt: JsRuntime, rows: seq<Row>, resolve: Resolver, j: nat)
    requires j < |rows| && LineMismatch(rt, rows[j], resolve)
    requires forall k :: 0 <= k < j ==> !LineMismatch(rt, rows[k], resolve)
    ensures var l := LineFigures(rt, rows[j], resolve).value;
            var r := LineMath(rt, rows, resolve);
            r.exampleLine == Some(j + 1) && r.expected == Some(Round2(l.0)) && r.got == Some(Round2(l.1))
  {
    FirstBadIs(MismatchedRows(rt, rows, resolve), j);
  }

  method ValidateLineMath(rt: JsRuntime, parsedData: seq<Row>, resolve: Resolver)
    returns (finding: RuleFinding)
    ensures finding == LineMath(rt, parsedData, resolve)
  {
    var hasValidationFailure := false;
    var exampleLine: Option<int> := None;
    var exampleExpected: Option<real> := None;
    var exampleGot: Option<real> := None;
    ghost var failedAt := |parsedData|;
    ghost var bad := MismatchedRows(rt, parsedData, resolve);

    for i := 0 to |parsedData|
      invariant forall j :: 0 <= j < i ==> !bad[j]
      invariant !hasValidationFailure && failedAt == |parsedData|
    {
      var row := parsedData[i];
      var qty := resolve(row, "lines[].qty");
      var unitPrice := resolve(row, "lines[].unit_price");
      var lineTotal := resolve(row, "lines[].line_total");
      if IsNullish(qty) || IsNullish(unitPrice) || IsNullish(lineTotal) {
        continue;
      }
      var quantity := ParseFloat(rt, qty.value);
      var price := ParseFloat(rt, unitPrice.value);
      var total := ParseFloat(rt, lineTotal.value);
      if quantity.None? || price.None? || total.None? {
        continue;
      }
      var expected := quantity.value * price.value;
      assert LineFigures(rt, row, resolve).Some?;
      assert LineFigures(rt, row, resolve).value.0 == expected;
      if Abs(expected - total.value) > Tolerance {
        hasValidationFailure := true;
        exampleLine := Some(i + 1);
        exampleExpected := Some(Round2(expected));
        exampleGot := Some(Round2(total.value));
        failedAt := i;
        break;
      }
    }

    FirstBadIs(bad, failedAt);
    var example := hasValidationFailure && exampleLine.Some? && exampleExpected.Some? && exampleGot.Some?;
    finding := RuleFinding(LineMathRule, !hasValidationFailure,
      if example then exampleLine else None,
      if example then exampleExpected else None,
      if example then exampleGot else None,
      None);
  }

  // ---------------------------------------------------------------------------
  // DATE_ISO

  /** The issue date of a record as a string, when it is present. */
  function IssueDate(rt: JsRuntime, row: Row, resolve: Resolver): Option<string>
  {
    var v := resolve(row, "invoice.issue_date");
    if IsNullish(v) then None else Some(ToJsString(rt, v.value))
  }

  /** A present issue date that is not shaped YYYY-MM-DD, or does not denote a date. */
  predicate BadDate(rt: JsRuntime, row: Row, resolve: Resolver)
  {
    IssueDate(rt, row, resolve).Some? &&
    var s := IssueDate(rt, row, resolve).value;
    !IsIsoDateShape(s) || !rt.validDate(s)
  }

  function BadDateRows(rt: JsRuntime, rows: seq<Row>, resolve: Resolver): (r: seq<bool>)
    ensures |r| == |rows|
    ensures forall j :: 0 <= j < |rows| ==> r[j] == BadDate(rt, rows[j], resolve)
  {
    seq(|rows|, j requires 0 <= j < |rows| => BadDate(rt, rows[j], resolve))
  }

  /** DATE_ISO fails exactly when some record has a bad issue date; it never reports
      a line or numbers, and a passing finding reports no value. */
  function DateIso(rt: JsRuntime, rows: seq<Row>, resolve: Resolver): (r: RuleFinding)
    ensures r.rule == DateIsoRule && r.exampleLine == None && r.expected == None && r.got == None
    ensures r.ok <==> forall j :: 0 <= j < |rows| ==> !BadDate(rt, rows[j], resolve)
    ensures r.ok ==> r.value == None
  {
    var i := FirstBad(BadDateRows(rt, rows, resolve));
    if i == |rows| then
      RuleFinding(DateIsoRule, true, None, None, None, None)
    else
      RuleFinding(DateIsoRule, false, None, None, None, Reported(IssueDate(rt, rows[i], resolve).value))
  }

  /** The example is the first bad date verbatim, unless it is the empty string. */
  lemma DateIsoExample(rt: JsRuntime, rows: seq<Row>, resolve: Resolver, j: nat)
    requires j < |rows| && BadDate(rt, rows[j], resolve)
    requires forall k :: 0 <= k < j ==> !BadDate(rt, rows[k], resolve)
    ensures var s := IssueDate(rt, rows[j], resolve).value;
            DateIso(rt, rows, resolve).value == if s == "" then None else Some(s)
  {
    FirstBadIs(BadDateRows(rt, rows, resolve), j);
  }

  method ValidateDateIso(rt: JsRuntime, parsedData: seq<Row>, resolve: Resolver)
    returns (finding: RuleFinding)
    ensures finding == DateIso(rt, parsedData, resolve)
  {
    var hasValidationFailure := false;
    var exampleBadValue: Option<string> := None;
    ghost var failedAt := |parsedData|;
    ghost var bad := BadDateRows(rt, parsedData, resolve);

    for i := 0 to |parsedData|
      invariant forall j :: 0 <= j < i ==> !bad[j]
      invariant !hasValidationFailure && failedAt == |parsedData|
    {
      var issueDate := resolve(parsedData[i], "invoice.issue_date");
      if IsNullish(issueDate) {
        continue;
      }
      var dateString := ToJsString(rt, issueDate.value);
      if !IsIsoDateShape(dateString) {
        hasValidationFailure := true;
        exampleBadValue := Some(dateString);
        failedAt := i;
        break;
      }
      if !rt.validDate(dateString) {
        hasValidationFailure := true;
        exampleBadValue := Some(dateString);
        failedAt := i;
        break;
      }
    }

    FirstBadIs(bad, failedAt);
    finding := RuleFinding(DateIsoRule, !hasValidationFailure, None, None, None,
      if hasValidationFailure && exampleBadValue.Some? && exampleBadValue.value != "" then exampleBadValue else None);
  }

  // ---------------------------------------------------------------------------
  // CURRENCY_ALLOWED

  /** The currency of a record upper-cased, when it is present. */
  function CurrencyCode(rt: JsRuntime, row: Row, resolve: Resolver): Option<string>
  {
    var v := resolve(row, "invoice.currency");
    if IsNullish(v) then None else Some(ToUpper(ToJsString(rt, v.value)))
  }

  predicate BadCurrency(rt: JsRuntime, row: Row, resolve: Resolver)
  {
    CurrencyCode(rt, row, resolve).Some? && CurrencyCode(rt, row, resolve).value !in AllowedCurrencies
  }

  function BadCurrencyRows(rt: JsRuntime, rows: seq<Row>, resolve: Resolver): (r: seq<bool>)
    ensures |r| == |rows|
    ensures forall j :: 0 <= j < |rows| ==> r[j] == BadCurrency(rt, rows[j], resolve)
  {
    seq(|rows|, j requires 0 <= j < |rows| => BadCurrency(rt, rows[j], resolve))
  }

  /** CURRENCY_ALLOWED fails exactly when some record's upper-cased currency is not
      one of AED, SAR, MYR and USD; a reported value is never lower-case. */
  function CurrencyAllowed(rt: JsRuntime, rows: seq<Row>, resolve: Resolver): (r: RuleFinding)
    ensures r.rule == CurrencyAllowedRule && r.exampleLine == None && r.expected == None && r.got == None
    ensures r.ok <==> forall j :: 0 <= j < |rows| ==> !BadCurrency(rt, rows[j], resolve)
    ensures r.ok ==> r.value == None
    ensures r.value.Some? ==> r.value.value !in AllowedCurrencies &&
                              forall k :: 0 <= k < |r.value.value| ==> !IsAsciiLower(r.value.value[k])
  {
    var i := FirstBad(BadCurrencyRows(rt, rows, resolve));
    if i == |rows| then
      RuleFinding(CurrencyAllowedRule, true, None, None, None, None)
    else
      RuleFinding(CurrencyAllowedRule, false, None, None, None, Reported(CurrencyCode(rt, rows[i], resolve).value))
  }

  /** The example is the first disallowed currency, upper-cased, unless it is empty. */
  lemma CurrencyAllowedExample(rt: JsRuntime, rows: seq<Row>, resolve: Resolver, j: nat)
    requires j < |rows| && BadCurrency(rt, rows[j], resolve)
    requires forall k :: 0 <= k < j ==> !BadCurrency(rt, rows[k], resolve)
    ensures var s := CurrencyCode(rt, rows[j], resolve).value;
            CurrencyAllowed(rt, rows, resolve).value == if s == "" then None else Some(s)
  {
    FirstBadIs(BadCurrencyRows(rt, rows, resolve), j);
  }

  method ValidateCurrencyAllowed(rt: JsRuntime, parsedData: seq<Row>, resolve: Resolver)
    returns (finding: RuleFinding)
    ensures finding == CurrencyAllowed(rt, parsedData, resolve)
  {
    var allowedCurrencies := AllowedCurrencies;
    var hasValidationFailure := false;
    var exampleBadValue: Option<string> := None;
    ghost var failedAt := |parsedData|;
    ghost var bad := BadCurrencyRows(rt, parsedData, resolve);

    for i := 0 to |parsedData|
      invariant forall j :: 0 <= j < i ==> !bad[j]
      invariant !hasValidationFailure && failedAt == |parsedData|
    {
      var currency := resolve(parsedData[i], "invoice.currency");
      if IsNullish(currency) {
        continue;
      }
      var currencyString := ToUpper(ToJsString(rt, currency.value));
      if currencyString !in allowedCurrencies {
        hasValidationFailure := true;
        exampleBadValue := Some(currencyString);
        failedAt := i;
        break;
      }
    }

    FirstBadIs(bad, failedAt);
    finding := RuleFinding(CurrencyAllowedRule, !hasValidationFailure, None, None, None,
      if hasValidationFailure && exampleBadValue.Some? && exampleBadValue.value != "" then exampleBadValue else None);
  }

  // ---------------------------------------------------------------------------
  // TRN_PRESENT

  /** A TRN is valid when it is neither null nor undefined and not empty once trimmed. */
  predicate TrnValid(rt: JsRuntime, v: Option<Scalar>)
  {
    !IsNullish(v) && Trim(ToJsString(rt, v.value)) != ""
  }

  /** Validity of a TRN without trimming: present, and not only white space. */
  lemma TrnValidIff(rt: JsRuntime, v: Option<Scalar>)
    ensures TrnValid(rt, v) <==> !IsNullish(v) && !IsBlank(ToJsString(rt, v.value))
  {
    if !IsNullish(v) {
      TrimEmptyIffBlank(ToJsString(rt, v.value));
    }
  }

  predicate TrnMissing(rt: JsRuntime, row: Row, resolve: Resolver)
  {
    !TrnValid(rt, resolve(row, "buyer.trn")) || !TrnValid(rt, resolve(row, "seller.trn"))
  }

  function TrnMissingRows(rt: JsRuntime, rows: seq<Row>, resolve: Resolver): (r: seq<bool>)
    ensures |r| == |rows|
    ensures forall j :: 0 <= j < |rows| ==> r[j] == TrnMissing(rt, rows[j], resolve)
  {
    seq(|rows|, j requires 0 <= j < |rows| => TrnMissing(rt, rows[j], resolve))
  }

  /** TRN_PRESENT skips no record and carries no example at all. */
  function TrnPresent(rt: JsRuntime, rows: seq<Row>, resolve: Resolver): (r: RuleFinding)
    ensures r.rule == TrnPresentRule
    ensures r.exampleLine == None && r.expected == None && r.got == None && r.value == None
    ensures r.ok <==> forall j :: 0 <= j < |rows| ==> !TrnMissing(rt, rows[j], resolve)
  {
    RuleFinding(TrnPresentRule, FirstBad(TrnMissingRows(rt, rows, resolve)) == |rows|, None, None, None, None)
  }

  /** TRN_PRESENT passes exactly when every record has both TRNs present and holding
      something other than white space. */
  lemma TrnPresentIffNonBlank(rt: JsRuntime, rows: seq<Row>, resolve: Resolver)
    ensures TrnPresent(rt, rows, resolve).ok <==>
            forall j :: 0 <= j < |rows| ==>
              var buyer := resolve(rows[j], "buyer.trn");
              var seller := resolve(rows[j], "seller.trn");
              !IsNullish(buyer) && !IsBlank(ToJsString(rt, buyer.value)) &&
              !IsNullish(seller) && !IsBlank(ToJsString(rt, seller.value))
  {
    forall j | 0 <= j < |rows|
      ensures !TrnMissing(rt, rows[j], resolve) <==>
                var buyer := resolve(rows[j], "buyer.trn");
                var seller := resolve(rows[j], "seller.trn");
                !IsNullish(buyer) && !IsBlank(ToJsString(rt, buyer.value)) &&
                !IsNullish(seller) && !IsBlank(ToJsString(rt, seller.value))
    {
      TrnValidIff(rt, resolve(rows[j], "buyer.trn"));
      TrnValidIff(rt, resolve(rows[j], "seller.trn"));
    }
  }

  method ValidateTrnPresent(rt: JsRuntime, parsedData: seq<Row>, resolve: Resolver)
    returns (finding: RuleFinding)
    ensures finding == TrnPresent(rt, parsedData, resolve)
  {
    var hasValidationFailure := false;
    ghost var failedAt := |parsedData|;
    ghost var bad := TrnMissingRows(rt, parsedData, resolve);

    for i := 0 to |parsedData|
      invariant forall j :: 0 <= j < i ==> !bad[j]
      invariant !hasValidationFailure && failedAt == |parsedData|
    {
      var buyerTrn := resolve(parsedData[i], "buyer.trn");
      var sellerTrn := resolve(parsedData[i], "seller.trn");
      var buyerTrnValid := !IsNullish(buyerTrn) && Trim(ToJsString(rt, buyerTrn.value)) != "";
      var sellerTrnValid := !IsNullish(sellerTrn) && Trim(ToJsString(rt, sellerTrn.value)) != "";
      if !buyerTrnValid || !sellerTrnValid {
        hasValidationFailure := true;
        failedAt := i;
        break;
      }
    }

    FirstBadIs(bad, failedAt);
    finding := RuleFinding(TrnPresentRule, !hasValidationFailure, None, None, None, None);
  }

  // ---------------------------------------------------------------------------
  // All five rules

  /** `findings.filter(f => f.ok).length` */
  function CountOk(findings: seq<RuleFinding>): (n: nat)
    ensures n <= |findings|
    ensures n == |findings| <==> forall i :: 0 <= i < |findings| ==> findings[i].ok
    decreases |findings|
  {
    if findings == [] then 0
    else CountOk(findings[..|findings| - 1]) + (if findings[|findings| - 1].ok then 1 else 0)
  }

  function Findings(rt: JsRuntime, rows: seq<Row>, resolve: Resolver): seq<RuleFinding>
  {
    [TotalsBalance(rt, rows, resolve), LineMath(rt, rows, resolve), DateIso(rt, rows, resolve),
     CurrencyAllowed(rt, rows, resolve), TrnPresent(rt, rows, resolve)]
  }

  /** `Math.round(passed / findings.length * 100)`: with the five findings of a run,
      20 points per passing rule. */
  function Score(findings: seq<RuleFinding>): (score: int)
    requires findings != []
    ensures |findings| == 5 ==> score == 20 * CountOk(findings)
    ensures |findings| == 5 ==> 0 <= score <= 100 && score % 20 == 0
    ensures |findings| == 5 ==> (score == 100 <==> forall i :: 0 <= i < 5 ==> findings[i].ok)
  {
    var passed := CountOk(findings);
    if |findings| == 5 then
      assert passed as real / |findings| as real * 100.0 == (20 * passed) as real;
      RoundOfInt(20 * passed);
      Round(passed as real / |findings| as real * 100.0)
    else
      Round(passed as real / |findings| as real * 100.0)
  }

  /** Five findings in the fixed rule order, scored as above. */
  function Rules(rt: JsRuntime, rows: seq<Row>, resolve: Resolver): (r: RulesResult)
    ensures |r.findings| == 5
    ensures r.findings[0].rule == TotalsBalanceRule && r.findings[1].rule == LineMathRule &&
            r.findings[2].rule == DateIsoRule && r.findings[3].rule == CurrencyAllowedRule &&
            r.findings[4].rule == TrnPresentRule
    ensures r.score == Score(r.findings)
  {
    var findings := Findings(rt, rows, resolve);
    RulesResult(findings, Score(findings))
  }

  /** Runs the five rules and pushes their findings, in rule order, onto an empty
      list. */
  method ValidateRules(rt: JsRuntime, parsedData: seq<Row>, coverage: CoverageResult)
    returns (result: RulesResult)
    ensures result == Rules(rt, parsedData, MappedValues(coverage))
  {
    var resolve := MappedValues(coverage);
    var totals := ValidateTotalsBalance(rt, parsedData, resolve);
    var lines := ValidateLineMath(rt, parsedData, resolve);
    var dates := ValidateDateIso(rt, parsedData, resolve);
    var currencies := ValidateCurrencyAllowed(rt, parsedData, resolve);
    var trns := ValidateTrnPresent(rt, parsedData, resolve);
    var findings := [totals, lines, dates, currencies, trns];
    result := RulesResult(findings, Score(findings));
  }

  /** With no records every rule passes and the score is 100. */
  lemma NoRecordsAllPass(rt: JsRuntime, resolve: Resolver)
    ensures var r := Rules(rt, [], resolve);
            r.score == 100 && forall i :: 0 <= i < |r.findings| ==> r.findings[i].ok
  {
  }

  /** An issue date the coverage neither matched nor found close resolves to
      undefined in every record, so DATE_ISO skips them all and passes. */
  lemma UnmappedDatePasses(rt: JsRuntime, rows: seq<Row>, coverage: CoverageResult)
    requires "invoice.issue_date" !in coverage.matched
    requires "invoice.issue_date" !in CloseTargets(coverage.close)
    ensures DateIso(rt, rows, MappedValues(coverage)).ok
  {
    forall j | 0 <= j < |rows| ensures !BadDate(rt, rows[j], MappedValues(coverage)) {
      assert MappedValues(coverage)(rows[j], "invoice.issue_date") == None;
    }
  }

  /** A buyer TRN the coverage neither matched nor found close is missing from every
      record, so TRN_PRESENT fails as soon as there is one. */
  lemma UnmappedTrnFails(rt: JsRuntime, rows: seq<Row>, coverage: CoverageResult)
    requires rows != []
    requires "buyer.trn" !in coverage.matched
    requires "buyer.trn" !in CloseTargets(coverage.close)
    ensures !TrnPresent(rt, rows, MappedValues(coverage)).ok
  {
    assert MappedValues(coverage)(rows[0], "buyer.trn") == None;
    assert TrnMissing(rt, rows[0], MappedValues(coverage));
  }
}
