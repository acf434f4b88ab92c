/**
 * The records of the commission application that the engine reads and
 * writes, with their `__str__` renderings. Foreign keys are kept as ids;
 * a rendering that follows a foreign key takes the related value as a
 * parameter.
 */
module Models {
  import opened Wrappers
  import opened Calendar
  import opened Formatting

  /**
   * Django's `get_FOO_display()`: the label of `code` in `choices`, or `code`
   * itself when it is not a choice. The choices are read into a dictionary,
   * so a code listed twice shows the label of its last entry.
   */
  function ChoiceLabel(choices: seq<(string, string)>, code: string): (display: string)
    ensures (forall i :: 0 <= i < |choices| ==> choices[i].0 != code) ==> display == code
    ensures forall i :: (0 <= i < |choices| && choices[i].0 == code
      && (forall j :: i < j < |choices| ==> choices[j].0 != code)) ==> display == choices[i].1
  {
    if |choices| == 0 then code
    else if choices[|choices| - 1].0 == code then choices[|choices| - 1].1
    else
      var init := choices[..|choices| - 1];
      assert forall i :: 0 <= i < |init| ==> init[i] == choices[i];
      ChoiceLabel(init, code)
  }

  // ---------------------------------------------------------------- Product

  const CategoryChoices: seq<(string, string)> :=
    [("INSURANCE", "Insurance"), ("PENSION", "Pension"), ("FINANCIAL", "Financial")]

  /** A product; `category` holds whatever string was stored, a choice code or not. */
  datatype Product = Product(id: nat, name: string, category: string)

  /** `Product.__str__`: "{name} ({category label})". */
  function ProductToString(p: Product): (r: string)
    ensures |r| == |p.name| + |ChoiceLabel(CategoryChoices, p.category)| + 3
    ensures r[..|p.name|] == p.name && r[|p.name|..|p.name| + 2] == " (" && r[|r| - 1] == ')'
    ensures r[|p.name| + 2..|r| - 1] == ChoiceLabel(CategoryChoices, p.category)
  {
    p.name + " (" + ChoiceLabel(CategoryChoices, p.category) + ")"
  }

  /** The three category codes display as their labels; any other stored string displays as itself. */
  lemma CategoryLabels(code: string)
    ensures ChoiceLabel(CategoryChoices, "INSURANCE") == "Insurance"
    ensures ChoiceLabel(CategoryChoices, "PENSION") == "Pension"
    ensures ChoiceLabel(CategoryChoices, "FINANCIAL") == "Financial"
    ensures code !in {"INSURANCE", "PENSION", "FINANCIAL"} ==> ChoiceLabel(CategoryChoices, code) == code
  {
    assert forall i :: 0 <= i < |CategoryChoices| ==> CategoryChoices[i].0 in {"INSURANCE", "PENSION", "FINANCIAL"};
  }

  // ----------------------------------------------------------- PaymentTerms

  /** The payment-type choices; the engine treats every type other than DAY_OF_MONTH as SPECIFIC_DATE. */
  datatype PaymentType = DayOfMonth | SpecificDate

  /** Both value fields are nullable; which one is meant depends on `paymentType`. */
  datatype PaymentTerms = PaymentTerms(
    id: nat,
    paymentType: PaymentType,
    dayOfMonth: Option<int>,
    specificDate: Option<Date>)

  /** What the storage guarantees of any row: a stored date is a real date. */
  predicate StoredTerms(p: PaymentTerms) {
    p.specificDate.Some? ==> ValidDate(p.specificDate.value)
  }

  /** The field that `paymentType` selects is present. */
  predicate WellFormedTerms(p: PaymentTerms) {
    StoredTerms(p) &&
    match p.paymentType
    case DayOfMonth => p.dayOfMonth.Some?
    case SpecificDate => p.specificDate.Some?
  }

  const DayPrefix := "Day "
  const DaySuffix := " of each month"
  const AnnualPrefix := "Annually on "

  /** `PaymentTerms.__str__`; a null field renders as Python's "None". */
  function PaymentTermsToString(p: PaymentTerms): (r: string)
    requires StoredTerms(p)
    ensures p.paymentType == DayOfMonth ==>
      |r| > |DayPrefix| + |DaySuffix| && r[..|DayPrefix|] == DayPrefix && r[|r| - |DaySuffix|..] == DaySuffix
      && r[|DayPrefix|..|r| - |DaySuffix|] == (if p.dayOfMonth.Some? then IntToString(p.dayOfMonth.value) else "None")
    ensures p.paymentType == SpecificDate ==>
      |r| > |AnnualPrefix| && r[..|AnnualPrefix|] == AnnualPrefix
      && r[|AnnualPrefix|..] == (if p.specificDate.Some? then DateToString(p.specificDate.value) else "None")
  {
    if p.paymentType == DayOfMonth then
      DayPrefix + (if p.dayOfMonth.Some? then IntToString(p.dayOfMonth.value) else "None") + DaySuffix
    else
      AnnualPrefix + (if p.specificDate.Some? then DateToString(p.specificDate.value) else "None")
  }

  /** Well-formed terms that render alike have the same type and the same day or date. */
  lemma PaymentTermsToStringDeterminesTerms(a: PaymentTerms, b: PaymentTerms)
    requires WellFormedTerms(a) && WellFormedTerms(b)
    ensures PaymentTermsToString(a) == PaymentTermsToString(b) ==>
      && a.paymentType == b.paymentType
      && (a.paymentType == DayOfMonth ==> a.dayOfMonth == b.dayOfMonth)
      && (a.paymentType == SpecificDate ==> a.specificDate == b.specificDate)
  {
    if PaymentTermsToString(a) != PaymentTermsToString(b) {
    } else if a.paymentType == b.paymentType == DayOfMonth {
      IntToStringInjective(a.dayOfMonth.value, b.dayOfMonth.value);
    } else if a.paymentType == b.paymentType == SpecificDate {
      DateToStringInjective(a.specificDate.value, b.specificDate.value);
    }
  }

  // ---------------------------------------------- Agreement and structures

  datatype Agreement = Agreement(id: nat, agent: nat, company: nat)

  /** `rate` is a DecimalField(max_digits=5, decimal_places=2): hundredths, at most 999.99 in magnitude. */
  const MaxRateHundredths: int := 99999

  predicate RateFits(hundredths: int) {
    -MaxRateHundredths <= hundredths <= MaxRateHundredths
  }

  /** The commission-type choice codes; the column itself holds any string. */
  const ScopeType := "SCOPE"
  const RecurringType := "RECURRING"

  /** A commission structure; its own `agent` column is distinct from its agreement's agent. */
  datatype CommissionStructure = CommissionStructure(
    id: nat,
    agent: nat,
    product: nat,
    commissionType: string,
    rateHundredths: int,
    terms: PaymentTerms,
    agreement: Agreement)

  /** What the storage guarantees of a structure row. */
  predicate StoredStructure(s: CommissionStructure) {
    RateFits(s.rateHundredths) && StoredTerms(s.terms)
  }

  /** The decimal value of the rate. */
  function Rate(s: CommissionStructure): real {
    s.rateHundredths as real / 100.0
  }

  /** `CommissionStructure.__str__`: "{agent username} - {product name} - {commission type}". */
  function CommissionStructureToString(agentUsername: string, productName: string, s: CommissionStructure): (r: string)
    ensures |r| == |agentUsername| + |productName| + |s.commissionType| + 6
    ensures r[..|agentUsername|] == agentUsername
    ensures r[|agentUsername|..|agentUsername| + 3] == " - "
    ensures r[|agentUsername| + 3..|agentUsername| + 3 + |productName|] == productName
    ensures r[|agentUsername| + 3 + |productName|..|r| - |s.commissionType|] == " - "
    ensures r[|r| - |s.commissionType|..] == s.commissionType
  {
    agentUsername + " - " + productName + " - " + s.commissionType
  }

  // --------------------------------------------- Client, Transaction, summary

  /** A client; phone, e-mail and timestamps are not modelled. */
  datatype Client = Client(id: nat, firstName: string, lastName: string, displayName: string)

  /** A sale; `client` is a nullable foreign key, `metadata` the JSON field, with numbers as exact reals. */
  datatype Transaction = Transaction(
    id: nat,
    agent: nat,
    client: Option<nat>,
    product: nat,
    metadata: map<string, real>)

  /** The JSON field's default: an empty mapping. */
  const DefaultMetadata: map<string, real> := map[]

  /**
   * `Transaction.__str__`: "Transaction for {client display name} - {product name}";
   * None where Python raises because the transaction has no client.
   */
  function TransactionToString(client: Option<Client>, product: Product): (r: Option<string>)
    ensures r.Some? <==> client.Some?
    ensures r.Some? ==> var prefix := "Transaction for "; var name := client.value.displayName;
      |r.value| == |prefix| + |name| + 3 + |product.name|
      && r.value[..|prefix|] == prefix
      && r.value[|prefix|..|prefix| + |name|] == name
      && r.value[|prefix| + |name|..|r.value| - |product.name|] == " - "
      && r.value[|r.value| - |product.name|..] == product.name
  {
    if client.None? then None
    else Some("Transaction for " + client.value.displayName + " - " + product.name)
  }

  const SummarySucceeded := "SUCCESS"
  const SummaryFailed := "FAILED"

  /** A meeting summary; `createdAt` comes from the clock and is not modelled. */
  datatype MeetingSummary = MeetingSummary(id: nat, agent: nat, content: string, processedStatus: string)

  /** `MeetingSummary.__str__`, given the agent's username and the creation date: the date is its last ten characters. */
  function MeetingSummaryToString(agentUsername: string, createdOn: Date): (r: string)
    requires ValidDate(createdOn)
    ensures var prefix := "Meeting Summary for ";
      |r| == |prefix| + |agentUsername| + 4 + 10
      && r[..|prefix|] == prefix
      && r[|prefix|..|prefix| + |agentUsername|] == agentUsername
      && r[|prefix| + |agentUsername|..|r| - 10] == " on "
      && r[|r| - 10..] == DateToString(createdOn)
  {
    "Meeting Summary for " + agentUsername + " on " + DateToString(createdOn)
  }
}
