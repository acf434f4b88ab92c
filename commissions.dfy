/**
 * `calculate_commission` (commission/services.py, lines 8-49): match the
 * structures of the transaction's agent and product, price each by its
 * commission type, keep the positive amounts and stamp each with its
 * expected payment date.
 */
module Commissions {
  import opened Wrappers
  import opened Calendar
  import opened Models
  import opened PaymentSchedule

  const PendingStatus := "PENDING"

  /** One entry of the returned list: the dictionary built at lines 40-46. */
  datatype CommissionLine = CommissionLine(
    transaction: Transaction,
    structure: CommissionStructure,
    amount: real,
    expectedPaymentDate: Date,
    status: string)

  /** The query of lines 9-12: the agreement's agent (not the structure's own agent column) and the product. */
  predicate Matches(s: CommissionStructure, t: Transaction) {
    s.agreement.agent == t.agent && s.product == t.product
  }

  /** The structures that apply to `t`, in table order. */
  function MatchingStructures(all: seq<CommissionStructure>, t: Transaction): (r: seq<CommissionStructure>)
    ensures |r| <= |all|
    ensures forall s :: s in r <==> s in all && Matches(s, t)
    ensures AllStored(all) ==> AllStored(r)
  {
    if |all| == 0 then []
    else (if Matches(all[0], t) then [all[0]] else []) + MatchingStructures(all[1..], t)
  }

  /** The selection keeps each matching structure exactly as often as it occurs, and drops the others. */
  lemma {:induction false} MatchingStructuresCounts(all: seq<CommissionStructure>, t: Transaction)
    ensures forall s :: multiset(MatchingStructures(all, t))[s] == if Matches(s, t) then multiset(all)[s] else 0
  {
    if |all| > 0 {
      MatchingStructuresCounts(all[1..], t);
      assert all == [all[0]] + all[1..];
    }
  }

  /** `metadata.get('amount', 0)`. */
  function SaleAmount(t: Transaction): real {
    if "amount" in t.metadata then t.metadata["amount"] else 0.0
  }

  /** The amount rule of lines 16-24: a percentage of the sale for SCOPE, the flat rate for RECURRING, nothing otherwise. */
  function CommissionAmount(s: CommissionStructure, t: Transaction): real {
    if s.commissionType == ScopeType then SaleAmount(t) * (Rate(s) / 100.0)
    else if s.commissionType == RecurringType then Rate(s)
    else 0.0
  }

  predicate AllStored(ms: seq<CommissionStructure>) {
    forall i :: 0 <= i < |ms| ==> StoredTerms(ms[i].terms)
  }

  /** The line one structure contributes: none when the amount is not positive. */
  function LineFor(t: Transaction, s: CommissionStructure, today: Date): Result<seq<CommissionLine>, ScheduleError>
    requires ValidDate(today) && StoredTerms(s.terms)
  {
    var amount := CommissionAmount(s, t);
    if amount > 0.0 then
      match ExpectedPaymentDate(s.terms, today)
      case Success(due) => Success([CommissionLine(t, s, amount, due, PendingStatus)])
      case Failure(e) => Failure(e)
    else Success([])
  }

  /** The loop of lines 15-47 over `ms`: the first failing payment date aborts the whole call. */
  function Evaluate(t: Transaction, ms: seq<CommissionStructure>, today: Date): Result<seq<CommissionLine>, ScheduleError>
    requires ValidDate(today) && AllStored(ms)
  {
    if |ms| == 0 then Success([])
    else
      match Evaluate(t, ms[..|ms| - 1], today)
      case Failure(e) => Failure(e)
      case Success(lines) =>
        match LineFor(t, ms[|ms| - 1], today)
        case Failure(e) => Failure(e)
        case Success(line) => Success(lines + line)
  }

  /** The structures of `ms` whose amount for `t` is positive, in order. */
  function Payable(t: Transaction, ms: seq<CommissionStructure>): seq<CommissionStructure> {
    if |ms| == 0 then []
    else Payable(t, ms[..|ms| - 1]) + (if CommissionAmount(ms[|ms| - 1], t) > 0.0 then [ms[|ms| - 1]] else [])
  }

  /** What one emitted line says: it is `s`'s line for `t`, pending, priced by the rule and dated by the terms. */
  predicate Describes(line: CommissionLine, t: Transaction, s: CommissionStructure, today: Date) {
    && line.transaction == t
    && line.structure == s
    && line.status == PendingStatus
    && line.amount == CommissionAmount(s, t)
    && line.amount > 0.0
    && ValidDate(today) && StoredTerms(s.terms)
    && ExpectedPaymentDate(s.terms, today) == Success(line.expectedPaymentDate)
  }

  method CalculateCommission(t: Transaction, structures: seq<CommissionStructure>, today: Date)
    returns (r: Result<seq<CommissionLine>, ScheduleError>)
    requires ValidDate(today) && AllStored(structures)
    ensures r == Evaluate(t, MatchingStructures(structures, t), today)
  {
    var matching := MatchingStructures(structures, t);
    var commissions: seq<CommissionLine> := [];
    var i := 0;
    while i < |matching|
      invariant 0 <= i <= |matching|
      invariant Evaluate(t, matching[..i], today) == Success(commissions)
    {
      var structure := matching[i];
      EvaluateStep(t, matching, i, today);
      var amount := CommissionAmount(structure, t);
      if amount > 0.0 {
        var due := ExpectedPaymentDate(structure.terms, today);
        if due.Failure? {
          EvaluateFailurePersists(t, matching, i + 1, today);
          return Failure(due.error);
        }
        var line := CommissionLine(t, structure, amount, due.value, PendingStatus);
        assert LineFor(t, structure, today) == Success([line]);
        commissions := commissions + [line];
      } else {
        assert LineFor(t, structure, today) == Success([]);
        assert commissions + [] == commissions;
      }
      i := i + 1;
    }
    assert matching[..i] == matching;
    r := Success(commissions);
  }

  /** One more structure extends a successful evaluation by that structure's line, or fails with it. */
  lemma EvaluateStep(t: Transaction, ms: seq<CommissionStructure>, i: nat, today: Date)
    requires ValidDate(today) && AllStored(ms) && i < |ms|
    requires Evaluate(t, ms[..i], today).Success?
    ensures LineFor(t, ms[i], today).Success? ==>
      Evaluate(t, ms[..i + 1], today) == Success(Evaluate(t, ms[..i], today).value + LineFor(t, ms[i], today).value)
    ensures LineFor(t, ms[i], today).Failure? ==>
      Evaluate(t, ms[..i + 1], today) == Failure(LineFor(t, ms[i], today).error)
  {
    assert ms[..i + 1][..i] == ms[..i];
  }

  /** Once a prefix of the structures fails, the whole evaluation fails the same way. */
  lemma {:induction false} EvaluateFailurePersists(t: Transaction, ms: seq<CommissionStructure>, k: nat, today: Date)
    requires ValidDate(today) && AllStored(ms) && k <= |ms|
    requires Evaluate(t, ms[..k], today).Failure?
    ensures Evaluate(t, ms, today) == Evaluate(t, ms[..k], today)
    decreases |ms| - k
  {
    if k < |ms| {
      var init := ms[..|ms| - 1];
      assert init[..k] == ms[..k];
      EvaluateFailurePersists(t, init, k, today);
    } else {
      assert ms[..k] == ms;
    }
  }

  /** Payable keeps exactly the structures with a positive amount, never more than it is given. */
  lemma {:induction false} PayableMembers(t: Transaction, ms: seq<CommissionStructure>)
    ensures |Payable(t, ms)| <= |ms|
    ensures forall s :: s in Payable(t, ms) <==> s in ms && CommissionAmount(s, t) > 0.0
  {
    if |ms| > 0 {
      PayableMembers(t, ms[..|ms| - 1]);
      assert ms == ms[..|ms| - 1] + [ms[|ms| - 1]];
    }
  }

  /** Payable keeps each structure with a positive amount exactly as often as it occurs, and drops the others. */
  lemma {:induction false} PayableCounts(t: Transaction, ms: seq<CommissionStructure>)
    ensures forall s :: multiset(Payable(t, ms))[s] == if CommissionAmount(s, t) > 0.0 then multiset(ms)[s] else 0
  {
    if |ms| > 0 {
      PayableCounts(t, ms[..|ms| - 1]);
      assert ms == ms[..|ms| - 1] + [ms[|ms| - 1]];
    }
  }

  /**
   * A successful evaluation emits exactly one line per structure with a
   * positive amount, in the structures' order, each describing its structure.
   */
  lemma {:induction false} EvaluateLines(t: Transaction, ms: seq<CommissionStructure>, today: Date)
    requires ValidDate(today) && AllStored(ms)
    requires Evaluate(t, ms, today).Success?
    ensures |Evaluate(t, ms, today).value| == |Payable(t, ms)|
    ensures forall i :: 0 <= i < |Payable(t, ms)| ==>
      Describes(Evaluate(t, ms, today).value[i], t, Payable(t, ms)[i], today)
  {
    if |ms| > 0 {
      EvaluateLines(t, ms[..|ms| - 1], today);
    }
  }

  /** The evaluation fails exactly when some payable structure's payment date fails, and then with the first such error. */
  lemma {:induction false} EvaluateFailure(t: Transaction, ms: seq<CommissionStructure>, today: Date)
    requires ValidDate(today) && AllStored(ms)
    ensures AllStored(Payable(t, ms))
    ensures Evaluate(t, ms, today).Failure? <==>
      exists i :: 0 <= i < |Payable(t, ms)| && ExpectedPaymentDate(Payable(t, ms)[i].terms, today).Failure?
    ensures Evaluate(t, ms, today).Failure? ==>
      exists i :: 0 <= i < |Payable(t, ms)|
        && ExpectedPaymentDate(Payable(t, ms)[i].terms, today) == Failure(Evaluate(t, ms, today).error)
        && forall j :: 0 <= j < i ==> ExpectedPaymentDate(Payable(t, ms)[j].terms, today).Success?
  {
    PayableMembers(t, ms);
    if |ms| > 0 {
      var init := ms[..|ms| - 1];
      var last := ms[|ms| - 1];
      assert AllStored(init);
      EvaluateFailure(t, init, today);
      PayableMembers(t, init);
      var p := Payable(t, ms);
      var q := Payable(t, init);
      assert q == p[..|q|];
      if Evaluate(t, init, today).Success? && CommissionAmount(last, t) > 0.0 {
        assert p[|q|] == last;
        if ExpectedPaymentDate(last.terms, today).Failure? {
          forall j | 0 <= j < |q| ensures ExpectedPaymentDate(p[j].terms, today).Success? {
            assert p[j] == q[j];
          }
        }
      }
    }
  }

  /** The structure of each line, in order. */
  function StructuresOf(lines: seq<CommissionLine>): (r: seq<CommissionStructure>)
    ensures |r| == |lines| && forall i :: 0 <= i < |lines| ==> r[i] == lines[i].structure
  {
    seq(|lines|, i requires 0 <= i < |lines| => lines[i].structure)
  }

  /** Each matching structure with a positive amount has one line per occurrence in the table; no other structure has one. */
  lemma CalculatedLineCounts(t: Transaction, all: seq<CommissionStructure>, today: Date)
    requires ValidDate(today) && AllStored(all)
    requires Evaluate(t, MatchingStructures(all, t), today).Success?
    ensures var lines := Evaluate(t, MatchingStructures(all, t), today).value;
      forall s :: multiset(StructuresOf(lines))[s] ==
                    if Matches(s, t) && CommissionAmount(s, t) > 0.0 then multiset(all)[s] else 0
  {
    var ms := MatchingStructures(all, t);
    var lines := Evaluate(t, ms, today).value;
    EvaluateLines(t, ms, today);
    assert StructuresOf(lines) == Payable(t, ms);
    PayableCounts(t, ms);
    MatchingStructuresCounts(all, t);
  }

  /**
   * `calculate_commission` end to end: every line belongs to a structure of
   * the transaction's agreement agent and product, and every such structure
   * with a positive amount yields exactly one line per occurrence in the
   * table; so there are at most as many lines as matching structures.
   */
  lemma CalculatedLines(t: Transaction, all: seq<CommissionStructure>, today: Date)
    requires ValidDate(today) && AllStored(all)
    ensures AllStored(MatchingStructures(all, t))
    ensures Evaluate(t, MatchingStructures(all, t), today).Success? ==>
      var lines := Evaluate(t, MatchingStructures(all, t), today).value;
      && |lines| <= |MatchingStructures(all, t)|
      && (forall l :: l in lines ==>
            l.structure in all && Matches(l.structure, t) && l.transaction == t
            && l.status == PendingStatus && l.amount == CommissionAmount(l.structure, t) > 0.0)
      && (forall s :: s in all && Matches(s, t) && CommissionAmount(s, t) > 0.0 ==>
            exists l :: l in lines && l.structure == s)
      && (forall s :: multiset(StructuresOf(lines))[s] ==
                        if Matches(s, t) && CommissionAmount(s, t) > 0.0 then multiset(all)[s] else 0)
  {
    var ms := MatchingStructures(all, t);
    if Evaluate(t, ms, today).Success? {
      var lines := Evaluate(t, ms, today).value;
      var p := Payable(t, ms);
      EvaluateLines(t, ms, today);
      PayableMembers(t, ms);
      CalculatedLineCounts(t, all, today);
      forall l | l in lines
        ensures l.structure in all && Matches(l.structure, t) && l.transaction == t
             && l.status == PendingStatus && l.amount == CommissionAmount(l.structure, t) > 0.0
      {
        var i :| 0 <= i < |lines| && lines[i] == l;
        assert Describes(lines[i], t, p[i], today);
      }
      forall s | s in all && Matches(s, t) && CommissionAmount(s, t) > 0.0
        ensures exists l :: l in lines && l.structure == s
      {
        var i :| 0 <= i < |p| && p[i] == s;
        assert Describes(lines[i], t, p[i], today);
      }
    }
  }

  /** No matching structure: an empty list, not an error. */
  lemma NoMatchNoLines(t: Transaction, all: seq<CommissionStructure>, today: Date)
    requires ValidDate(today) && AllStored(all)
    requires forall s :: s in all ==> !Matches(s, t)
    ensures Evaluate(t, MatchingStructures(all, t), today) == Success([])
  {
    NoMatchIsEmpty(all, t);
  }

  /** When nothing matches, the selection is the empty sequence. */
  lemma {:induction false} NoMatchIsEmpty(all: seq<CommissionStructure>, t: Transaction)
    requires forall s :: s in all ==> !Matches(s, t)
    ensures MatchingStructures(all, t) == []
  {
    if |all| > 0 {
      assert all[0] in all;
      assert forall s :: s in all[1..] ==> s in all;
      NoMatchIsEmpty(all[1..], t);
    }
  }

  /** Without a sale amount, SCOPE structures pay nothing: with only those, an empty list, not an error. */
  lemma {:induction false} MissingSaleAmountNoScopeLines(t: Transaction, ms: seq<CommissionStructure>, today: Date)
    requires ValidDate(today) && AllStored(ms)
    requires "amount" !in t.metadata
    requires forall s :: s in ms ==> s.commissionType == ScopeType
    ensures Evaluate(t, ms, today) == Success([])
  {
    if |ms| > 0 {
      var last := ms[|ms| - 1];
      assert last in ms;
      assert forall s :: s in ms[..|ms| - 1] ==> s in ms;
      MissingSaleAmountNoScopeLines(t, ms[..|ms| - 1], today);
      assert CommissionAmount(last, t) == 0.0;
      assert LineFor(t, last, today) == Success([]);
      var none: seq<CommissionLine> := [];
      assert none + none == none;
    }
  }

  /** A fresh transaction's metadata is empty, so its sale amount reads as 0 and SCOPE pays 0. */
  lemma FreshTransactionScopePaysNothing(t: Transaction, s: CommissionStructure)
    requires t.metadata == DefaultMetadata && s.commissionType == ScopeType
    ensures SaleAmount(t) == 0.0 && CommissionAmount(s, t) == 0.0
  {
  }

  /** The amount rule in exact arithmetic: SCOPE pays sale × rate / 100 with no rounding, RECURRING the rate, any other type 0. */
  lemma AmountRule(s: CommissionStructure, t: Transaction)
    ensures s.commissionType == ScopeType ==>
      CommissionAmount(s, t) * 10000.0 == SaleAmount(t) * s.rateHundredths as real
    ensures s.commissionType == RecurringType ==> CommissionAmount(s, t) * 100.0 == s.rateHundredths as real
    ensures s.commissionType != ScopeType && s.commissionType != RecurringType ==> CommissionAmount(s, t) == 0.0
  {
  }

  /** With a rate that fits its column, RECURRING pays at most 999.99 and SCOPE at most 9.9999 times the sale. */
  lemma AmountBounds(s: CommissionStructure, t: Transaction)
    requires StoredStructure(s)
    ensures s.commissionType == RecurringType ==> CommissionAmount(s, t) <= 999.99
    ensures s.commissionType == ScopeType && SaleAmount(t) >= 0.0 ==>
      CommissionAmount(s, t) <= SaleAmount(t) * 9.9999
  {
    if s.commissionType == ScopeType && SaleAmount(t) >= 0.0 {
      var sale, fraction := SaleAmount(t), Rate(s) / 100.0;
      assert fraction <= 9.9999;
      assert sale * (9.9999 - fraction) >= 0.0;
    }
  }

  /** A sale of 1000 under one SCOPE structure at 10.00 % pays one pending line of 100. */
  lemma ScopeExample(t: Transaction, s: CommissionStructure, today: Date)
    requires ValidDate(today) && StoredTerms(s.terms)
    requires t.metadata == map["amount" := 1000.0]
    requires s.commissionType == ScopeType && s.rateHundredths == 1000
    requires ExpectedPaymentDate(s.terms, today).Success?
    ensures Evaluate(t, [s], today) ==
      Success([CommissionLine(t, s, 100.0, ExpectedPaymentDate(s.terms, today).value, PendingStatus)])
  {
    assert [s][..0] == [];
    assert CommissionAmount(s, t) == 100.0;
    var line := CommissionLine(t, s, 100.0, ExpectedPaymentDate(s.terms, today).value, PendingStatus);
    assert LineFor(t, s, today) == Success([line]);
    assert [] + [line] == [line];
  }

  /** A SCOPE and a RECURRING structure on the same sale each give their own line, in order. */
  lemma ScopeAndRecurringExample(t: Transaction, scope: CommissionStructure, recurring: CommissionStructure, today: Date)
    requires ValidDate(today) && StoredTerms(scope.terms) && StoredTerms(recurring.terms)
    requires t.metadata == map["amount" := 1000.0]
    requires scope.commissionType == ScopeType && scope.rateHundredths == 1000
    requires recurring.commissionType == RecurringType && recurring.rateHundredths == 5000
    requires ExpectedPaymentDate(scope.terms, today).Success? && ExpectedPaymentDate(recurring.terms, today).Success?
    ensures Evaluate(t, [scope, recurring], today) == Success([
      CommissionLine(t, scope, 100.0, ExpectedPaymentDate(scope.terms, today).value, PendingStatus),
      CommissionLine(t, recurring, 50.0, ExpectedPaymentDate(recurring.terms, today).value, PendingStatus)])
  {
    var ms := [scope, recurring];
    assert ms[..1] == [scope];
    ScopeExample(t, scope, today);
    var first := CommissionLine(t, scope, 100.0, ExpectedPaymentDate(scope.terms, today).value, PendingStatus);
    var second := CommissionLine(t, recurring, 50.0, ExpectedPaymentDate(recurring.terms, today).value, PendingStatus);
    assert CommissionAmount(recurring, t) == 50.0;
    assert LineFor(t, recurring, today) == Success([second]);
    EvaluateStep(t, ms, 1, today);
    assert ms[..2] == ms;
    assert [first] + [second] == [first, second];
  }
}
