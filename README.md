# Commission engine — a Dafny model

This project models the commission engine of an insurance-agent commission
tracker (a Django application). The engine has two operations:

- `calculate_commission(transaction)` selects the commission structures of
  the transaction's agent and product. It prices each structure by its
  commission type: SCOPE pays a percentage of the sale, RECURRING pays a
  flat rate, any other type pays nothing. It drops every line whose amount
  is not positive and stamps each remaining line with an expected payment
  date taken from the structure's payment terms.
- `process_meeting_summary(user, content)` receives the fields an external
  extractor pulled out of free text. When client name, product name and
  amount are all truthy it records a SUCCESS summary, gets or creates the
  product and the client by name, and records a sale transaction.
  Otherwise it records a FAILED summary and returns no transaction.

Modules:

- `Wrappers`: `Option` and `Result`.
- `Calendar`: Gregorian dates with the behaviour of Python's `datetime.date`. Years run from 1 to 9999. `replace` rejects impossible days and years, and adding days past year 9999 overflows.
- `Formatting`: Python's `str(int)`, `str(date)` and `str.split()`.
- `Models`: the records of `commission/models.py` and their `__str__` methods.
- `PaymentSchedule`: the expected payment date.
- `Commissions`: `calculate_commission`. `CalculateCommission` is a loop method proved equal to the specification function `Evaluate`.
- `Ingestion`: `process_meeting_summary`. The tables live in the class `Store`. Its methods are proved against the pure function `Ingest`.

Conventions of the model:

- The current date is the parameter `today`, in place of `timezone.now().date()`. The model reads the clock once per call.
- Every exception the Python code can raise becomes an explicit failure value: `Failure(...)` of a `Result`, or `Raised(...)` of an ingestion `Outcome`.
- Money is exact. Sale amounts and commission amounts are `real`. A rate is an integer count of hundredths, because the column is `DecimalField(max_digits=5, decimal_places=2)`.
- Foreign keys are ids. A table is a sequence whose ids are the 1-based positions.

Behaviour of the code a reader might not expect:

- A day of the month that the target month lacks makes `date.replace` raise. It is neither clamped nor rolled over.
- A past 29 February `specific_date` always fails, because the following year is never a leap year. It is not clamped to 28 February.
- The SCOPE amount is not rounded. The API prints it with `str`, so the number of decimals comes from `Decimal` exponent arithmetic: a rate stored with two places and a whole-number sale give two places.
- The extracted `product_type` is read by nobody. Products have no type field.
- Only SCOPE and RECURRING are commission-type choices. Any other stored string pays 0 and is dropped.

## Model

| member | source | states |
|---|---|---|
| Calendar.DaysInMonth | commission/services.py:31-34 | every month has 28 to 31 days, and only a February of a non-leap year has 28 |
| Calendar.FirstOfNextMonth | commission/services.py:33 | the month after a date's month is the next month of the same year, or January of the next year after December |
| Calendar.NextDay | commission/services.py:33 | the day after a real date is a real, later date: the next day number, or the first of the next month |
| Calendar.AddDays | commission/services.py:33 | `date + timedelta(days=n)` yields a real date, strictly later when n > 0 |
| Calendar.ReplaceDay | commission/services.py:31 | `date.replace(day=d)` succeeds exactly when d is a day of that month, and then keeps year and month |
| Calendar.ReplaceYear | commission/services.py:38 | `date.replace(year=y)` succeeds exactly when y is within 1..9999 and the month of year y has the day |
| Calendar.Before | commission/services.py:37 | the `<` of dates: lexicographic on year, month and day; its properties are stated by `Calendar.BeforeIsStrictTotalOrder` |
| Calendar.BeforeIsStrictTotalOrder | commission/services.py:37 | date comparison is irreflexive, transitive, asymmetric and total on distinct dates |
| Calendar.AddDaysWithinMonth | commission/services.py:33 | adding days that stay inside the month only raises the day number |
| Calendar.AddDaysIntoNextMonth | commission/services.py:33 | adding days that overrun the month by at most 28 lands in the following month, on the overrun day |
| Calendar.TwentyEighthPlusFour | commission/services.py:33 | from the 28th of any month, four days later is day 1 to 4 of the following month, namely day 32 minus the month's length |
| Calendar.LeapYearNotFollowedByLeapYear | commission/services.py:38 | a leap year is followed by a year whose February has 28 days |
| Formatting.NatToString | commission/models.py:36 | `str(n)` is a non-empty digit string without leading zero that reads back as n |
| Formatting.NatToStringLength | commission/models.py:37 | a number below 10^k prints in at most k digits |
| Formatting.IntToString | commission/models.py:36 | `str(i)` is a minus sign exactly for negative i, followed by digits without a leading zero that read back as abs(i) |
| Formatting.IntToStringInjective | commission/models.py:36 | distinct integers print differently |
| Formatting.ParseNatLeadingZeros | commission/models.py:37 | leading zeros do not change the value of a digit string |
| Formatting.ZeroPad | commission/models.py:37 | zero padding yields digits that read back as n, exactly w long when n has at most w digits |
| Formatting.DateToString | commission/models.py:37 | `str(date)` is `YYYY-MM-DD`: ten characters whose three digit fields read back as year, month and day |
| Formatting.DateToStringInjective | commission/models.py:37 | distinct dates print differently |
| Formatting.RemoveSpacesAppend | commission/services.py:78 | dropping whitespace distributes over concatenation |
| Formatting.RemoveSpacesOfWord | commission/services.py:78 | dropping whitespace leaves a word unchanged |
| Formatting.WordLength | commission/services.py:78 | a word is the maximal whitespace-free run at the head of the string |
| Formatting.Words | commission/services.py:78 | `str.split()` yields non-empty whitespace-free words, and none exactly when the string is all whitespace |
| Formatting.WordsJoin | commission/services.py:78 | joined together, the words are the string without its whitespace |
| Formatting.WordLengthIsFirstSpace | commission/services.py:78 | the head word ends exactly at the first whitespace character or at the end of the string |
| Formatting.WordsOfWord | commission/services.py:78 | a non-empty string without whitespace splits into exactly itself |
| Formatting.HeadWordOfPrefix | commission/services.py:78 | a head word that ends before a whitespace character of a longer string is also that string's head word |
| Formatting.HeadWordBeforeSpace | commission/services.py:78 | adding a whitespace character and more text after a string keeps its head word |
| Formatting.WordsSplitAtSpace | commission/services.py:78 | a whitespace character separates words: the words of a, a space and b are the words of a followed by those of b, so no word runs across whitespace |
| Formatting.WordsSplitAfterWord | commission/services.py:78 | the case of the separation law where the first part starts with a word |
| Models.ChoiceLabel | commission/models.py:23 | `get_FOO_display` gives the label of the last choice listed with the stored code, as a dictionary built from the choices does, and the stored value itself when it is not a choice |
| Models.CategoryLabels | commission/models.py:14-18 | INSURANCE, PENSION and FINANCIAL display as Insurance, Pension and Financial, and any other category as itself |
| Models.ProductToString | commission/models.py:22-23 | the product renders as its name, then " (", the category label and ")" |
| Models.PaymentTermsToString | commission/models.py:34-37 | DAY_OF_MONTH terms render as "Day ", the day (or None) and " of each month"; the other type as "Annually on " and the date (or None) |
| Models.PaymentTermsToStringDeterminesTerms | commission/models.py:34-37 | well-formed terms that render alike have the same type and the same day or date |
| Models.CommissionStructureToString | commission/models.py:55-56 | a structure renders as the agent's username, " - ", the product name, " - " and the commission type |
| Models.TransactionToString | commission/models.py:77-78 | a transaction renders as "Transaction for ", the client's display name, " - " and the product name, and fails when it has no client |
| Models.MeetingSummaryToString | commission/models.py:86-87 | a summary renders as "Meeting Summary for ", the username, " on " and the creation date as its last ten characters |
| PaymentSchedule.DayOfMonthDate | commission/services.py:29-34 | the DAY_OF_MONTH rule; specified by `DayOfMonthThisMonth`, `DayOfMonthFollowingMonth` and `DayOfMonthNotBeforeToday` |
| PaymentSchedule.AnnualDate | commission/services.py:36-38 | the SPECIFIC_DATE rule; specified by `AnnualDateNotPast`, `AnnualDatePast` and `AnnualDateStaysInPast` |
| PaymentSchedule.ExpectedPaymentDate | commission/services.py:28-38 | the payment date of a structure's terms; specified by `ExpectedPaymentDateFailures` and `ExpectedPaymentDateIsValid` |
| PaymentSchedule.DayOfMonthThisMonth | commission/services.py:30-31 | when today's day is at most d, the date is day d of this month, and it fails with a day-out-of-range error when the month is shorter than d |
| PaymentSchedule.DayOfMonthFollowingMonth | commission/services.py:32-34 | when today's day is past d, the date is day d of the following month, with December rolling into January; it fails when that month lacks day d or lies past year 9999 |
| PaymentSchedule.DayOfMonthNotBeforeToday | commission/services.py:28-34 | a DAY_OF_MONTH date is a real date on day d and is never before today |
| PaymentSchedule.AnnualDateNotPast | commission/services.py:36-37 | a specific date of today or later is the payment date unchanged |
| PaymentSchedule.AnnualDatePast | commission/services.py:37-38 | a past specific date moves exactly one year on, with the same month and day; it fails exactly for 29 February and for year 9999 |
| PaymentSchedule.AnnualDateStaysInPast | commission/services.py:37-38 | for every date more than a year before today, the single year step leaves the result before today |
| PaymentSchedule.AnnualDateCanStayInPast | commission/services.py:37-38 | a concrete case: 2020-01-01 seen on 2026-10-15 becomes 2021-01-01, still in the past |
| PaymentSchedule.ExpectedPaymentDateFailures | commission/services.py:28-38 | well-formed terms fail only through the date library; a null field selected by the type fails with a TypeError |
| PaymentSchedule.ExpectedPaymentDateIsValid | commission/services.py:28-38 | every produced date is a real date, and a DAY_OF_MONTH date falls on day d and not before today |
| Commissions.MatchingStructures | commission/services.py:9-12 | the selected structures are exactly those of the transaction's agreement agent and product, never more than there are |
| Commissions.MatchingStructuresCounts | commission/services.py:9-12 | the selection holds each matching structure exactly as often as the table does, and no other |
| Commissions.SaleAmount | commission/services.py:20 | `metadata.get('amount', 0)`; specified by `Commissions.AmountRule` and `Commissions.FreshTransactionScopePaysNothing` |
| Commissions.CommissionAmount | commission/services.py:16-24 | the amount rule; specified by `Commissions.AmountRule` and `Commissions.AmountBounds` |
| Commissions.LineFor | commission/services.py:26-47 | the line of one structure: none for a non-positive amount, else a PENDING line dated by the terms; specified by `Commissions.EvaluateStep` and `Commissions.EvaluateLines` |
| Commissions.Evaluate | commission/services.py:15-47 | the loop over the matching structures; specified by `Commissions.EvaluateLines`, `Commissions.EvaluateFailure` and `Commissions.CalculatedLines` |
| Commissions.Payable | commission/services.py:26 | the structures that pass `amount > 0`; specified by `Commissions.PayableMembers` and `Commissions.PayableCounts` |
| Commissions.CalculateCommission | commission/services.py:8-49 | the loop returns what the specification `Evaluate` gives for the matching structures, including the first payment-date error |
| Commissions.EvaluateStep | commission/services.py:15-47 | one more structure appends its line to a successful prefix, or fails with its error |
| Commissions.EvaluateFailurePersists | commission/services.py:15-47 | an exception in a prefix of the loop is the result of the whole call |
| Commissions.PayableMembers | commission/services.py:26 | the payable structures are exactly those with a positive amount, never more than given |
| Commissions.PayableCounts | commission/services.py:26 | each structure with a positive amount is kept exactly as often as it occurs, and no other |
| Commissions.EvaluateLines | commission/services.py:15-47 | a successful evaluation has one line per payable structure, in order; each line is PENDING, names the transaction and its structure, and carries the rule's amount (> 0) and the terms' date |
| Commissions.EvaluateFailure | commission/services.py:26-38 | the evaluation fails exactly when some payable structure's payment date fails, and then with the first such error |
| Commissions.CalculatedLineCounts | commission/services.py:8-49 | the lines' structures are the matching structures with a positive amount, each exactly as often as it occurs in the table |
| Commissions.CalculatedLines | commission/services.py:8-49 | every line is a PENDING line of a structure of the transaction's agreement agent and product, priced by the rule; each such structure with a positive amount yields exactly one line per occurrence in the table, and no other structure yields one |
| Commissions.NoMatchIsEmpty | commission/services.py:9-12 | when no structure has the transaction's agreement agent and product, the selection is empty |
| Commissions.NoMatchNoLines | commission/services.py:9-15 | no matching structure gives an empty list, not an error |
| Commissions.MissingSaleAmountNoScopeLines | commission/services.py:18-26 | without a sale amount, SCOPE structures alone give an empty list, not an error |
| Commissions.FreshTransactionScopePaysNothing | commission/models.py:75 | the default empty metadata reads as sale amount 0, so SCOPE pays 0 |
| Commissions.AmountRule | commission/services.py:16-24 | SCOPE pays exactly sale × rate / 100, RECURRING pays the rate, and any other type pays 0 |
| Commissions.AmountBounds | commission/models.py:51 | with a rate that fits its column, RECURRING pays at most 999.99 and SCOPE at most 9.9999 times a non-negative sale |
| Commissions.ScopeExample | commission/tests/test_views.py:27-48 | a sale of 1000 under one SCOPE structure at rate 10 yields exactly one PENDING line of 100 |
| Commissions.ScopeAndRecurringExample | commission/services.py:15-47 | a SCOPE and a RECURRING structure on one sale give two lines in order, each priced by its own rule |
| Ingestion.ProductsNamed | commission/services.py:70-73 | the name lookup finds exactly the products with that name |
| Ingestion.ClientsNamed | commission/services.py:76-79 | the display-name lookup finds exactly the clients with that display name |
| Ingestion.ProductsNamedCounts | commission/services.py:70-73 | the lookup holds each product with the name exactly as often as the table does |
| Ingestion.ClientsNamedCounts | commission/services.py:76-79 | the lookup holds each client with the display name exactly as often as the table does |
| Ingestion.TwoNamedMeansSeveralProducts | commission/services.py:70-73 | two rows with the name make the lookup find several products |
| Ingestion.SeveralMeansTwoNamedProducts | commission/services.py:70-73 | a lookup that finds several products found two rows with the name |
| Ingestion.SeveralProductsNamed | commission/services.py:70-73 | the lookup finds several products exactly when two rows share the name, which is when `get_or_create` raises MultipleObjectsReturned |
| Ingestion.TwoNamedMeansSeveralClients | commission/services.py:76-79 | two rows with the display name make the lookup find several clients |
| Ingestion.SeveralMeansTwoNamedClients | commission/services.py:76-79 | a lookup that finds several clients found two rows with the display name |
| Ingestion.SeveralClientsNamed | commission/services.py:76-79 | the lookup finds several clients exactly when two rows share the display name, which is when `get_or_create` raises MultipleObjectsReturned |
| Ingestion.UpsertProduct | commission/services.py:70-73 | get-or-create reuses the one product with the name unchanged, appends a new one with the given category when there is none, and fails when there are several |
| Ingestion.UpsertClient | commission/services.py:76-79 | get-or-create reuses the one client with the display name, appends a new one with the given names when there is none, and fails when there are several |
| Ingestion.HasRequiredFields | commission/services.py:61 | the guard: client name, product name and amount all truthy; specified by `Ingestion.IngestRecordsOneSummary` and `Ingestion.IngestRejectsIncomplete` |
| Ingestion.SummaryFor | commission/services.py:63-67 | the summary each branch creates (lines 63-67 and 92-96); specified by `Ingestion.IngestRecordsOneSummary` |
| Ingestion.Ingest | commission/services.py:51-97 | the whole call on the tables; specified by the `Ingestion.Ingest*` lemmas below |
| Ingestion.IngestRecordsOneSummary | commission/services.py:61-67 | every call appends exactly one summary for the agent and content, SUCCESS exactly when the required fields are truthy, FAILED otherwise |
| Ingestion.IngestRejectsIncomplete | commission/services.py:90-97 | missing fields return the FAILED summary and no transaction, and leave products, clients and transactions unchanged |
| Ingestion.FallbackIsRejected | commission/gateways.py:45-53 | the extractor's fallback mapping carries amount 0 and is always rejected |
| Ingestion.IngestRecordsSale | commission/services.py:81-89 | a normal return after validation appends exactly one transaction for the agent, with metadata {'amount': amount}, the named product and the named client |
| Ingestion.IngestSucceedsWhenUnambiguous | commission/services.py:61-89 | truthy fields, at most one product and one client with the names, and a client name with a word give a transaction |
| Ingestion.IngestProductUpsert | commission/services.py:59-73 | an existing product is reused unchanged; otherwise one is appended with the extracted category or INSURANCE; several products with the name raise |
| Ingestion.IngestClientRaises | commission/services.py:70-79 | a raising product step leaves the clients unchanged; after a product step that passed, an all-whitespace name raises IndexError and several clients with the display name raise, both leaving the clients unchanged |
| Ingestion.IngestClientUpsert | commission/services.py:76-79 | after a product step that passed and with a name that has a word, the one client with the display name is reused, and otherwise one is appended whose first and last names are the first and last words of the name |
| Ingestion.ConsistentWithSummary | commission/services.py:63-67 | appending a summary with the next id keeps the tables consistent |
| Ingestion.ConsistentWithProducts | commission/services.py:70-73 | a positional product table that only grew keeps the tables consistent |
| Ingestion.ConsistentWithClients | commission/services.py:76-79 | a positional client table that only grew keeps the tables consistent |
| Ingestion.ConsistentWithSale | commission/services.py:82-87 | a sale with the next id that points at an existing product and client keeps the tables consistent |
| Ingestion.IngestOnlyAppends | commission/services.py:61-97 | no earlier row changes, and a call adds at most one product, one client and one transaction |
| Ingestion.IngestPreservesConsistency | commission/services.py:61-97 | ids stay positional, and every transaction keeps pointing at an existing product and client |
| Ingestion.Store.constructor | commission/models.py:13-87 | a new store has four empty tables |
| Ingestion.Store.CreateSummary | commission/services.py:63-67 | appends one summary with the next id, changes no other table and keeps a consistent store consistent |
| Ingestion.Store.GetOrCreateProduct | commission/services.py:70-73 | updates the product table and returns as `UpsertProduct` says, touching no other table and keeping a consistent store consistent |
| Ingestion.Store.GetOrCreateClient | commission/services.py:76-79 | updates the client table and returns as `UpsertClient` says, touching no other table and keeping a consistent store consistent |
| Ingestion.Store.CreateTransaction | commission/services.py:82-87 | appends one transaction with the next id, changes no other table, and keeps the store consistent when the product and client ids exist |
| Ingestion.Store.ProcessMeetingSummary | commission/services.py:51-97 | the tables afterwards and the outcome are those of `Ingest` on the tables before, and the store stays consistent |

## Left out

- The extractor's network call to the language model and its JSON parsing. Its answer is the input `ExtractedInfo`. Only its fallback mapping (amount 0) is modelled.
- Extracted values that are neither strings nor numbers, such as JSON null, lists or a numeric client name. Amounts given as strings are also left out. Each field is modelled as an optional string or an optional exact number.
- Float sale amounts and the binary value that `Decimal(float)` would take. Amounts are exact.
- Commissions.AmountRule: Python's `Decimal` context rounds to 28 significant digits. The model's arithmetic is exact, so results that need more digits are not rounded.
- Transaction metadata values that are not numbers. `Decimal(...)` accepts numeric strings and booleans, and raises on other strings, null or lists. Metadata maps keys to exact numbers.
- Transaction metadata that is not a JSON object, such as the JSON-encoded string a client can post. `.get` on it raises AttributeError in the SCOPE branch. Metadata is always a mapping here.
- Commissions.AmountRule: a `Decimal` amount carries an exponent, which decides how many decimals `str` prints. The model's `real` amounts keep the value and drop the exponent.
- Payment types outside the two choices. The engine treats any type other than DAY_OF_MONTH as SPECIFIC_DATE, and the two-valued `PaymentType` has only that one alternative.
- Formatting.IsSpace covers the whitespace of `str.isspace` for the code points listed; Unicode categories beyond those are not modelled.
- The clock is read once per call. `calculate_commission` reads `timezone.now().date()` anew for every payable structure, at lines 29 and 37, so a call that spans midnight can date its structures against different days. The model dates all of them against the one `today`.
- `created_at` and `updated_at` timestamps, which come from the clock. The client's phone number and e-mail are not modelled either.
- Client.__str__ returns the display name unchanged. It is not a separate member.
- `InsuranceCompany` and `Agreement.__str__`, which the engine does not use.
- Persisting Commission rows. `calculate_commission` returns dictionaries and persists nothing.
- Database transactions, races between concurrent requests and ORM query ordering. A query returns rows in table order.
- The API layer: views, URLs, serializers, permissions, e-mail, and the extra transaction the submit view creates.
- The management command and the migrations.
- The frontend.
