/**
 * `process_meeting_summary` (commission/services.py, lines 51-97): validate
 * the extractor's fields, record a meeting summary, get or create the
 * product and the client by name, and record the sale. The extractor's
 * output is an input; the tables are sequences whose ids are positions.
 */
module Ingestion {
  import opened Wrappers
  import opened Models
  import opened Formatting
  import Commissions

  /** The mapping the extractor returns; each key may be absent. */
  datatype ExtractedInfo = ExtractedInfo(
    clientName: Option<string>,
    productName: Option<string>,
    productCategory: Option<string>,
    productType: Option<string>,
    amount: Option<real>)

  /** What the extractor returns when the model's answer is not JSON. */
  const FallbackInfo := ExtractedInfo(Some("Unknown"), Some("Unknown"), Some("Unknown"), Some("Unknown"), Some(0.0))

  /** The category a new product gets when the extractor gave none. */
  const DefaultCategory := "INSURANCE"

  /** Python truthiness of a string that may be missing, and of a number that may be missing. */
  predicate IsTruthy(s: Option<string>) {
    s.Some? && |s.value| > 0
  }

  predicate IsTruthyAmount(a: Option<real>) {
    a.Some? && a.value != 0.0
  }

  /** The guard of line 61. */
  predicate HasRequiredFields(info: ExtractedInfo) {
    IsTruthy(info.clientName) && IsTruthy(info.productName) && IsTruthyAmount(info.amount)
  }

  /** The four tables the pipeline touches. */
  datatype Tables = Tables(
    products: seq<Product>,
    clients: seq<Client>,
    transactions: seq<Transaction>,
    summaries: seq<MeetingSummary>)

  predicate PositionalProducts(ps: seq<Product>) {
    forall i :: 0 <= i < |ps| ==> ps[i].id == i + 1
  }

  predicate PositionalClients(cs: seq<Client>) {
    forall i :: 0 <= i < |cs| ==> cs[i].id == i + 1
  }

  /** Ids are 1-based positions, and every transaction points at an existing product and, if any, client. */
  predicate Consistent(db: Tables) {
    && PositionalProducts(db.products)
    && PositionalClients(db.clients)
    && (forall i :: 0 <= i < |db.transactions| ==> db.transactions[i].id == i + 1)
    && (forall i :: 0 <= i < |db.transactions| ==> 1 <= db.transactions[i].product <= |db.products|)
    && (forall i :: 0 <= i < |db.transactions| && db.transactions[i].client.Some? ==>
          1 <= db.transactions[i].client.value <= |db.clients|)
    && (forall i :: 0 <= i < |db.summaries| ==> db.summaries[i].id == i + 1)
  }

  /** The exceptions the success path can raise after its summary is already recorded. */
  datatype IngestError =
    | MultipleProductsReturned  // Product.objects.get_or_create found several products with the name
    | MultipleClientsReturned   // Client.objects.get_or_create found several clients with the display name
    | ClientNameHasNoWords      // IndexError: split()[0] of an all-whitespace client name

  /** `(summary, transaction or None)`, or the exception that escaped. */
  datatype Outcome = Processed(summary: MeetingSummary, transaction: Option<Transaction>) | Raised(error: IngestError)

  /** The products a lookup by name finds, in table order. */
  function ProductsNamed(products: seq<Product>, name: string): (r: seq<Product>)
    ensures |r| <= |products|
    ensures forall p :: p in r <==> p in products && p.name == name
  {
    if |products| == 0 then []
    else (if products[0].name == name then [products[0]] else []) + ProductsNamed(products[1..], name)
  }

  /** The clients a lookup by display name finds, in table order. */
  function ClientsNamed(clients: seq<Client>, displayName: string): (r: seq<Client>)
    ensures |r| <= |clients|
    ensures forall c :: c in r <==> c in clients && c.displayName == displayName
  {
    if |clients| == 0 then []
    else (if clients[0].displayName == displayName then [clients[0]] else []) + ClientsNamed(clients[1..], displayName)
  }

  /** The lookup finds each product with the name exactly as often as it occurs. */
  lemma {:induction false} ProductsNamedCounts(products: seq<Product>, name: string)
    ensures forall p :: multiset(ProductsNamed(products, name))[p] == if p.name == name then multiset(products)[p] else 0
  {
    if |products| > 0 {
      ProductsNamedCounts(products[1..], name);
      assert products == [products[0]] + products[1..];
    }
  }

  /** Two rows carrying the name make the lookup find several products. */
  lemma {:induction false} TwoNamedMeansSeveralProducts(products: seq<Product>, name: string, i: nat, j: nat)
    requires i < j < |products| && products[i].name == name && products[j].name == name
    ensures |ProductsNamed(products, name)| > 1
  {
    var rest := products[1..];
    assert products[j] == rest[j - 1];
    if i == 0 {
      assert rest[j - 1] in rest;
      assert rest[j - 1] in ProductsNamed(rest, name);
    } else {
      assert products[i] == rest[i - 1];
      TwoNamedMeansSeveralProducts(rest, name, i - 1, j - 1);
    }
  }

  /** A lookup that finds several products found two rows carrying the name. */
  lemma {:induction false} SeveralMeansTwoNamedProducts(products: seq<Product>, name: string)
    requires |ProductsNamed(products, name)| > 1
    ensures exists i, j :: 0 <= i < j < |products| && products[i].name == name && products[j].name == name
  {
    var rest := products[1..];
    if products[0].name == name {
      assert ProductsNamed(products, name) == [products[0]] + ProductsNamed(rest, name);
      var q := ProductsNamed(rest, name)[0];
      assert q in rest && q.name == name;
      var k :| 0 <= k < |rest| && rest[k] == q;
      assert products[k + 1] == q;
      assert 0 < k + 1 < |products| && products[0].name == name && products[k + 1].name == name;
    } else {
      assert ProductsNamed(products, name) == ProductsNamed(rest, name);
      SeveralMeansTwoNamedProducts(rest, name);
      var i, j :| 0 <= i < j < |rest| && rest[i].name == name && rest[j].name == name;
      assert products[i + 1] == rest[i] && products[j + 1] == rest[j];
      assert 0 <= i + 1 < j + 1 < |products| && products[i + 1].name == name && products[j + 1].name == name;
    }
  }

  /** The lookup finds several products exactly when two rows of the table carry the name, which is when `get_or_create` raises. */
  lemma SeveralProductsNamed(products: seq<Product>, name: string)
    ensures |ProductsNamed(products, name)| > 1 <==>
      exists i, j :: 0 <= i < j < |products| && products[i].name == name && products[j].name == name
  {
    if |ProductsNamed(products, name)| > 1 {
      SeveralMeansTwoNamedProducts(products, name);
    }
    if exists i, j :: 0 <= i < j < |products| && products[i].name == name && products[j].name == name {
      var i, j :| 0 <= i < j < |products| && products[i].name == name && products[j].name == name;
      TwoNamedMeansSeveralProducts(products, name, i, j);
    }
  }

  /** Two rows carrying the display name make the lookup find several clients. */
  lemma {:induction false} TwoNamedMeansSeveralClients(clients: seq<Client>, name: string, i: nat, j: nat)
    requires i < j < |clients| && clients[i].displayName == name && clients[j].displayName == name
    ensures |ClientsNamed(clients, name)| > 1
  {
    var rest := clients[1..];
    assert clients[j] == rest[j - 1];
    if i == 0 {
      assert rest[j - 1] in rest;
      assert rest[j - 1] in ClientsNamed(rest, name);
    } else {
      assert clients[i] == rest[i - 1];
      TwoNamedMeansSeveralClients(rest, name, i - 1, j - 1);
    }
  }

  /** A lookup that finds several clients found two rows carrying the display name. */
  lemma {:induction false} SeveralMeansTwoNamedClients(clients: seq<Client>, name: string)
    requires |ClientsNamed(clients, name)| > 1
    ensures exists i, j :: 0 <= i < j < |clients| && clients[i].displayName == name && clients[j].displayName == name
  {
    var rest := clients[1..];
    if clients[0].displayName == name {
      assert ClientsNamed(clients, name) == [clients[0]] + ClientsNamed(rest, name);
      var q := ClientsNamed(rest, name)[0];
      assert q in rest && q.displayName == name;
      var k :| 0 <= k < |rest| && rest[k] == q;
      assert clients[k + 1] == q;
      assert 0 < k + 1 < |clients| && clients[0].displayName == name && clients[k + 1].displayName == name;
    } else {
      assert ClientsNamed(clients, name) == ClientsNamed(rest, name);
      SeveralMeansTwoNamedClients(rest, name);
      var i, j :| 0 <= i < j < |rest| && rest[i].displayName == name && rest[j].displayName == name;
      assert clients[i + 1] == rest[i] && clients[j + 1] == rest[j];
      assert 0 <= i + 1 < j + 1 < |clients| && clients[i + 1].displayName == name && clients[j + 1].displayName == name;
    }
  }

  /** The lookup finds several clients exactly when two rows of the table carry the display name, which is when `get_or_create` raises. */
  lemma SeveralClientsNamed(clients: seq<Client>, name: string)
    ensures |ClientsNamed(clients, name)| > 1 <==>
      exists i, j :: 0 <= i < j < |clients| && clients[i].displayName == name && clients[j].displayName == name
  {
    if |ClientsNamed(clients, name)| > 1 {
      SeveralMeansTwoNamedClients(clients, name);
    }
    if exists i, j :: 0 <= i < j < |clients| && clients[i].displayName == name && clients[j].displayName == name {
      var i, j :| 0 <= i < j < |clients| && clients[i].displayName == name && clients[j].displayName == name;
      TwoNamedMeansSeveralClients(clients, name, i, j);
    }
  }

  /** The lookup finds each client with the display name exactly as often as it occurs. */
  lemma {:induction false} ClientsNamedCounts(clients: seq<Client>, displayName: string)
    ensures forall c :: multiset(ClientsNamed(clients, displayName))[c] ==
                        if c.displayName == displayName then multiset(clients)[c] else 0
  {
    if |clients| > 0 {
      ClientsNamedCounts(clients[1..], displayName);
      assert clients == [clients[0]] + clients[1..];
    }
  }

  /**
   * `Product.objects.get_or_create(name=name, defaults={'category': category})`:
   * the one product with that name, unchanged; else a new one appended; an
   * error when several share the name.
   */
  function UpsertProduct(products: seq<Product>, name: string, category: string): (r: Result<(seq<Product>, Product), IngestError>)
    ensures r.Success? <==> |ProductsNamed(products, name)| <= 1
    ensures r.Success? ==> r.value.1.name == name && r.value.1 in r.value.0
    ensures r.Success? && |ProductsNamed(products, name)| == 1 ==>
      r.value.0 == products && r.value.1 in products
    ensures r.Success? && |ProductsNamed(products, name)| == 0 ==>
      r.value.1 == Product(|products| + 1, name, category) && r.value.0 == products + [r.value.1]
    ensures r.Success? && PositionalProducts(products) ==>
      PositionalProducts(r.value.0) && 1 <= r.value.1.id <= |r.value.0|
  {
    var found := ProductsNamed(products, name);
    if |found| == 0 then
      var created := Product(|products| + 1, name, category);
      Success((products + [created], created))
    else if |found| == 1 then
      assert found[0] in found;
      Success((products, found[0]))
    else Failure(MultipleProductsReturned)
  }

  /**
   * `Client.objects.get_or_create(display_name=displayName, defaults={...})`:
   * the one client with that display name; else a new one with the given
   * first and last names; an error when several share it.
   */
  function UpsertClient(clients: seq<Client>, displayName: string, firstName: string, lastName: string)
    : (r: Result<(seq<Client>, Client), IngestError>)
    ensures r.Success? <==> |ClientsNamed(clients, displayName)| <= 1
    ensures r.Success? ==> r.value.1.displayName == displayName && r.value.1 in r.value.0
    ensures r.Success? && |ClientsNamed(clients, displayName)| == 1 ==>
      r.value.0 == clients && r.value.1 in clients
    ensures r.Success? && |ClientsNamed(clients, displayName)| == 0 ==>
      r.value.1 == Client(|clients| + 1, firstName, lastName, displayName) && r.value.0 == clients + [r.value.1]
    ensures r.Success? && PositionalClients(clients) ==>
      PositionalClients(r.value.0) && 1 <= r.value.1.id <= |r.value.0|
  {
    var found := ClientsNamed(clients, displayName);
    if |found| == 0 then
      var created := Client(|clients| + 1, firstName, lastName, displayName);
      Success((clients + [created], created))
    else if |found| == 1 then
      assert found[0] in found;
      Success((clients, found[0]))
    else Failure(MultipleClientsReturned)
  }

  /** The summary the call records first, whatever happens next. */
  function SummaryFor(db: Tables, user: nat, content: string, info: ExtractedInfo): MeetingSummary {
    MeetingSummary(|db.summaries| + 1, user, content,
                   if HasRequiredFields(info) then SummarySucceeded else SummaryFailed)
  }

  /** The whole call: the tables afterwards and what it returns or raises. */
  function Ingest(db: Tables, user: nat, content: string, info: ExtractedInfo): (Tables, Outcome) {
    var summary := SummaryFor(db, user, content, info);
    var db1 := db.(summaries := db.summaries + [summary]);
    if !HasRequiredFields(info) then (db1, Processed(summary, None))
    else
      match UpsertProduct(db.products, info.productName.value, info.productCategory.GetOr(DefaultCategory))
      case Failure(e) => (db1, Raised(e))
      case Success((products, product)) =>
        var db2 := db1.(products := products);
        var words := Words(info.clientName.value);
        if |words| == 0 then (db2, Raised(ClientNameHasNoWords))
        else
          match UpsertClient(db.clients, info.clientName.value, words[0], words[|words| - 1])
          case Failure(e) => (db2, Raised(e))
          case Success((clients, client)) =>
            var sale := Transaction(|db.transactions| + 1, user, Some(client.id), product.id,
                                    map["amount" := info.amount.value]);
            (db2.(clients := clients, transactions := db.transactions + [sale]), Processed(summary, Some(sale)))
  }

  /** Every call records exactly one summary, SUCCESS exactly when the three required fields are truthy. */
  lemma IngestRecordsOneSummary(db: Tables, user: nat, content: string, info: ExtractedInfo)
    ensures var after := Ingest(db, user, content, info).0;
      |after.summaries| == |db.summaries| + 1
      && after.summaries[..|db.summaries|] == db.summaries
      && after.summaries[|db.summaries|].agent == user
      && after.summaries[|db.summaries|].content == content
      && (after.summaries[|db.summaries|].processedStatus == SummarySucceeded <==> HasRequiredFields(info))
      && (after.summaries[|db.summaries|].processedStatus == SummaryFailed <==> !HasRequiredFields(info))
  {
    var after := Ingest(db, user, content, info).0;
    assert after.summaries == db.summaries + [SummaryFor(db, user, content, info)];
  }

  /** Missing fields: a FAILED summary, no transaction, and no other table touched. */
  lemma IngestRejectsIncomplete(db: Tables, user: nat, content: string, info: ExtractedInfo)
    requires !HasRequiredFields(info)
    ensures var (after, outcome) := Ingest(db, user, content, info);
      && outcome == Processed(MeetingSummary(|db.summaries| + 1, user, content, SummaryFailed), None)
      && after.products == db.products && after.clients == db.clients && after.transactions == db.transactions
  {
  }

  /** The extractor's fallback mapping carries amount 0, so it is always rejected. */
  lemma FallbackIsRejected(db: Tables, user: nat, content: string)
    ensures !HasRequiredFields(FallbackInfo)
    ensures Ingest(db, user, content, FallbackInfo).1.Processed?
    ensures Ingest(db, user, content, FallbackInfo).1.transaction.None?
    ensures Ingest(db, user, content, FallbackInfo).1.summary.processedStatus == SummaryFailed
  {
    IngestRejectsIncomplete(db, user, content, FallbackInfo);
  }

  /**
   * A call that returns normally after validation appends exactly one
   * transaction: the agent's sale of the named product to the named client,
   * carrying the extracted amount.
   */
  lemma IngestRecordsSale(db: Tables, user: nat, content: string, info: ExtractedInfo)
    requires HasRequiredFields(info)
    requires Ingest(db, user, content, info).1.Processed?
    ensures var (after, outcome) := Ingest(db, user, content, info);
      && outcome.summary.processedStatus == SummarySucceeded
      && outcome.transaction.Some?
      && after.transactions == db.transactions + [outcome.transaction.value]
      && outcome.transaction.value.id == |db.transactions| + 1
      && outcome.transaction.value.agent == user
      && outcome.transaction.value.metadata == map["amount" := info.amount.value]
      && Commissions.SaleAmount(outcome.transaction.value) == info.amount.value
      && (exists p :: p in after.products && p.name == info.productName.value
                      && p.id == outcome.transaction.value.product)
      && (exists c :: c in after.clients && c.displayName == info.clientName.value
                      && Some(c.id) == outcome.transaction.value.client)
  {
  }

  /** With truthy fields, unambiguous names and a client name with a word, the call returns a transaction. */
  lemma IngestSucceedsWhenUnambiguous(db: Tables, user: nat, content: string, info: ExtractedInfo)
    requires HasRequiredFields(info)
    requires |ProductsNamed(db.products, info.productName.value)| <= 1
    requires |ClientsNamed(db.clients, info.clientName.value)| <= 1
    requires !AllSpace(info.clientName.value)
    ensures Ingest(db, user, content, info).1.Processed?
    ensures Ingest(db, user, content, info).1.transaction.Some?
  {
  }

  /**
   * Get-or-create: an existing product with the name is reused unchanged,
   * otherwise one is appended with the extracted category or INSURANCE.
   */
  lemma IngestProductUpsert(db: Tables, user: nat, content: string, info: ExtractedInfo)
    requires HasRequiredFields(info)
    ensures var after := Ingest(db, user, content, info).0;
      var found := ProductsNamed(db.products, info.productName.value);
      && (|found| == 1 ==> after.products == db.products)
      && (|found| == 0 ==>
            after.products == db.products + [Product(|db.products| + 1, info.productName.value,
                                                     info.productCategory.GetOr(DefaultCategory))])
      && (|found| > 1 ==> after.products == db.products && Ingest(db, user, content, info).1 == Raised(MultipleProductsReturned))
  {
  }

  /**
   * The client step's failures: when the product step raised, the client
   * table is not touched; after it, an all-whitespace name raises IndexError
   * and several clients with the display name raise, neither touching the
   * client table.
   */
  lemma IngestClientRaises(db: Tables, user: nat, content: string, info: ExtractedInfo)
    requires HasRequiredFields(info)
    ensures |ProductsNamed(db.products, info.productName.value)| > 1 ==>
      Ingest(db, user, content, info).0.clients == db.clients
    ensures |ProductsNamed(db.products, info.productName.value)| <= 1 && AllSpace(info.clientName.value) ==>
      && Ingest(db, user, content, info).0.clients == db.clients
      && Ingest(db, user, content, info).1 == Raised(ClientNameHasNoWords)
    ensures var found := ClientsNamed(db.clients, info.clientName.value);
      |ProductsNamed(db.products, info.productName.value)| <= 1 && !AllSpace(info.clientName.value) && |found| > 1 ==>
      && Ingest(db, user, content, info).0.clients == db.clients
      && Ingest(db, user, content, info).1 == Raised(MultipleClientsReturned)
  {
    var r := Ingest(db, user, content, info);
    var summary := SummaryFor(db, user, content, info);
    var db1 := db.(summaries := db.summaries + [summary]);
    var up := UpsertProduct(db.products, info.productName.value, info.productCategory.GetOr(DefaultCategory));
    if up.Failure? {
      assert r == (db1, Raised(up.error));
    } else {
      var db2 := db1.(products := up.value.0);
      var name := info.clientName.value;
      var words := Words(name);
      if |words| == 0 {
        assert r == (db2, Raised(ClientNameHasNoWords));
      } else {
        var uc := UpsertClient(db.clients, name, words[0], words[|words| - 1]);
        if uc.Failure? {
          assert r == (db2, Raised(uc.error));
        }
      }
    }
  }

  /**
   * Get-or-create on the client, once the product step has passed and the
   * name has a word: the one client with the display name is reused, and
   * otherwise one is appended whose first and last names are the first and
   * last words of the name.
   */
  lemma IngestClientUpsert(db: Tables, user: nat, content: string, info: ExtractedInfo)
    requires HasRequiredFields(info)
    ensures var found := ClientsNamed(db.clients, info.clientName.value);
      |ProductsNamed(db.products, info.productName.value)| <= 1 && !AllSpace(info.clientName.value) && |found| == 1 ==>
      && Ingest(db, user, content, info).0.clients == db.clients
      && Ingest(db, user, content, info).1.Processed?
    ensures var name := info.clientName.value; var found := ClientsNamed(db.clients, name);
      |ProductsNamed(db.products, info.productName.value)| <= 1 && !AllSpace(name) && |found| == 0 ==>
      && Ingest(db, user, content, info).1.Processed?
      && Ingest(db, user, content, info).0.clients ==
           db.clients + [Client(|db.clients| + 1, Words(name)[0], Words(name)[|Words(name)| - 1], name)]
  {
    var r := Ingest(db, user, content, info);
    var up := UpsertProduct(db.products, info.productName.value, info.productCategory.GetOr(DefaultCategory));
    var name := info.clientName.value;
    var words := Words(name);
    if up.Success? && |words| > 0 {
      var uc := UpsertClient(db.clients, name, words[0], words[|words| - 1]);
      if uc.Success? {
        assert r.0.clients == uc.value.0 && r.1.Processed?;
      }
    }
  }

  /** Earlier rows are never changed, and each call adds at most one product, one client and one transaction. */
  lemma IngestOnlyAppends(db: Tables, user: nat, content: string, info: ExtractedInfo)
    ensures var after := Ingest(db, user, content, info).0;
      && |db.products| <= |after.products| <= |db.products| + 1 && after.products[..|db.products|] == db.products
      && |db.clients| <= |after.clients| <= |db.clients| + 1 && after.clients[..|db.clients|] == db.clients
      && |db.transactions| <= |after.transactions| <= |db.transactions| + 1
      && after.transactions[..|db.transactions|] == db.transactions
  {
  }

  /** Appending a summary with the next id keeps the tables consistent. */
  lemma ConsistentWithSummary(db: Tables, summary: MeetingSummary)
    requires Consistent(db) && summary.id == |db.summaries| + 1
    ensures Consistent(db.(summaries := db.summaries + [summary]))
  {
  }

  /** A positional product table that only grew keeps the tables consistent. */
  lemma ConsistentWithProducts(db: Tables, products: seq<Product>)
    requires Consistent(db) && PositionalProducts(products) && |db.products| <= |products|
    ensures Consistent(db.(products := products))
  {
  }

  /** A positional client table that only grew keeps the tables consistent. */
  lemma ConsistentWithClients(db: Tables, clients: seq<Client>)
    requires Consistent(db) && PositionalClients(clients) && |db.clients| <= |clients|
    ensures Consistent(db.(clients := clients))
  {
  }

  /** A sale with the next id that points at an existing product and client keeps the tables consistent. */
  lemma ConsistentWithSale(db: Tables, sale: Transaction)
    requires Consistent(db) && sale.id == |db.transactions| + 1
    requires 1 <= sale.product <= |db.products|
    requires sale.client.Some? ==> 1 <= sale.client.value <= |db.clients|
    ensures Consistent(db.(transactions := db.transactions + [sale]))
  {
  }

  /** The call keeps ids positional and every transaction's product and client present. */
  lemma IngestPreservesConsistency(db: Tables, user: nat, content: string, info: ExtractedInfo)
    requires Consistent(db)
    ensures Consistent(Ingest(db, user, content, info).0)
  {
    var after := Ingest(db, user, content, info).0;
    var summary := SummaryFor(db, user, content, info);
    var db1 := db.(summaries := db.summaries + [summary]);
    ConsistentWithSummary(db, summary);
    if HasRequiredFields(info) {
      var up := UpsertProduct(db.products, info.productName.value, info.productCategory.GetOr(DefaultCategory));
      if up.Success? {
        var db2 := db1.(products := up.value.0);
        ConsistentWithProducts(db1, up.value.0);
        var name := info.clientName.value;
        var words := Words(name);
        if |words| > 0 {
          var uc := UpsertClient(db.clients, name, words[0], words[|words| - 1]);
          if uc.Success? {
            var db3 := db2.(clients := uc.value.0);
            ConsistentWithClients(db2, uc.value.0);
            var sale := Transaction(|db.transactions| + 1, user, Some(uc.value.1.id), up.value.1.id,
                                    map["amount" := info.amount.value]);
            ConsistentWithSale(db3, sale);
            assert after == db3.(transactions := db3.transactions + [sale]);
          } else {
            assert after == db2;
          }
        } else {
          assert after == db2;
        }
      } else {
        assert after == db1;
      }
    } else {
      assert after == db1;
    }
  }

  /** The application's tables, updated in place by the pipeline. */
  class Store {
    var products: seq<Product>
    var clients: seq<Client>
    var transactions: seq<Transaction>
    var summaries: seq<MeetingSummary>

    function Snapshot(): Tables
      reads this
    {
      Tables(products, clients, transactions, summaries)
    }

    ghost predicate Valid()
      reads this
    {
      Consistent(Snapshot())
    }

    constructor ()
      ensures Valid() && Snapshot() == Tables([], [], [], [])
    {
      products, clients, transactions, summaries := [], [], [], [];
    }

    /** `MeetingSummary.objects.create(...)`. */
    method CreateSummary(user: nat, content: string, status: string) returns (summary: MeetingSummary)
      modifies this
      ensures old(Valid()) ==> Valid()
      ensures summary == MeetingSummary(|old(summaries)| + 1, user, content, status)
      ensures summaries == old(summaries) + [summary]
      ensures products == old(products) && clients == old(clients) && transactions == old(transactions)
    {
      summary := MeetingSummary(|summaries| + 1, user, content, status);
      summaries := summaries + [summary];
    }

    /** `Product.objects.get_or_create(...)`. */
    method GetOrCreateProduct(name: string, category: string) returns (r: Result<Product, IngestError>)
      modifies this
      ensures old(Valid()) ==> Valid()
      ensures UpsertProduct(old(products), name, category).Success? ==>
        r == Success(UpsertProduct(old(products), name, category).value.1)
        && products == UpsertProduct(old(products), name, category).value.0
      ensures UpsertProduct(old(products), name, category).Failure? ==>
        r == Failure(UpsertProduct(old(products), name, category).error) && products == old(products)
      ensures clients == old(clients) && transactions == old(transactions) && summaries == old(summaries)
    {
      var found := ProductsNamed(products, name);
      if |found| == 0 {
        var created := Product(|products| + 1, name, category);
        products := products + [created];
        r := Success(created);
      } else if |found| == 1 {
        r := Success(found[0]);
      } else {
        r := Failure(MultipleProductsReturned);
      }
    }

    /** `Client.objects.get_or_create(...)`. */
    method GetOrCreateClient(displayName: string, firstName: string, lastName: string) returns (r: Result<Client, IngestError>)
      modifies this
      ensures old(Valid()) ==> Valid()
      ensures UpsertClient(old(clients), displayName, firstName, lastName).Success? ==>
        r == Success(UpsertClient(old(clients), displayName, firstName, lastName).value.1)
        && clients == UpsertClient(old(clients), displayName, firstName, lastName).value.0
      ensures UpsertClient(old(clients), displayName, firstName, lastName).Failure? ==>
        r == Failure(UpsertClient(old(clients), displayName, firstName, lastName).error) && clients == old(clients)
      ensures products == old(products) && transactions == old(transactions) && summaries == old(summaries)
    {
      var found := ClientsNamed(clients, displayName);
      if |found| == 0 {
        var created := Client(|clients| + 1, firstName, lastName, displayName);
        clients := clients + [created];
        r := Success(created);
      } else if |found| == 1 {
        r := Success(found[0]);
      } else {
        r := Failure(MultipleClientsReturned);
      }
    }

    /** `Transaction.objects.create(...)`. */
    method CreateTransaction(user: nat, client: Option<nat>, product: nat, metadata: map<string, real>)
      returns (sale: Transaction)
      modifies this
      ensures old(Valid()) && 1 <= product <= |products| && (client.Some? ==> 1 <= client.value <= |clients|) ==> Valid()
      ensures sale == Transaction(|old(transactions)| + 1, user, client, product, metadata)
      ensures transactions == old(transactions) + [sale]
      ensures products == old(products) && clients == old(clients) && summaries == old(summaries)
    {
      sale := Transaction(|transactions| + 1, user, client, product, metadata);
      transactions := transactions + [sale];
    }

    /** `process_meeting_summary(user, content)` with the extractor's answer `info`. */
    method ProcessMeetingSummary(user: nat, content: string, info: ExtractedInfo) returns (r: Outcome)
      requires Valid()
      modifies this
      ensures Valid()
      ensures Snapshot() == Ingest(old(Snapshot()), user, content, info).0
      ensures r == Ingest(old(Snapshot()), user, content, info).1
    {
      IngestPreservesConsistency(Snapshot(), user, content, info);
      if HasRequiredFields(info) {
        var summary := CreateSummary(user, content, SummarySucceeded);
        var product := GetOrCreateProduct(info.productName.value, info.productCategory.GetOr(DefaultCategory));
        if product.Failure? {
          return Raised(product.error);
        }
        var name := info.clientName.value;
        var words := Words(name);
        if |words| == 0 {
          return Raised(ClientNameHasNoWords);
        }
        var client := GetOrCreateClient(name, words[0], words[|words| - 1]);
        if client.Failure? {
          return Raised(client.error);
        }
        var sale := CreateTransaction(user, Some(client.value.id), product.value.id, map["amount" := info.amount.value]);
        r := Processed(summary, Some(sale));
      } else {
        var summary := CreateSummary(user, content, SummaryFailed);
        r := Processed(summary, None);
      }
    }
  }
}
