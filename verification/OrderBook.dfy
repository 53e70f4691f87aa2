/** Orders, order lines and invoices, in whole cents; the roll-up check over them; and the
    proof that whatever the random stream, money is conserved from lines to invoices. */
module OrderBook {
  import opened Wrappers
  import opened Random
  import Roster
  import Text

  datatype Status = Placed | Picked | Shipped | Delivered | Cancelled
  datatype InvoiceStatus = Paid | PartPaid | Overdue | Issued

  datatype Customer = Customer(id: string, region: Roster.Region, location: string)
  datatype Product = Product(id: string, unitPrice: nat, discontinued: bool)

  datatype Order = Order(id: string, customer: string, location: string, clerk: string, orderedOn: int,
    status: Status, total: int)
  datatype Line = Line(id: string, order: string, product: string, quantity: int, unitPrice: int, total: int)
  datatype Invoice = Invoice(id: string, order: string, customer: string, issuedOn: int, dueOn: int,
                             due: int, paid: int, status: InvoiceStatus)

  datatype Book = Book(orders: seq<Order>, lines: seq<Line>, invoices: seq<Invoice>)

  datatype GenerationError = SampleLargerThanPopulation

  const STATUSES := [Placed, Picked, Shipped, Delivered, Cancelled]
  const ORDER_TAKING_DEPARTMENTS := ["Retail Operations", "Supply Chain", "Customer Support"]

  /** Rounding to the nearest cent. */
  function Round(x: real): int {
    (x + 0.5).Floor
  }

  /** A share of an amount, in whole cents. */
  function Share(amount: int, u: real): int {
    Round(amount as real * u)
  }

  function OrderId(index: nat): string {
    "ORD-" + Text.Padded(6, index + 1)
  }

  function LineId(index: nat, number: nat): string {
    "OL-" + Text.Padded(6, index + 1) + "-" + Text.Padded(2, number)
  }

  function InvoiceId(count: nat): string {
    "INV-" + Text.Padded(6, count)
  }

  lemma {:induction false} OrderIdInjective(i: nat, j: nat)
    requires OrderId(i) == OrderId(j)
    ensures i == j
  {
    hide Text.Padded, Text.ValueOf;
    Roster.PrefixInjective("ORD-", Text.Padded(6, i + 1), Text.Padded(6, j + 1));
    Text.PaddedRoundTrip(6, i + 1);
    Text.PaddedRoundTrip(6, j + 1);
  }

  /** A line's id is that of its order, with the line's number. */
  lemma {:induction false} LineIdNamesItsOrder(index: nat, number: nat)
    ensures OrderId(index)[..4] == "ORD-"
    ensures LineId(index, number) == "OL-" + OrderId(index)[4..] + "-" + Text.Padded(2, number)
  {
    hide Text.Padded;
    assert OrderId(index)[4..] == Text.Padded(6, index + 1);
  }

  lemma {:induction false} DashParts(a: string, x: string, b: string, y: string)
    requires '-' !in a && '-' !in b && a + "-" + x == b + "-" + y
    ensures a == b && x == y
  {
    var whole := a + "-" + x;
    assert whole[|a|] == '-' && whole[|b|] == '-';
    assert forall k | 0 <= k < |a| :: whole[k] == a[k] && a[k] in a;
    assert forall k | 0 <= k < |b| :: whole[k] == b[k] && b[k] in b;
    assert whole[..|a|] == a && whole[..|b|] == b && whole[|a| + 1..] == x && whole[|b| + 1..] == y;
  }

  lemma {:induction false} PaddedHasNoDash(width: nat, n: nat)
    ensures '-' !in Text.Padded(width, n)
  {
    hide Text.Decimal;
  }

  /** No two lines of a book could share one. */
  lemma {:induction false} LineIdInjective(i: nat, m: nat, j: nat, n: nat)
    requires LineId(i, m) == LineId(j, n)
    ensures i == j && m == n
  {
    hide Text.ValueOf, Text.Padded;
    var a, b := Text.Padded(6, i + 1), Text.Padded(6, j + 1);
    var x, y := Text.Padded(2, m), Text.Padded(2, n);
    assert LineId(i, m) == "OL-" + (a + "-" + x) && LineId(j, n) == "OL-" + (b + "-" + y);
    Roster.PrefixInjective("OL-", a + "-" + x, b + "-" + y);
    PaddedHasNoDash(6, i + 1);
    PaddedHasNoDash(6, j + 1);
    DashParts(a, x, b, y);
    Text.PaddedRoundTrip(6, i + 1);
    Text.PaddedRoundTrip(6, j + 1);
    Text.PaddedRoundTrip(2, m);
    Text.PaddedRoundTrip(2, n);
  }

  function InStock(products: seq<Product>): seq<Product> {
    if products == [] then []
    else if products[0].discontinued then InStock(products[1..])
    else [products[0]] + InStock(products[1..])
  }

  /** The products still on sale, or all of them when none is. */
  function Sellable(products: seq<Product>): seq<Product> {
    if InStock(products) != [] then InStock(products) else products
  }

  function Candidates(employees: seq<Roster.Employee>, region: Roster.Region,
                      departments: seq<string>): seq<Roster.Employee> {
    if employees == [] then []
    else if employees[0].region == region && employees[0].department in departments then
      [employees[0]] + Candidates(employees[1..], region, departments)
    else Candidates(employees[1..], region, departments)
  }

  // -------------------------------------------------------------- what a book promises

  function LinesOf(lines: seq<Line>, order: string): seq<Line> {
    if lines == [] then []
    else if lines[0].order == order then [lines[0]] + LinesOf(lines[1..], order)
    else LinesOf(lines[1..], order)
  }

  function Sum(lines: seq<Line>): int {
    if lines == [] then 0 else lines[0].total + Sum(lines[1..])
  }

  function Billable(orders: seq<Order>): seq<Order> {
    if orders == [] then []
    else if orders[0].status == Cancelled then Billable(orders[1..])
    else [orders[0]] + Billable(orders[1..])
  }

  ghost predicate LineFits(line: Line) {
    1 <= line.quantity && 0 <= line.unitPrice && line.total == line.unitPrice * line.quantity
  }

  /** A line sells one product: one to twenty-four of it, at nine tenths of its price to all of it. */
  ghost predicate Sells(line: Line, p: Product) {
    && line.product == p.id && 1 <= line.quantity <= 24
    && Share(p.unitPrice, 0.9) <= line.unitPrice <= p.unitPrice
    && line.total == line.unitPrice * line.quantity
  }

  ghost predicate OrderFits(order: Order, lines: seq<Line>) {
    && 1 <= |LinesOf(lines, order.id)| <= 4
    && order.total == Sum(LinesOf(lines, order.id))
  }

  ghost predicate Settles(invoice: Invoice, order: Order) {
    && invoice.order == order.id && invoice.customer == order.customer
    && invoice.due == order.total && 0 <= invoice.paid <= invoice.due
    && invoice.issuedOn > order.orderedOn && invoice.dueOn == invoice.issuedOn + 30
    && (order.status == Delivered ==> invoice.status == Paid && invoice.paid == invoice.due)
  }

  ghost predicate OrdersBalance(orders: seq<Order>, lines: seq<Line>) {
    forall i | 0 <= i < |orders| :: orders[i].id == OrderId(i) && OrderFits(orders[i], lines)
  }

  ghost predicate LinesBalance(orders: seq<Order>, lines: seq<Line>) {
    forall k | 0 <= k < |lines| :: LineFits(lines[k]) && exists i | 0 <= i < |orders| :: lines[k].order == orders[i].id
  }

  ghost predicate InvoicesBalance(orders: seq<Order>, invoices: seq<Invoice>) {
    && |invoices| == |Billable(orders)|
    && forall k | 0 <= k < |invoices| :: Settles(invoices[k], Billable(orders)[k])
  }

  /** Orders carry consecutive ids and are totalled from their own lines; every line belongs
      to an order; and the invoices are, one for one and in order, those of the orders that
      were not cancelled. */
  ghost predicate Balanced(book: Book) {
    && OrdersBalance(book.orders, book.lines)
    && LinesBalance(book.orders, book.lines)
    && InvoicesBalance(book.orders, book.invoices)
  }

  // ---------------------------------------------------------- where its figures come from

  /** Discontinued products are sold only where there are no others. */
  ghost predicate OnSale(products: seq<Product>, p: Product) {
    p in products && (p.discontinued ==> forall q :: q in products ==> q.discontinued)
  }

  ghost predicate TakesOrders(e: Roster.Employee, region: Roster.Region) {
    e.region == region && e.department in {"Retail Operations", "Supply Chain", "Customer Support"}
  }

  /** An order is placed by one of the customers, from its own location, with a clerk of its region
      who takes orders if there is one, in the year and a half before the planning date. */
  ghost predicate PlacedBy(order: Order, customers: seq<Customer>, employees: seq<Roster.Employee>, asOf: int) {
    && (exists c, e ::
          && c in customers && order.customer == c.id && order.location == c.location
          && e in employees && order.clerk == e.id
          && (TakesOrders(e, c.region) || forall other :: other in employees ==> !TakesOrders(other, c.region)))
    && 1 <= asOf - order.orderedOn < 540
  }

  /** The lines of an order sell different entries of the catalogue, all on sale. */
  ghost predicate Supplied(lines: seq<Line>, products: seq<Product>) {
    exists chosen: seq<Product> ::
      && |chosen| == |lines| && multiset(chosen) <= multiset(products)
      && forall k | 0 <= k < |lines| :: OnSale(products, chosen[k]) && Sells(lines[k], chosen[k])
  }

  /** What is paid of an invoice follows from the order: all of it once delivered, a fifth to four
      fifths once shipped, and nothing before, when it is overdue or not by its due date. */
  ghost predicate BilledAs(invoice: Invoice, order: Order, number: nat, asOf: int) {
    && invoice.id == InvoiceId(number) && 1 <= invoice.issuedOn - order.orderedOn <= 5
    && match order.status
       case Delivered => invoice.status == Paid && invoice.paid == invoice.due
       case Shipped =>
         invoice.status == PartPaid
         && Share(invoice.due, 0.2) <= invoice.paid <= Share(invoice.due, 0.8)
       case _ => invoice.paid == 0 && invoice.status == if invoice.dueOn < asOf then Overdue else Issued
  }

  ghost predicate OrdersDrawn(orders: seq<Order>, lines: seq<Line>, customers: seq<Customer>, products: seq<Product>,
                              employees: seq<Roster.Employee>, asOf: int) {
    forall i | 0 <= i < |orders| ::
      PlacedBy(orders[i], customers, employees, asOf) && Supplied(LinesOf(lines, orders[i].id), products)
  }

  ghost predicate InvoicesDrawn(orders: seq<Order>, invoices: seq<Invoice>, asOf: int) {
    && |invoices| == |Billable(orders)|
    && forall k | 0 <= k < |invoices| :: BilledAs(invoices[k], Billable(orders)[k], k + 1, asOf)
  }

  lemma {:induction false} InStockMeans(products: seq<Product>)
    ensures forall p :: p in InStock(products) <==> p in products && !p.discontinued
    ensures multiset(InStock(products)) <= multiset(products)
  {
    if products != [] {
      InStockMeans(products[1..]);
      assert products == [products[0]] + products[1..];
    }
  }

  lemma {:induction false} SellableMeans(products: seq<Product>)
    ensures forall p :: p in Sellable(products) <==> OnSale(products, p)
    ensures multiset(Sellable(products)) <= multiset(products)
  {
    InStockMeans(products);
    hide InStock;
    if InStock(products) != [] {
      assert InStock(products)[0] in InStock(products);
    }
    forall p
      ensures p in Sellable(products) <==> OnSale(products, p)
    {
      if p in products && !p.discontinued {
        assert p in InStock(products);
      }
    }
  }

  lemma {:induction false} Twice(s: seq<Product>, i: nat, j: nat)
    requires i < j < |s| && s[i] == s[j]
    ensures multiset(s)[s[i]] >= 2
  {
    assert s == s[..j] + [s[j]] + s[j + 1..];
    assert s[..j][i] == s[i];
    assert s[i] in multiset(s[..j]);
  }

  predicate DistinctProducts(products: seq<Product>) {
    forall a, b | 0 <= a < b < |products| :: products[a].id != products[b].id
  }

  lemma {:induction false} SameProduct(products: seq<Product>, p: Product, q: Product)
    requires DistinctProducts(products) && p in products && q in products && p.id == q.id
    ensures p == q
  {
    var a :| 0 <= a < |products| && products[a] == p;
    var b :| 0 <= b < |products| && products[b] == q;
  }

  /** With distinct product identifiers, no order sells the same product twice. */
  lemma {:induction false} NoProductTwice(lines: seq<Line>, products: seq<Product>, i: nat, j: nat)
    requires Supplied(lines, products) && i < j < |lines| && DistinctProducts(products)
    ensures lines[i].product != lines[j].product
  {
    hide DistinctProducts;
    var chosen: seq<Product> :|
      && |chosen| == |lines| && multiset(chosen) <= multiset(products)
      && forall k | 0 <= k < |lines| :: OnSale(products, chosen[k]) && Sells(lines[k], chosen[k]);
    if chosen[i].id == chosen[j].id {
      SameProduct(products, chosen[i], chosen[j]);
      Twice(chosen, i, j);
      OnlyOnce(products, chosen[i]);
    }
  }

  lemma {:induction false} OnlyOnce(products: seq<Product>, p: Product)
    requires DistinctProducts(products)
    ensures multiset(products)[p] <= 1
  {
    if products != [] {
      OnlyOnce(products[1..], p);
      assert products == [products[0]] + products[1..];
      if products[0] == p {
        forall q | q in products[1..]
          ensures q != p
        {
          var b :| 0 <= b < |products[1..]| && products[1..][b] == q;
          assert products[b + 1].id != products[0].id;
        }
        assert p !in multiset(products[1..]);
      }
    }
  }

  // --------------------------------------------------------------------- the generator

  method PickClerk(rng: Rng, employees: seq<Roster.Employee>, region: Roster.Region) returns (clerk: Roster.Employee)
    requires employees != []
    modifies rng
    ensures clerk in employees
    ensures Candidates(employees, region, ORDER_TAKING_DEPARTMENTS) != [] ==>
            clerk in Candidates(employees, region, ORDER_TAKING_DEPARTMENTS)
  {
    var candidates := Candidates(employees, region, ORDER_TAKING_DEPARTMENTS);
    CandidatesAreEmployees(employees, region, ORDER_TAKING_DEPARTMENTS);
    clerk := rng.Choice(if candidates != [] then candidates else employees);
  }

  lemma {:induction false} CandidatesAreEmployees(employees: seq<Roster.Employee>, region: Roster.Region,
                                                  departments: seq<string>)
    ensures forall e :: e in Candidates(employees, region, departments) <==>
                        e in employees && e.region == region && e.department in departments
  {
    if employees != [] {
      CandidatesAreEmployees(employees[1..], region, departments);
      assert employees == [employees[0]] + employees[1..];
    }
  }

  method DrawLine(rng: Rng, index: nat, number: nat, p: Product) returns (line: Line)
    modifies rng
    ensures Sells(line, p) && LineFits(line)
    ensures line.order == OrderId(index) && line.id == LineId(index, number)
  {
    hide OrderId, LineId, Share;
    var quantity := rng.RandRange(1, 25);
    var x := rng.Uniform();
    var unitPrice := Share(p.unitPrice, 0.9 + 0.1 * x);
    ShareOf(p.unitPrice, 0.9, 0.9 + 0.1 * x, 1.0);
    line := Line(LineId(index, number), OrderId(index), p.id, quantity, unitPrice, unitPrice * quantity);
  }

  /** The lines of one order, and their running total. */
  method LinesFor(rng: Rng, index: nat, chosen: seq<Product>) returns (lines: seq<Line>, total: int)
    modifies rng
    ensures |lines| == |chosen| && total == Sum(lines) && total >= 0
    ensures forall k | 0 <= k < |lines| ::
            Sells(lines[k], chosen[k]) && lines[k].order == OrderId(index) && lines[k].id == LineId(index, k + 1)
    ensures forall k | 0 <= k < |lines| :: LineFits(lines[k])
  {
    hide OrderId, LineId, Sells;
    lines, total := [], 0;
    for n := 0 to |chosen|
      invariant |lines| == n && total == Sum(lines) && total >= 0
      invariant forall k | 0 <= k < n ::
                Sells(lines[k], chosen[k]) && lines[k].order == OrderId(index) && lines[k].id == LineId(index, k + 1)
      invariant forall k | 0 <= k < n :: LineFits(lines[k])
    {
      var line := DrawLine(rng, index, n + 1, chosen[n]);
      PricedIsNonNegative(line.unitPrice, line.quantity);
      SumAppend(lines, [line]);
      lines := lines + [line];
      total := total + line.total;
    }
  }

  lemma {:induction false} LargerShare(amount: nat, u: real, v: real)
    requires u <= v
    ensures Share(amount, u) <= Share(amount, v)
  {
    var n := amount as real;
    assert n * (v - u) >= 0.0;
    assert n * v == n * u + n * (v - u);
    hide Round;
    RoundIsMonotone(n * u, n * v);
  }

  lemma {:induction false} WholeShare(amount: nat)
    ensures Share(amount, 0.0) == 0 && Share(amount, 1.0) == amount
  {
  }

  /** A share between two others stays between them in whole cents. */
  lemma {:induction false} ShareOf(amount: nat, lo: real, u: real, hi: real)
    requires 0.0 <= lo <= u <= hi <= 1.0
    ensures 0 <= Share(amount, lo) <= Share(amount, u) <= Share(amount, hi) <= amount
  {
    hide Share;
    WholeShare(amount);
    LargerShare(amount, 0.0, lo);
    LargerShare(amount, lo, u);
    LargerShare(amount, u, hi);
    LargerShare(amount, hi, 1.0);
  }

  lemma {:induction false} PricedIsNonNegative(price: int, quantity: int)
    requires price >= 0 && quantity >= 0
    ensures price * quantity >= 0
  {
  }

  /** To the nearest cent, and a half cent up. */
  lemma {:induction false} RoundIsNearest(x: real)
    ensures x - 0.5 < Round(x) as real <= x + 0.5
  {
  }

  lemma {:induction false} RoundIsMonotone(a: real, b: real)
    requires a <= b
    ensures Round(a) <= Round(b)
  {
  }

  lemma {:induction false} SumAppend(a: seq<Line>, b: seq<Line>)
    ensures Sum(a + b) == Sum(a) + Sum(b)
  {
    if a == [] {
      assert a + b == b;
    } else {
      assert (a + b)[1..] == a[1..] + b;
      SumAppend(a[1..], b);
    }
  }

  method Bill(rng: Rng, number: nat, order: Order, asOf: int) returns (invoice: Invoice)
    requires order.total >= 0
    modifies rng
    ensures Settles(invoice, order) && BilledAs(invoice, order, number, asOf)
  {
    hide InvoiceId, Share;
    var delay := rng.RandRange(1, 6);
    var issuedOn := order.orderedOn + delay;
    var dueOn := issuedOn + 30;
    var status, paid;
    if order.status == Delivered {
      status, paid := Paid, order.total;
    } else if order.status == Shipped {
      var x := rng.Uniform();
      ShareOf(order.total, 0.2, 0.2 + 0.6 * x, 0.8);
      status, paid := PartPaid, Share(order.total, 0.2 + 0.6 * x);
    } else if dueOn < asOf {
      status, paid := Overdue, 0;
    } else {
      status, paid := Issued, 0;
    }
    invoice := Invoice(InvoiceId(number), order.id, order.customer, issuedOn, dueOn, order.total, paid, status);
  }

  /** Main result: for every random stream, either a sample was asked for that the catalogue
      cannot supply, or the book balances. Four products on sale are always enough. */
  method OrdersAndInvoices(rng: Rng, customers: seq<Customer>, products: seq<Product>, employees: seq<Roster.Employee>,
                           volume: int, asOf: int) returns (r: Result<Book, GenerationError>)
    requires customers != [] && products != [] && employees != []
    modifies rng
    ensures |Sellable(products)| >= 4 ==> r.Ok?
    ensures r.Ok? ==> Balanced(r.value) && |r.value.orders| == if volume < 0 then 0 else volume
    ensures r.Ok? ==> OrdersDrawn(r.value.orders, r.value.lines, customers, products, employees, asOf)
    ensures r.Ok? ==> InvoicesDrawn(r.value.orders, r.value.invoices, asOf)
  {
    hide OrderFits, OrderId, Sellable, LineFits, Settles, PlacedBy, Supplied, BilledAs, Sells, OrdersDrawn,
      InvoicesDrawn, Balanced, LinesOf, OnSale, LineId;
    SellableMeans(products);
    NothingDrawn(customers, products, employees, asOf);
    var sellable := Sellable(products);
    var book := Book([], [], []);
    var index: nat := 0;
    while index < volume
      invariant Balanced(book) && |book.orders| == index
      invariant OrdersDrawn(book.orders, book.lines, customers, products, employees, asOf)
      invariant InvoicesDrawn(book.orders, book.invoices, asOf)
      invariant volume >= 0 ==> index <= volume
      invariant volume < 0 ==> index == 0
    {
      var customer := rng.Choice(customers);
      var clerk := PickClerk(rng, employees, customer.region);
      var age := rng.RandRange(1, 540);
      var status := rng.Choice(STATUSES);
      var k := rng.RandRange(1, 5);
      if k > |sellable| {
        return Err(SampleLargerThanPopulation);
      }
      var chosen := rng.Sample(sellable, k);
      var lines, total := LinesFor(rng, index, chosen);
      var order := Order(OrderId(index), customer.id, customer.location, clerk.id, asOf - age, status, total);
      var invoices := [];
      if status != Cancelled {
        var invoice := Bill(rng, |book.invoices| + 1, order, asOf);
        invoices := [invoice];
      }
      BalancedExtends(book, order, lines, invoices);
      PlacedByOne(order, customer, clerk, customers, employees, asOf);
      SuppliedBy(lines, chosen, sellable, products);
      DrawnExtends(book, order, lines, invoices, customers, products, employees, asOf);
      book := Book(book.orders + [order], book.lines + lines, book.invoices + invoices);
      index := index + 1;
    }
    return Ok(book);
  }

  lemma {:induction false} LinesOfAppend(a: seq<Line>, b: seq<Line>, order: string)
    ensures LinesOf(a + b, order) == LinesOf(a, order) + LinesOf(b, order)
  {
    if a == [] {
      assert a + b == b;
    } else {
      assert (a + b)[1..] == a[1..] + b;
      LinesOfAppend(a[1..], b, order);
    }
  }

  lemma {:induction false} LinesOfAll(lines: seq<Line>, order: string)
    requires forall k | 0 <= k < |lines| :: lines[k].order == order
    ensures LinesOf(lines, order) == lines
  {
    if lines != [] {
      LinesOfAll(lines[1..], order);
    }
  }

  lemma {:induction false} LinesOfNone(lines: seq<Line>, order: string)
    requires forall k | 0 <= k < |lines| :: lines[k].order != order
    ensures LinesOf(lines, order) == []
  {
    if lines != [] {
      LinesOfNone(lines[1..], order);
    }
  }

  lemma {:induction false} BillableAppend(a: seq<Order>, b: seq<Order>)
    ensures Billable(a + b) == Billable(a) + Billable(b)
  {
    if a == [] {
      assert a + b == b;
    } else {
      assert (a + b)[1..] == a[1..] + b;
      BillableAppend(a[1..], b);
    }
  }

  lemma {:induction false} OrderFitsExtends(order: Order, before: seq<Line>, added: seq<Line>)
    requires OrderFits(order, before)
    requires forall k | 0 <= k < |added| :: added[k].order != order.id
    ensures OrderFits(order, before + added)
  {
    LinesOfAppend(before, added, order.id);
    LinesOfNone(added, order.id);
    assert LinesOf(before, order.id) + [] == LinesOf(before, order.id);
  }

  lemma {:induction false} NewOrderFits(order: Order, before: seq<Line>, added: seq<Line>)
    requires forall k | 0 <= k < |before| :: before[k].order != order.id
    requires forall k | 0 <= k < |added| :: added[k].order == order.id
    requires 1 <= |added| <= 4 && order.total == Sum(added)
    ensures OrderFits(order, before + added)
  {
    LinesOfAppend(before, added, order.id);
    LinesOfNone(before, order.id);
    LinesOfAll(added, order.id);
    assert [] + added == added;
  }

  lemma {:induction false} OrdersBalanceExtends(orders: seq<Order>, order: Order, before: seq<Line>, added: seq<Line>)
    requires OrdersBalance(orders, before) && LinesBalance(orders, before) && order.id == OrderId(|orders|)
    requires 1 <= |added| <= 4 && order.total == Sum(added)
    requires forall k | 0 <= k < |added| :: added[k].order == order.id
    ensures OrdersBalance(orders + [order], before + added)
  {
    hide OrderFits, OrderId, LineFits, Sum;
    var all := orders + [order];
    forall i | 0 <= i < |orders|
      ensures orders[i].id != order.id
    {
      if OrderId(i) == OrderId(|orders|) {
        OrderIdInjective(i, |orders|);
      }
    }
    forall i | 0 <= i < |all|
      ensures all[i].id == OrderId(i) && OrderFits(all[i], before + added)
    {
      if i < |orders| {
        assert all[i] == orders[i];
        OrderFitsExtends(orders[i], before, added);
      } else {
        forall k | 0 <= k < |before|
          ensures before[k].order != order.id
        {
          var j :| 0 <= j < |orders| && before[k].order == orders[j].id;
        }
        NewOrderFits(order, before, added);
      }
    }
  }

  lemma {:induction false} LinesBalanceExtends(orders: seq<Order>, order: Order, before: seq<Line>, added: seq<Line>)
    requires LinesBalance(orders, before)
    requires forall k | 0 <= k < |added| :: LineFits(added[k]) && added[k].order == order.id
    ensures LinesBalance(orders + [order], before + added)
  {
    hide LineFits;
    var all := before + added;
    forall k | 0 <= k < |all|
      ensures LineFits(all[k]) && exists i | 0 <= i < |orders + [order]| :: all[k].order == (orders + [order])[i].id
    {
      if k < |before| {
        var i :| 0 <= i < |orders| && before[k].order == orders[i].id;
        assert (orders + [order])[i] == orders[i];
      } else {
        assert (orders + [order])[|orders|] == order;
      }
    }
  }

  lemma {:induction false} InvoicesBalanceExtends(orders: seq<Order>, order: Order, before: seq<Invoice>,
                                                  added: seq<Invoice>)
    requires InvoicesBalance(orders, before)
    requires if order.status == Cancelled then added == [] else |added| == 1 && Settles(added[0], order)
    ensures InvoicesBalance(orders + [order], before + added)
  {
    hide Settles;
    BillableAppend(orders, [order]);
    assert Billable([order]) == if order.status == Cancelled then [] else [order];
  }

  lemma {:induction false} BalancedExtends(book: Book, order: Order, lines: seq<Line>, invoices: seq<Invoice>)
    requires Balanced(book) && order.id == OrderId(|book.orders|)
    requires 1 <= |lines| <= 4 && order.total == Sum(lines)
    requires forall k | 0 <= k < |lines| :: LineFits(lines[k]) && lines[k].order == order.id
    requires if order.status == Cancelled then invoices == [] else |invoices| == 1 && Settles(invoices[0], order)
    ensures Balanced(Book(book.orders + [order], book.lines + lines, book.invoices + invoices))
  {
    OrdersBalanceExtends(book.orders, order, book.lines, lines);
    LinesBalanceExtends(book.orders, order, book.lines, lines);
    InvoicesBalanceExtends(book.orders, order, book.invoices, invoices);
    hide OrdersBalance, LinesBalance, InvoicesBalance;
  }

  lemma {:induction false} NothingDrawn(customers: seq<Customer>, products: seq<Product>,
                                        employees: seq<Roster.Employee>, asOf: int)
    ensures Balanced(Book([], [], []))
    ensures OrdersDrawn([], [], customers, products, employees, asOf) && InvoicesDrawn([], [], asOf)
  {
  }

  lemma {:induction false} PlacedByOne(order: Order, c: Customer, clerk: Roster.Employee, customers: seq<Customer>,
                                    employees: seq<Roster.Employee>, asOf: int)
    requires c in customers && order.customer == c.id && order.location == c.location
    requires clerk in employees && order.clerk == clerk.id && 1 <= asOf - order.orderedOn < 540
    requires Candidates(employees, c.region, ORDER_TAKING_DEPARTMENTS) != [] ==>
               clerk in Candidates(employees, c.region, ORDER_TAKING_DEPARTMENTS)
    ensures PlacedBy(order, customers, employees, asOf)
  {
    CandidatesAreEmployees(employees, c.region, ORDER_TAKING_DEPARTMENTS);
    hide Candidates;
    var candidates := Candidates(employees, c.region, ORDER_TAKING_DEPARTMENTS);
    forall e | e in employees
      ensures e in candidates <==> TakesOrders(e, c.region)
    {
    }
    if candidates == [] {
      assert forall other :: other in employees ==> other !in candidates;
    }
  }

  lemma {:induction false} SuppliedBy(lines: seq<Line>, chosen: seq<Product>, sellable: seq<Product>,
                                      products: seq<Product>)
    requires |lines| == |chosen| && forall k | 0 <= k < |lines| :: Sells(lines[k], chosen[k])
    requires multiset(chosen) <= multiset(sellable) && forall p :: p in chosen ==> p in sellable
    requires multiset(sellable) <= multiset(products) && forall p :: p in sellable ==> OnSale(products, p)
    ensures Supplied(lines, products)
  {
    hide Sells, OnSale;
  }

  lemma {:induction false} DrawnExtends(book: Book, order: Order, lines: seq<Line>, invoices: seq<Invoice>,
                                        customers: seq<Customer>, products: seq<Product>,
                                        employees: seq<Roster.Employee>, asOf: int)
    requires Balanced(book) && order.id == OrderId(|book.orders|)
    requires OrdersDrawn(book.orders, book.lines, customers, products, employees, asOf)
    requires InvoicesDrawn(book.orders, book.invoices, asOf)
    requires PlacedBy(order, customers, employees, asOf) && Supplied(lines, products)
    requires forall k | 0 <= k < |lines| :: lines[k].order == order.id
    requires if order.status == Cancelled then invoices == []
             else |invoices| == 1 && BilledAs(invoices[0], order, |book.invoices| + 1, asOf)
    ensures OrdersDrawn(book.orders + [order], book.lines + lines, customers, products, employees, asOf)
    ensures InvoicesDrawn(book.orders + [order], book.invoices + invoices, asOf)
  {
    hide PlacedBy, Supplied, BilledAs, OrderId, OrderFits, LineFits, InvoicesBalance;
    var all := book.orders + [order];
    forall i | 0 <= i < |all|
      ensures PlacedBy(all[i], customers, employees, asOf)
              && Supplied(LinesOf(book.lines + lines, all[i].id), products)
    {
      LinesOfAppend(book.lines, lines, all[i].id);
      if i < |book.orders| {
        assert all[i] == book.orders[i];
        if OrderId(i) == OrderId(|book.orders|) {
          OrderIdInjective(i, |book.orders|);
        }
        LinesOfNone(lines, all[i].id);
        assert LinesOf(book.lines, all[i].id) + [] == LinesOf(book.lines, all[i].id);
      } else {
        LinesOfAll(lines, order.id);
        OlderLines(book, order.id);
        assert [] + lines == lines;
      }
    }
    BillableAppend(book.orders, [order]);
    assert Billable([order]) == if order.status == Cancelled then [] else [order];
  }

  /** No line of a balanced book belongs to an order still to come. */
  lemma {:induction false} OlderLines(book: Book, id: string)
    requires Balanced(book) && id == OrderId(|book.orders|)
    ensures LinesOf(book.lines, id) == []
  {
    hide OrderId, OrderFits, LineFits, InvoicesBalance, LinesOf;
    forall k | 0 <= k < |book.lines|
      ensures book.lines[k].order != id
    {
      var i :| 0 <= i < |book.orders| && book.lines[k].order == book.orders[i].id;
      if OrderId(i) == id {
        OrderIdInjective(i, |book.orders|);
      }
    }
    LinesOfNone(book.lines, id);
  }

  // ------------------------------------------------------------------ conservation

  function TotalOf(orders: seq<Order>): int {
    if orders == [] then 0 else orders[0].total + TotalOf(orders[1..])
  }

  function TotalDue(invoices: seq<Invoice>): int {
    if invoices == [] then 0 else invoices[0].due + TotalDue(invoices[1..])
  }

  lemma {:induction false} DueIsOrdered(invoices: seq<Invoice>, orders: seq<Order>)
    requires |invoices| == |orders| && forall k | 0 <= k < |orders| :: Settles(invoices[k], orders[k])
    ensures TotalDue(invoices) == TotalOf(orders)
  {
    if orders != [] {
      assert Settles(invoices[0], orders[0]);
      DueIsOrdered(invoices[1..], orders[1..]);
    }
  }

  /** Everything invoiced is everything ordered and not cancelled. */
  lemma {:induction false} InvoicedEqualsOrdered(book: Book)
    requires Balanced(book)
    ensures TotalDue(book.invoices) == TotalOf(Billable(book.orders))
  {
    DueIsOrdered(book.invoices, Billable(book.orders));
  }

  lemma {:induction false} BillableMembers(orders: seq<Order>)
    ensures forall o :: o in Billable(orders) <==> o in orders && o.status != Cancelled
  {
    if orders != [] {
      BillableMembers(orders[1..]);
      assert orders == [orders[0]] + orders[1..];
    }
  }

  lemma {:induction false} BillableDistinct(orders: seq<Order>)
    requires forall i, j | 0 <= i < j < |orders| :: orders[i].id != orders[j].id
    ensures forall i, j | 0 <= i < j < |Billable(orders)| :: Billable(orders)[i].id != Billable(orders)[j].id
  {
    if orders != [] {
      BillableDistinct(orders[1..]);
      BillableMembers(orders[1..]);
      if orders[0].status != Cancelled {
        forall o | o in Billable(orders[1..])
          ensures o.id != orders[0].id
        {
          var j :| 0 <= j < |orders[1..]| && orders[1..][j] == o;
          assert orders[j + 1] == o;
        }
      }
    }
  }

  /** Each order that was not cancelled has exactly one invoice, and a cancelled order none. */
  lemma {:induction false} ExactlyOneInvoice(book: Book, i: nat)
    requires Balanced(book) && i < |book.orders|
    ensures book.orders[i].status == Cancelled ==>
            forall k | 0 <= k < |book.invoices| :: book.invoices[k].order != book.orders[i].id
    ensures book.orders[i].status != Cancelled ==>
              && (exists k | 0 <= k < |book.invoices| :: book.invoices[k].order == book.orders[i].id)
              && (forall k, l | 0 <= k < l < |book.invoices| ::
                    book.invoices[k].order != book.orders[i].id || book.invoices[l].order != book.orders[i].id)
  {
    hide OrderId, OrderFits, LineFits, LinesOf, Sum;
    var orders, billable := book.orders, Billable(book.orders);
    BillableMembers(orders);
    forall a, b | 0 <= a < b < |orders|
      ensures orders[a].id != orders[b].id
    {
      if OrderId(a) == OrderId(b) {
        OrderIdInjective(a, b);
      }
    }
    BillableDistinct(orders);
    hide Billable;
    forall k | 0 <= k < |book.invoices|
      ensures book.invoices[k].order == billable[k].id && billable[k] in orders && billable[k].status != Cancelled
    {
      assert Settles(book.invoices[k], billable[k]);
      assert billable[k] in billable;
    }
    if orders[i].status != Cancelled {
      assert orders[i] in billable;
      var k :| 0 <= k < |billable| && billable[k] == orders[i];
      assert book.invoices[k].order == orders[i].id;
    }
  }

  // ------------------------------------------------------------------ the roll-up check

  datatype Finding = LineTotal(line: string) | OrphanOrder(order: string) | OrderTotal(order: string)
                   | Overpaid(invoice: string) | InvoicedCancelledOrder(invoice: string)

  function Distance(a: int, b: int): nat {
    if a < b then b - a else a - b
  }

  /** Tolerances in cents: 0.011 admits one, 0.05 admits five. */
  ghost predicate RollupsClean(book: Book) {
    && (forall k | 0 <= k < |book.lines| ::
      Distance(book.lines[k].unitPrice * book.lines[k].quantity, book.lines[k].total) <= 1)
    && (forall i | 0 <= i < |book.orders| :: Rolled(book.orders[i], book.lines))
    && (forall k | 0 <= k < |book.invoices| :: book.invoices[k].paid <= book.invoices[k].due + 1)
    && (forall k | 0 <= k < |book.invoices| :: !CancelledId(book.orders, book.invoices[k].order))
  }

  ghost predicate Rolled(order: Order, lines: seq<Line>) {
    LinesOf(lines, order.id) != [] && Distance(Sum(LinesOf(lines, order.id)), order.total) <= 5
  }

  ghost predicate CancelledId(orders: seq<Order>, id: string) {
    exists i | 0 <= i < |orders| :: orders[i].status == Cancelled && orders[i].id == id
  }

  /** The dictionary of line totals by order. */
  ghost predicate Totals(totals: map<string, int>, lines: seq<Line>) {
    && (forall id :: id in totals <==> LinesOf(lines, id) != [])
    && (forall id | id in totals :: totals[id] == Sum(LinesOf(lines, id)))
  }

  lemma {:induction false} TotalsExtend(totals: map<string, int>, lines: seq<Line>, line: Line)
    requires Totals(totals, lines)
    ensures Totals(totals[line.order := (if line.order in totals then totals[line.order] else 0) + line.total], lines
            + [line])
  {
    forall id
      ensures LinesOf(lines + [line], id) == if id == line.order then LinesOf(lines, id) + [line]
              else LinesOf(lines, id)
    {
      LinesOfAppend(lines, [line], id);
      assert LinesOf([line], id) == if id == line.order then [line] else [];
      assert LinesOf(lines, id) + [] == LinesOf(lines, id);
    }
    SumAppend(LinesOf(lines, line.order), [line]);
    assert Sum([line]) == line.total;
  }

  method CheckLines(lines: seq<Line>) returns (findings: seq<Finding>, totals: map<string, int>)
    ensures findings == [] <==>
            forall k | 0 <= k < |lines| :: Distance(lines[k].unitPrice * lines[k].quantity, lines[k].total) <= 1
    ensures Totals(totals, lines)
  {
    hide Totals;
    findings, totals := [], map[];
    assert Totals(map[], lines[..0]) by { NoTotals(); }
    for i := 0 to |lines|
      invariant findings == [] <==>
                forall k | 0 <= k < i :: Distance(lines[k].unitPrice * lines[k].quantity, lines[k].total) <= 1
      invariant Totals(totals, lines[..i])
    {
      var line := lines[i];
      TotalsExtend(totals, lines[..i], line);
      assert lines[..i + 1] == lines[..i] + [line];
      totals := totals[line.order := (if line.order in totals then totals[line.order] else 0) + line.total];
      if Distance(line.unitPrice * line.quantity, line.total) > 1 {
        findings := findings + [LineTotal(line.id)];
      }
    }
    assert lines[..|lines|] == lines;
  }

  lemma {:induction false} NoTotals()
    ensures Totals(map[], [])
  {
  }

  /** Nothing is reported exactly when every line multiplies out, every order has lines that
      add up to it, no invoice is overpaid and none bills a cancelled order, within tolerance. */
  method CheckRollups(book: Book) returns (findings: seq<Finding>)
    ensures findings == [] <==> RollupsClean(book)
  {
    hide LinesOf, Sum;
    var lineFindings, totals := CheckLines(book.lines);
    var orderFindings: seq<Finding> := [];
    for i := 0 to |book.orders|
      invariant orderFindings == [] <==> forall k | 0 <= k < i :: Rolled(book.orders[k], book.lines)
    {
      var order := book.orders[i];
      if order.id !in totals {
        orderFindings := orderFindings + [OrphanOrder(order.id)];
      } else if Distance(totals[order.id], order.total) > 5 {
        orderFindings := orderFindings + [OrderTotal(order.id)];
      }
    }
    var paidFindings: seq<Finding> := [];
    for i := 0 to |book.invoices|
      invariant paidFindings == [] <==> forall k | 0 <= k < i :: book.invoices[k].paid <= book.invoices[k].due + 1
    {
      if book.invoices[i].paid > book.invoices[i].due + 1 {
        paidFindings := paidFindings + [Overpaid(book.invoices[i].id)];
      }
    }
    var cancelled := set o | o in book.orders && o.status == Cancelled :: o.id;
    var billedFindings: seq<Finding> := [];
    for i := 0 to |book.invoices|
      invariant billedFindings == [] <==> forall k | 0 <= k < i :: !CancelledId(book.orders, book.invoices[k].order)
    {
      assert book.invoices[i].order in cancelled <==> CancelledId(book.orders, book.invoices[i].order);
      if book.invoices[i].order in cancelled {
        billedFindings := billedFindings + [InvoicedCancelledOrder(book.invoices[i].id)];
      }
    }
    findings := lineFindings + orderFindings + paidFindings + billedFindings;
  }

  /** A balanced book passes the roll-up check. */
  lemma {:induction false} BalancedPassesRollups(book: Book)
    requires Balanced(book)
    ensures RollupsClean(book)
  {
    hide OrderId, LinesOf, Sum, Billable;
    forall i | 0 <= i < |book.orders|
      ensures Rolled(book.orders[i], book.lines)
    {
      assert OrderFits(book.orders[i], book.lines);
    }
    forall k | 0 <= k < |book.lines|
      ensures Distance(book.lines[k].unitPrice * book.lines[k].quantity, book.lines[k].total) <= 1
    {
      assert LineFits(book.lines[k]);
    }
    forall k | 0 <= k < |book.invoices|
      ensures book.invoices[k].paid <= book.invoices[k].due + 1
      ensures !CancelledId(book.orders, book.invoices[k].order)
    {
      assert Settles(book.invoices[k], Billable(book.orders)[k]);
      if CancelledId(book.orders, book.invoices[k].order) {
        var i :| 0 <= i < |book.orders| && book.orders[i].status == Cancelled
          && book.orders[i].id == book.invoices[k].order;
        ExactlyOneInvoice(book, i);
      }
    }
  }
}
