/** The database the agents read: rows, the schema facts the repository consults, and
    the relational meaning of the joins in its scope paths. */
module Relational {
  import opened Wrappers
  import opened Sorting

  // ------------------------------------------------------------ values and rows

  /** The tables the schema declares, and any other name a caller may ask for. */
  datatype Table =
    | Locations | Suppliers | ProductCategories | Products | StockLevels | Customers | Employees
    | Orders | OrderLines | Invoices | SupportCases | SupportCaseNotes | TravelRoutes | TravelFares
    | TravelPolicies | TravelBookings | HrPolicies | WorkOrders | Identities | Undeclared(name: string)

  /** A cell as SQLite stores it. */
  datatype Value = Null | Num(r: real) | Text(s: string)

  type Row = map<string, Value>
  type Database = map<Table, seq<Row>>

  /** A Python dict, in insertion order. */
  type Dict<V> = seq<(string, V)>

  /** An argument as Python holds it, before it is bound to a statement. */
  datatype Arg = ArgNone | ArgBool(b: bool) | ArgInt(n: int) | ArgFloat(f: real) | ArgText(t: string)

  /** A filter is one value or a list, whose members the repository has turned into text. */
  datatype FilterValue = One(arg: Arg) | Many(items: seq<string>)

  function Bind(a: Arg): Value {
    match a
    case ArgNone => Null
    case ArgBool(b) => Num(if b then 1.0 else 0.0)
    case ArgInt(n) => Num(n as real)
    case ArgFloat(f) => Num(f)
    case ArgText(t) => Text(t)
  }

  function Cell(row: Row, column: string): Value {
    if column in row then row[column] else Null
  }

  function Rows(db: Database, table: Table): seq<Row> {
    if table in db then db[table] else []
  }

  /** SQL `=`: NULL equals nothing, not even NULL. */
  predicate SqlEq(a: Value, b: Value) {
    a != Null && a == b
  }

  /** What a declared key guarantees of its table. */
  ghost predicate UniqueKey(rows: seq<Row>, column: string) {
    forall i, j | 0 <= i < j < |rows| :: !SqlEq(Cell(rows[i], column), Cell(rows[j], column))
  }

  // --------------------------------------------------------------------- schema

  const GLOBAL_TABLES: set<Table> := {ProductCategories, Products, TravelRoutes, TravelFares}
  const FORBIDDEN_TABLES: set<Table> := {Identities}

  /** One `JOIN table ON table.key = previous.local`. */
  datatype Join = Join(local: string, table: Table, key: string)

  const CUSTOMER := Join("customer_id", Customers, "customer_id")
  const LOCATION := Join("location_id", Locations, "location_id")

  /** How each table's rows are attributed to a region: follow the joins, then read `region`. */
  function ScopePath(table: Table): Option<seq<Join>> {
    match table
    case Locations => Some([])
    case Suppliers => Some([])
    case Customers => Some([])
    case Employees => Some([])
    case TravelPolicies => Some([])
    case HrPolicies => Some([])
    case Orders => Some([CUSTOMER])
    case Invoices => Some([CUSTOMER])
    case SupportCases => Some([CUSTOMER])
    case OrderLines => Some([Join("order_id", Orders, "order_id"), CUSTOMER])
    case SupportCaseNotes => Some([Join("case_id", SupportCases, "case_id"), CUSTOMER])
    case StockLevels => Some([LOCATION])
    case WorkOrders => Some([LOCATION])
    case TravelBookings => Some([Join("traveller_employee_id", Employees, "employee_id")])
    case _ => None
  }

  function Filterable(table: Table): set<string> {
    match table
    case Locations => {"region", "country", "kind"}
    case Suppliers => {"region", "country"}
    case ProductCategories => {"category_id"}
    case Products => {"category_id", "supplier_id", "is_discontinued"}
    case StockLevels => {"product_id", "location_id"}
    case Customers => {"region", "segment", "primary_location_id"}
    case Employees => {"region", "department", "job_title", "employment_type", "location_id", "manager_id"}
    case Orders => {"customer_id", "status", "location_id"}
    case OrderLines => {"order_id", "product_id"}
    case Invoices => {"customer_id", "order_id", "status"}
    case SupportCases => {"customer_id", "status", "severity", "assigned_employee_id", "product_id"}
    case SupportCaseNotes => {"case_id", "visibility"}
    case TravelRoutes => {"origin_location_id", "destination_location_id", "mode"}
    case TravelFares => {"route_id", "fare_class", "refundable"}
    case TravelPolicies => {"region", "policy_id"}
    case TravelBookings => {"traveller_employee_id", "route_id", "status"}
    case HrPolicies => {"region", "category", "audience"}
    case WorkOrders => {"location_id", "assigned_employee_id", "status", "priority", "customer_id"}
    case _ => {}
  }

  /** The primary key columns, in column order; the first is the lookup key. */
  function PrimaryKey(table: Table): seq<string> {
    match table
    case Locations => ["location_id"]
    case Suppliers => ["supplier_id"]
    case ProductCategories => ["category_id"]
    case Products => ["product_id"]
    case StockLevels => ["product_id", "location_id"]
    case Customers => ["customer_id"]
    case Employees => ["employee_id"]
    case Orders => ["order_id"]
    case OrderLines => ["order_line_id"]
    case Invoices => ["invoice_id"]
    case SupportCases => ["case_id"]
    case SupportCaseNotes => ["note_id"]
    case TravelRoutes => ["route_id"]
    case TravelFares => ["fare_id"]
    case TravelPolicies => ["policy_id"]
    case TravelBookings => ["booking_id"]
    case HrPolicies => ["hr_policy_id"]
    case WorkOrders => ["work_order_id"]
    case _ => []
  }

  /** Columns classified as a person's name, mailbox or telephone number. */
  function PersonalColumns(table: Table): set<string> {
    match table
    case Suppliers => {"contact_email", "contact_phone"}
    case Customers => {"contact_email", "contact_phone"}
    case Employees => {"full_name", "work_email", "work_phone"}
    case _ => {}
  }

  function KeyColumn(table: Table): string {
    if PrimaryKey(table) != [] then PrimaryKey(table)[0] else ""
  }

  function Hidden(table: Table, includePersonal: bool): set<string> {
    if includePersonal then {} else PersonalColumns(table)
  }

  /** Whose staff travel under the exception policy. */
  const TRAVEL_EXCEPTION_DEPARTMENTS: set<string> := {"Field Operations", "Customer Support"}

  // ---------------------------------------------------------------------- joins

  /** The region at the end of every chain of joined parent rows that starts at `row`. */
  function RegionsOf(db: Database, row: Row, joins: seq<Join>): seq<Value>
    decreases |joins|, 1, 0
  {
    if joins == [] then [Cell(row, "region")]
    else ParentRegions(db, Rows(db, joins[0].table), Cell(row, joins[0].local), joins)
  }

  function ParentRegions(db: Database, parents: seq<Row>, key: Value, joins: seq<Join>): seq<Value>
    requires joins != []
    decreases |joins|, 0, |parents|
  {
    if parents == [] then []
    else
      (if SqlEq(Cell(parents[0], joins[0].key), key) then RegionsOf(db, parents[0], joins[1..]) else [])
      + ParentRegions(db, parents[1..], key, joins)
  }

  /** A row of the joined relation: the served row and the region it was attributed to. */
  type Attributed = (Row, Value)

  function Tag(row: Row, regions: seq<Value>): seq<Attributed> {
    if regions == [] then [] else [(row, regions[0])] + Tag(row, regions[1..])
  }

  /** `FROM t JOIN ...`: one tuple per row and chain of parents. */
  function Joined(db: Database, rows: seq<Row>, joins: seq<Join>): seq<Attributed> {
    if rows == [] then []
    else Tag(rows[0], RegionsOf(db, rows[0], joins)) + Joined(db, rows[1..], joins)
  }

  /** The scope predicate. `hr_policies` also admits the rows marked GLOBAL. */
  predicate Admits(table: Table, regions: set<string>, region: Value) {
    && region.Text?
    && (region.s in regions || (table == HrPolicies && region.s == "GLOBAL"))
  }

  function Visible(table: Table, regions: set<string>, joined: seq<Attributed>): seq<Attributed> {
    if joined == [] then []
    else if Admits(table, regions, joined[0].1) then [joined[0]] + Visible(table, regions, joined[1..])
    else Visible(table, regions, joined[1..])
  }

  /** What a scope sees of a table, with the region that made each row visible. */
  function View(db: Database, regions: set<string>, table: Table): seq<Attributed>
    requires ScopePath(table).Some?
  {
    Visible(table, regions, Joined(db, Rows(db, table), ScopePath(table).value))
  }

  function Served(view: seq<Attributed>): seq<Row> {
    if view == [] then [] else [view[0].0] + Served(view[1..])
  }

  // ------------------------------------------------------------------- ordering

  /** SQLite's order across storage classes: NULL, then numbers, then text. */
  predicate ValueLe(a: Value, b: Value) {
    match (a, b)
    case (Null, _) => true
    case (_, Null) => false
    case (Num(x), Num(y)) => x <= y
    case (Num(_), Text(_)) => true
    case (Text(_), Num(_)) => false
    case (Text(x), Text(y)) => StringLe(x, y)
  }

  /** `ORDER BY c1, c2, ...` */
  predicate RowLe(a: Row, b: Row, columns: seq<string>) {
    if columns == [] then true
    else
      var x, y := Cell(a, columns[0]), Cell(b, columns[0]);
      if x == y then RowLe(a, b, columns[1..]) else ValueLe(x, y)
  }

  function OrderBy(columns: seq<string>): (Row, Row) -> bool {
    (a, b) => RowLe(a, b, columns)
  }

  lemma {:induction false} ValueLeTotal(a: Value, b: Value)
    ensures ValueLe(a, b) || ValueLe(b, a)
    ensures ValueLe(a, b) && ValueLe(b, a) ==> a == b
  {
    if a.Text? && b.Text? {
      StringLeTotal(a.s, b.s);
    }
  }

  lemma {:induction false} ValueLeTransitive(a: Value, b: Value, c: Value)
    requires ValueLe(a, b) && ValueLe(b, c)
    ensures ValueLe(a, c)
  {
    if a.Text? && b.Text? && c.Text? {
      StringLeTransitive(a.s, b.s, c.s);
    }
  }

  lemma {:induction false} RowLeTotal(a: Row, b: Row, columns: seq<string>)
    ensures RowLe(a, b, columns) || RowLe(b, a, columns)
  {
    if columns != [] {
      ValueLeTotal(Cell(a, columns[0]), Cell(b, columns[0]));
      RowLeTotal(a, b, columns[1..]);
    }
  }

  lemma {:induction false} RowLeTransitive(a: Row, b: Row, c: Row, columns: seq<string>)
    requires RowLe(a, b, columns) && RowLe(b, c, columns)
    ensures RowLe(a, c, columns)
  {
    if columns != [] {
      var x, y, z := Cell(a, columns[0]), Cell(b, columns[0]), Cell(c, columns[0]);
      if x == y == z {
        RowLeTransitive(a, b, c, columns[1..]);
      } else if x != y && y != z {
        ValueLeTransitive(x, y, z);
        ValueLeTotal(x, y);
      }
    }
  }

  lemma {:induction false} OrderByIsPreorder(columns: seq<string>)
    ensures TotalPreorder(OrderBy(columns))
  {
    var le := OrderBy(columns);
    forall a, b
      ensures le(a, b) || le(b, a)
    {
      RowLeTotal(a, b, columns);
    }
    forall a, b, c | le(a, b) && le(b, c)
      ensures le(a, c)
    {
      RowLeTransitive(a, b, c, columns);
    }
  }
}
