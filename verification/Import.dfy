/** backend/apps/catalog/csv_import.py: product import, dry run and commit. */
module Import {
  import opened Wrappers
  import opened Digits

  /** What the import reads but does not compute: the reference tables, and the text
      functions whose internals are not modelled. `number` is Decimal(_clean_number(cell)),
      None where it raises; `truthy` is _coerce_bool. */
  datatype Env = Env(
    strip: string -> string, slugify: string -> string,
    number: string -> Option<real>, truthy: string -> bool,
    uoms: set<string>, hsCodes: set<string>,
    taxByName: map<string, nat>, taxByRate: map<real, nat>)

  /** The import's columns, in the order a row is checked. */
  datatype Column =
    | Sku | Name | UomCode | SalePrice
    | CostPrice | RetailPrice | MinSalePrice | MaxDiscountPct | ReorderLevel
    | HsCode | TaxRate
    | Barcode | NameUr | Description | CategoryColumn | IsActive | IsTaxable

  datatype Row = Row(sku: string, fields: map<Column, string>)

  /** The columns an import writes. */
  datatype Values = Values(
    name: string, nameUr: string, description: string, barcode: Option<string>,
    uom: string, hsCode: Option<string>, taxRate: Option<nat>, category: Option<nat>,
    taxable: bool, active: bool, cost: real, sale: real,
    retail: Option<real>, minSale: Option<real>, maxDiscount: Option<real>, reorder: Option<real>)

  /** `rest` stands for the columns an import leaves alone. */
  datatype Product = Product(sku: string, values: Values, createdBy: nat, deleted: bool, rest: nat)

  /** A category's identity is its position. */
  datatype Category = Category(name: string, slug: string)

  datatype Db = Db(products: seq<Product>, categories: seq<Category>)

  function Get(row: Row, column: Column): string {
    if column in row.fields then row.fields[column] else ""
  }

  function GetOr(row: Row, column: Column, default: string): string {
    if column in row.fields then row.fields[column] else default
  }

  // ---- Row validation ------------------------------------------------------

  predicate BadNumber(env: Env, cell: string) {
    cell != "" && env.strip(cell) != "" && env.number(cell).None?
  }

  /** _match_tax_rate: by name, else by numeric rate; None in the second place means the
      cell matches no configured rate. */
  function MatchTaxRate(env: Env, cell: string): (Option<nat>, bool) {
    var raw := env.strip(cell);
    if raw == "" then (None, true)
    else if raw in env.taxByName then (Some(env.taxByName[raw]), true)
    else if env.number(raw).Some? && env.number(raw).value in env.taxByRate
      then (Some(env.taxByRate[env.number(raw).value]), true)
    else (None, false)
  }

  predicate Bad(env: Env, row: Row, column: Column) {
    var cell := Get(row, column);
    match column
    case Sku => row.sku == ""
    case Name => cell == ""
    case UomCode => cell == "" || cell !in env.uoms
    case SalePrice => env.strip(cell) == "" || env.number(cell).None?
    case CostPrice | RetailPrice | MinSalePrice | MaxDiscountPct | ReorderLevel => BadNumber(env, cell)
    case HsCode => cell != "" && cell !in env.hsCodes
    case TaxRate => cell != "" && !MatchTaxRate(env, cell).1
    case _ => false
  }

  /** _validate_row: the columns in error. A column gets at most one error. */
  function Errors(env: Env, row: Row): set<Column> {
    set column: Column | Bad(env, row, column)
  }

  predicate Valid(env: Env, row: Row) {
    Errors(env, row) == {}
  }

  /** An optional numeric cell: None where Decimal raises. */
  function OptionalNumber(env: Env, cell: string): Option<Option<real>> {
    if cell == "" then Some(None)
    else if env.number(cell).None? then None else Some(env.number(cell))
  }

  function NonEmpty(cell: string): Option<string> {
    if cell == "" then None else Some(cell)
  }

  /** The `defaults` of a row, or None where a conversion raises. */
  function Convert(env: Env, row: Row, category: Option<nat>): Option<Values> {
    var cost := OptionalNumber(env, Get(row, CostPrice));
    var sale := env.number(Get(row, SalePrice));
    var retail := OptionalNumber(env, Get(row, RetailPrice));
    var minSale := OptionalNumber(env, Get(row, MinSalePrice));
    var maxDiscount := OptionalNumber(env, Get(row, MaxDiscountPct));
    var reorder := OptionalNumber(env, Get(row, ReorderLevel));
    if cost.None? || sale.None? || retail.None? || minSale.None? || maxDiscount.None? || reorder.None? then None
    else
      Some(Values(
        Get(row, Name), Get(row, NameUr), Get(row, Description), NonEmpty(Get(row, Barcode)),
        Get(row, UomCode), NonEmpty(Get(row, HsCode)), MatchTaxRate(env, Get(row, TaxRate)).0, category,
        env.truthy(GetOr(row, IsTaxable, "true")), env.truthy(GetOr(row, IsActive, "true")),
        cost.value.GetOr(0.0), sale.value, retail.value, minSale.value, maxDiscount.value, reorder.value))
  }

  /** What parse_csv guarantees of every row: its cells are stripped. */
  predicate Parsed(env: Env, row: Row) {
    forall column :: column in row.fields ==> env.strip(row.fields[column]) == row.fields[column]
  }

  /** A valid row of a parsed file never makes the commit raise, and its tax rate is
      never dropped silently. */
  lemma ValidRowsConvert(env: Env, row: Row, category: Option<nat>)
    requires Valid(env, row) && Parsed(env, row)
    ensures Convert(env, row, category).Some?
    ensures Convert(env, row, category).value.taxRate.None? ==>
      Get(row, TaxRate) == "" || env.strip(Get(row, TaxRate)) == ""
    ensures row.sku != "" && Convert(env, row, category).value.uom in env.uoms
  {
    ValidMeans(env, row);
    assert !Bad(env, row, Sku) && !Bad(env, row, UomCode) && !Bad(env, row, SalePrice) && !Bad(env, row, TaxRate);
    forall column <- [CostPrice, RetailPrice, MinSalePrice, MaxDiscountPct, ReorderLevel]
      ensures OptionalNumber(env, Get(row, column)).Some?
    {
      assert !Bad(env, row, column);
    }
  }

  lemma ValidMeans(env: Env, row: Row)
    requires Valid(env, row)
    ensures forall column: Column :: !Bad(env, row, column)
  {
    forall column: Column ensures !Bad(env, row, column) {
      assert column !in Errors(env, row);
    }
  }

  // ---- Categories ----------------------------------------------------------

  /** categories_by_name; the last of several categories of one name wins. */
  function ByName(categories: seq<Category>): map<string, nat> {
    if categories == [] then map[]
    else ByName(categories[..|categories| - 1])[categories[|categories| - 1].name := |categories| - 1]
  }

  function BySlug(categories: seq<Category>): map<string, nat> {
    if categories == [] then map[]
    else BySlug(categories[..|categories| - 1])[categories[|categories| - 1].slug := |categories| - 1]
  }

  function SlugsFrom(categories: seq<Category>, base: string): set<string> {
    set c <- categories | StartsWith(c.slug, base) :: c.slug
  }

  /** The slugs tried, in order: base, base-2, base-3, ... */
  function Candidate(base: string, n: nat): string {
    if n <= 1 then base else base + "-" + Decimal(n)
  }

  lemma CandidatesDiffer(base: string, m: nat, n: nat)
    requires 1 <= m < n
    ensures Candidate(base, m) != Candidate(base, n)
  {
    if m == 1 {
      assert |Candidate(base, n)| > |base|;
    } else if Candidate(base, m) == Candidate(base, n) {
      var skip := |base| + 1;
      assert Candidate(base, m)[skip..] == Decimal(m) && Candidate(base, n)[skip..] == Decimal(n);
      ValueRoundTrip(m, 0);
      ValueRoundTrip(n, 0);
    }
  }

  /** The first candidate from n on that is not taken; there is one because each taken
      candidate is met once. */
  function FirstFree(base: string, taken: set<string>, n: nat): string
    decreases |taken|
  {
    var slug := Candidate(base, n);
    if slug in taken then FirstFree(base, taken - {slug}, n + 1) else slug
  }

  lemma {:induction false} FirstFreeMeans(base: string, taken: set<string>, n: nat) returns (m: nat)
    requires 1 <= n
    ensures n <= m && FirstFree(base, taken, n) == Candidate(base, m) && Candidate(base, m) !in taken
    ensures forall k :: n <= k < m ==> Candidate(base, k) in taken
    decreases |taken|
  {
    m := n;
    if Candidate(base, n) in taken {
      m := FirstFreeMeans(base, taken - {Candidate(base, n)}, n + 1);
      CandidatesDiffer(base, n, m);
    }
  }

  function Base(env: Env, name: string): string {
    if env.slugify(name) == "" then "category" else env.slugify(name)
  }

  function UniqueSlug(env: Env, categories: seq<Category>, name: string): string {
    FirstFree(Base(env, name), SlugsFrom(categories, Base(env, name)), 1)
  }

  /** The slug of a new category collides with no category of the tenant, although only
      those sharing its base are looked at. */
  lemma SlugIsFresh(env: Env, categories: seq<Category>, name: string)
    ensures forall c <- categories :: c.slug != UniqueSlug(env, categories, name)
    ensures var base := if env.slugify(name) == "" then "category" else env.slugify(name);
      var slug := UniqueSlug(env, categories, name);
      slug == base || exists m: nat :: 2 <= m && slug == base + "-" + Decimal(m)
  {
    var base := Base(env, name);
    var m := FirstFreeMeans(base, SlugsFrom(categories, base), 1);
    assert StartsWith(Candidate(base, m), base);
  }

  datatype Resolved = Resolved(categories: seq<Category>, category: Option<nat>, created: seq<string>)

  function Resolve(env: Env, categories: seq<Category>, name: string): Resolved {
    if name == "" then Resolved(categories, None, [])
    else if name in ByName(categories) then Resolved(categories, Some(ByName(categories)[name]), [])
    else if name in BySlug(categories) then Resolved(categories, Some(BySlug(categories)[name]), [])
    else Resolved(categories + [Category(name, UniqueSlug(env, categories, name))], Some(|categories|), [name])
  }

  // ---- What a file writes --------------------------------------------------

  datatype Write = Write(sku: string, values: Values)

  datatype Plan = Plan(categories: seq<Category>, created: seq<string>, writes: seq<Write>)

  function CategoryName(env: Env, row: Row): string {
    env.strip(Get(row, CategoryColumn))
  }

  function PlanRow(env: Env, p: Plan, row: Row): Option<Plan> {
    if !Valid(env, row) then Some(p)
    else
      var r := Resolve(env, p.categories, CategoryName(env, row));
      var values := Convert(env, row, r.category);
      if values.None? then None
      else Some(Plan(r.categories, p.created + r.created, p.writes + [Write(row.sku, values.value)]))
  }

  /** The loop of commit_import over the rows; None where a conversion raises. */
  function PlanOf(env: Env, categories: seq<Category>, rows: seq<Row>): Option<Plan> {
    if rows == [] then Some(Plan(categories, [], []))
    else
      var p := PlanOf(env, categories, rows[..|rows| - 1]);
      if p.None? then None else PlanRow(env, p.value, rows[|rows| - 1])
  }

  // ---- Writing products ----------------------------------------------------

  /** Product.objects.filter(sku=...).first(): soft-deleted rows are found too. */
  function Find(products: seq<Product>, sku: string): (r: Option<nat>)
    ensures r.Some? ==> r.value < |products| && products[r.value].sku == sku
    ensures r.None? <==> forall p <- products :: p.sku != sku
  {
    if products == [] then None
    else if products[0].sku == sku then Some(0)
    else
      var rest := Find(products[1..], sku);
      assert products == [products[0]] + products[1..];
      if rest.None? then None else Some(rest.value + 1)
  }

  function News(products: seq<Product>, writes: seq<Write>): seq<Write> {
    if writes == [] then []
    else
      var last := writes[|writes| - 1];
      News(products, writes[..|writes| - 1]) + (if Find(products, last.sku).None? then [last] else [])
  }

  function Updates(products: seq<Product>, writes: seq<Write>): seq<(nat, Values)> {
    if writes == [] then []
    else
      var last := writes[|writes| - 1];
      var found := Find(products, last.sku);
      Updates(products, writes[..|writes| - 1]) + (if found.Some? then [(found.value, last.values)] else [])
  }

  function NewProduct(user: nat, w: Write): Product {
    Product(w.sku, w.values, user, false, 0)
  }

  function Created(user: nat, news: seq<Write>): (r: seq<Product>)
    ensures |r| == |news|
  {
    seq(|news|, k requires 0 <= k < |news| => NewProduct(user, news[k]))
  }

  function FirstUpdate(updates: seq<(nat, Values)>, i: nat): Option<Values> {
    if updates == [] then None
    else if updates[0].0 == i then Some(updates[0].1) else FirstUpdate(updates[1..], i)
  }

  function LastUpdate(updates: seq<(nat, Values)>, i: nat): Option<Values> {
    if updates == [] then None
    else
      var last := updates[|updates| - 1];
      if last.0 == i then Some(last.1) else LastUpdate(updates[..|updates| - 1], i)
  }

  function Overwritten(p: Product, values: Option<Values>): Product {
    if values.Some? then p.(values := values.value) else p
  }

  /** bulk_update is one CASE expression per column: of two updates to one row the first
      branch wins. */
  function BulkUpdated(products: seq<Product>, updates: seq<(nat, Values)>): (r: seq<Product>)
    ensures |r| == |products|
  {
    seq(|products|, i requires 0 <= i < |products| => Overwritten(products[i], FirstUpdate(updates, i)))
  }

  predicate DistinctSkus(writes: seq<Write>) {
    forall a, b :: 0 <= a < b < |writes| ==> writes[a].sku != writes[b].sku
  }

  /** `categories` are the names of the categories created, which the program reports sorted. */
  datatype Commit = Commit(db: Db, created: nat, updated: nat, categories: set<string>)

  /** commit_import. None is an exception, which rolls everything back: a conversion that
      raises, or the unique SKU constraint at bulk_create. */
  function CommitImport(env: Env, db: Db, user: nat, rows: seq<Row>): Option<Commit> {
    var p := PlanOf(env, db.categories, rows);
    if p.None? then None
    else
      var news, updates := News(db.products, p.value.writes), Updates(db.products, p.value.writes);
      if !DistinctSkus(news) then None
      else
        Some(Commit(Db(BulkUpdated(db.products, updates) + Created(user, news), p.value.categories),
                    |news|, |updates|, set name <- p.value.created))
  }

  /** Importing the file one row at a time. */
  function RowByRow(env: Env, db: Db, user: nat, rows: seq<Row>): Option<Db> {
    if rows == [] then Some(db)
    else
      var before := RowByRow(env, db, user, rows[..|rows| - 1]);
      if before.None? then None
      else
        var one := CommitImport(env, before.value, user, [rows[|rows| - 1]]);
        if one.None? then None else Some(one.value.db)
  }

  // ---- Bulk against row by row ---------------------------------------------

  function Upsert(products: seq<Product>, user: nat, w: Write): seq<Product> {
    var found := Find(products, w.sku);
    if found.Some? then products[found.value := products[found.value].(values := w.values)]
    else products + [NewProduct(user, w)]
  }

  function Upserts(products: seq<Product>, user: nat, writes: seq<Write>): seq<Product> {
    if writes == [] then products
    else Upsert(Upserts(products, user, writes[..|writes| - 1]), user, writes[|writes| - 1])
  }

  function LastWins(products: seq<Product>, updates: seq<(nat, Values)>): (r: seq<Product>)
    ensures |r| == |products|
  {
    seq(|products|, i requires 0 <= i < |products| => Overwritten(products[i], LastUpdate(updates, i)))
  }

  lemma PlanOfOne(env: Env, categories: seq<Category>, row: Row)
    ensures PlanOf(env, categories, [row]) == PlanRow(env, Plan(categories, [], []), row)
  {
  }

  /** A one-row import is the upsert of that row. */
  lemma OneRow(env: Env, db: Db, user: nat, row: Row)
    ensures var p, one := PlanRow(env, Plan(db.categories, [], []), row), CommitImport(env, db, user, [row]);
      && (p.None? <==> one.None?)
      && (p.Some? ==> one.value.db == Db(Upserts(db.products, user, p.value.writes), p.value.categories))
  {
    PlanOfOne(env, db.categories, row);
    var p := PlanRow(env, Plan(db.categories, [], []), row);
    if p.Some? {
      var writes := p.value.writes;
      if writes == [] {
        assert BulkUpdated(db.products, []) + Created(user, []) == db.products;
      } else {
        assert writes == [writes[0]] && writes[..0] == [];
        OneWrite(db.products, user, writes[0]);
      }
    }
  }

  lemma OneWrite(products: seq<Product>, user: nat, w: Write)
    ensures DistinctSkus(News(products, [w]))
    ensures BulkUpdated(products, Updates(products, [w])) + Created(user, News(products, [w]))
         == Upserts(products, user, [w])
  {
    assert [w][..0] == [];
    assert Upserts(products, user, []) == products;
    assert News(products, []) == [] && Updates(products, []) == [];
    var found := Find(products, w.sku);
    if found.Some? {
      var updates := [(found.value, w.values)];
      assert Updates(products, [w]) == updates && updates[1..] == [];
      forall i: nat | i < |products|
        ensures FirstUpdate(updates, i) == if i == found.value then Some(w.values) else None
      {}
      assert BulkUpdated(products, updates) == Upsert(products, user, w);
    } else {
      assert Created(user, [w]) == [NewProduct(user, w)];
      assert BulkUpdated(products, []) == products;
    }
  }

  lemma {:induction false} UpsertsAppend(products: seq<Product>, user: nat, writes: seq<Write>, more: seq<Write>)
    requires |more| <= 1
    ensures Upserts(Upserts(products, user, writes), user, more) == Upserts(products, user, writes + more)
  {
    if more == [] {
      assert writes + more == writes;
    } else {
      assert (writes + more)[..|writes|] == writes && more[..0] == [];
      assert Upserts(Upserts(products, user, writes), user, []) == Upserts(products, user, writes);
    }
  }

  /** Row by row, the categories are those of the plan and the products the plan's writes
      applied in file order. */
  lemma {:induction false} RowByRowIs(env: Env, db: Db, user: nat, rows: seq<Row>)
    ensures var p, r := PlanOf(env, db.categories, rows), RowByRow(env, db, user, rows);
      && (p.None? <==> r.None?)
      && (p.Some? ==> r.value == Db(Upserts(db.products, user, p.value.writes), p.value.categories))
  {
    if rows != [] {
      var init, last := rows[..|rows| - 1], rows[|rows| - 1];
      RowByRowIs(env, db, user, init);
      var p := PlanOf(env, db.categories, init);
      if p.Some? {
        var before := RowByRow(env, db, user, init).value;
        OneRow(env, before, user, last);
        var one := PlanRow(env, Plan(p.value.categories, [], []), last);
        if one.Some? {
          UpsertsAppend(db.products, user, p.value.writes, one.value.writes);
          assert p.value.writes + [] == p.value.writes;
          assert p.value.created + [] == p.value.created;
        }
      }
    }
  }

  lemma FindAcross(products: seq<Product>, same: seq<Product>, more: seq<Product>, sku: string)
    requires |same| == |products| && forall i :: 0 <= i < |products| ==> same[i].sku == products[i].sku
    ensures Find(products, sku).Some? ==> Find(same + more, sku) == Find(products, sku)
    ensures Find(products, sku).None? && (forall p <- more :: p.sku != sku) ==> Find(same + more, sku).None?
  {
    if products == [] {
      assert same + more == more;
    } else {
      assert (same + more)[1..] == same[1..] + more;
      assert same == [same[0]] + same[1..];
      FindAcross(products[1..], same[1..], more, sku);
    }
  }

  lemma {:induction false} NewsPrefix(products: seq<Product>, writes: seq<Write>)
    requires writes != [] && DistinctSkus(News(products, writes))
    ensures var init, last := writes[..|writes| - 1], writes[|writes| - 1];
      && DistinctSkus(News(products, init))
      && (Find(products, last.sku).None? ==> forall w <- News(products, init) :: w.sku != last.sku)
  {
    var init, last := writes[..|writes| - 1], writes[|writes| - 1];
    var news, all := News(products, init), News(products, writes);
    assert forall k :: 0 <= k < |news| ==> all[k] == news[k];
    if Find(products, last.sku).None? {
      assert all[|news|] == last;
    }
  }

  /** With new SKUs distinct, applying the writes in order updates each existing product
      with its last write and appends the new ones in order. */
  lemma {:induction false} UpsertsAre(products: seq<Product>, user: nat, writes: seq<Write>)
    requires DistinctSkus(News(products, writes))
    ensures Upserts(products, user, writes)
         == LastWins(products, Updates(products, writes)) + Created(user, News(products, writes))
  {
    if writes == [] {
      assert LastWins(products, []) + Created(user, []) == products;
    } else {
      var init, last := writes[..|writes| - 1], writes[|writes| - 1];
      NewsPrefix(products, writes);
      UpsertsAre(products, user, init);
      if Find(products, last.sku).Some? {
        UpdateExtends(products, user, Updates(products, init), News(products, init), last);
        assert News(products, init) + [] == News(products, init);
      } else {
        AppendExtends(products, user, Updates(products, init), News(products, init), last);
        assert Updates(products, init) + [] == Updates(products, init);
      }
    }
  }

  lemma UpdateExtends(products: seq<Product>, user: nat, updates: seq<(nat, Values)>, news: seq<Write>, w: Write)
    requires Find(products, w.sku).Some?
    ensures Upsert(LastWins(products, updates) + Created(user, news), user, w)
         == LastWins(products, updates + [(Find(products, w.sku).value, w.values)]) + Created(user, news)
  {
    var same, more, k := LastWins(products, updates), Created(user, news), Find(products, w.sku).value;
    FindAcross(products, same, more, w.sku);
    LastWinsExtends(products, updates, k, w.values);
    UpdateInFront(same, more, k, same[k].(values := w.values));
  }

  lemma UpdateInFront<T>(front: seq<T>, back: seq<T>, k: nat, x: T)
    requires k < |front|
    ensures (front + back)[k := x] == front[k := x] + back && (front + back)[k] == front[k]
  {
  }

  lemma LastWinsExtends(products: seq<Product>, updates: seq<(nat, Values)>, k: nat, values: Values)
    requires k < |products|
    ensures var same := LastWins(products, updates);
      LastWins(products, updates + [(k, values)]) == same[k := same[k].(values := values)]
  {
  }

  lemma AppendExtends(products: seq<Product>, user: nat, updates: seq<(nat, Values)>, news: seq<Write>, w: Write)
    requires Find(products, w.sku).None? && forall n <- news :: n.sku != w.sku
    ensures Upsert(LastWins(products, updates) + Created(user, news), user, w)
         == LastWins(products, updates) + Created(user, news + [w])
  {
  }

  /** The first and the last update of every row agree. */
  ghost predicate RepeatsAgree(updates: seq<(nat, Values)>, count: nat) {
    forall i: nat :: i < count ==> FirstUpdate(updates, i) == LastUpdate(updates, i)
  }

  lemma AgreeingUpdates(products: seq<Product>, updates: seq<(nat, Values)>)
    requires RepeatsAgree(updates, |products|)
    ensures BulkUpdated(products, updates) == LastWins(products, updates)
  {
  }

  lemma EqualUpdates(products: seq<Product>, updates: seq<(nat, Values)>, more: seq<Product>)
    requires BulkUpdated(products, updates) + more == LastWins(products, updates) + more
    ensures RepeatsAgree(updates, |products|)
  {
    var first, last := BulkUpdated(products, updates), LastWins(products, updates);
    forall i: nat | i < |products| ensures FirstUpdate(updates, i) == LastUpdate(updates, i) {
      assert first[i] == (first + more)[i] == (last + more)[i] == last[i];
      UpdatedTogether(updates, i);
    }
  }

  /** Exactly when the bulk commit is the row-by-row import: the new SKUs of the valid rows
      are distinct, and repeated SKUs of existing products end with the values they start
      with. A repeated new SKU rolls the whole commit back; of a repeated existing SKU the
      commit keeps the first row and the row-by-row import the last. */
  lemma BulkIsRowByRow(env: Env, db: Db, user: nat, rows: seq<Row>, p: Plan)
    requires PlanOf(env, db.categories, rows) == Some(p)
    ensures var bulk := CommitImport(env, db, user, rows);
      && (bulk.Some? <==> DistinctSkus(News(db.products, p.writes)))
      && (bulk.Some? && RowByRow(env, db, user, rows) == Some(bulk.value.db)
          <==> DistinctSkus(News(db.products, p.writes))
               && RepeatsAgree(Updates(db.products, p.writes), |db.products|))
  {
    RowByRowIs(env, db, user, rows);
    if DistinctSkus(News(db.products, p.writes)) {
      UpsertsAre(db.products, user, p.writes);
      var updates, more := Updates(db.products, p.writes), Created(user, News(db.products, p.writes));
      if RepeatsAgree(updates, |db.products|) {
        AgreeingUpdates(db.products, updates);
      }
      if BulkUpdated(db.products, updates) + more == LastWins(db.products, updates) + more {
        EqualUpdates(db.products, updates, more);
      }
    }
  }

  lemma {:induction false} UpdatedTogether(updates: seq<(nat, Values)>, i: nat)
    ensures FirstUpdate(updates, i).Some? <==> exists u <- updates :: u.0 == i
    ensures LastUpdate(updates, i).Some? <==> exists u <- updates :: u.0 == i
    decreases |updates|
  {
    if updates != [] {
      UpdatedTogether(updates[1..], i);
      UpdatedTogether(updates[..|updates| - 1], i);
      assert updates == [updates[0]] + updates[1..];
      assert updates == updates[..|updates| - 1] + [updates[|updates| - 1]];
    }
  }

  // ---- Distinct SKUs -------------------------------------------------------

  lemma {:induction false} NewsAreWrites(products: seq<Product>, writes: seq<Write>)
    ensures forall w <- News(products, writes) :: w in writes
    ensures DistinctSkus(writes) ==> DistinctSkus(News(products, writes))
  {
    if writes != [] {
      var init, last := writes[..|writes| - 1], writes[|writes| - 1];
      NewsAreWrites(products, init);
      var news := News(products, init);
      if DistinctSkus(writes) {
        forall k | 0 <= k < |news| ensures news[k].sku != last.sku {
          assert news[k] in init;
        }
      }
    }
  }

  lemma {:induction false} UpdatesAreWrites(products: seq<Product>, writes: seq<Write>)
    ensures forall u <- Updates(products, writes) :: u.0 < |products|
    ensures forall u <- Updates(products, writes) :: exists w <- writes :: Find(products, w.sku) == Some(u.0)
  {
    if writes != [] {
      var init, last := writes[..|writes| - 1], writes[|writes| - 1];
      UpdatesAreWrites(products, init);
      forall u <- Updates(products, writes) ensures exists w <- writes :: Find(products, w.sku) == Some(u.0) {
        if u in Updates(products, init) {
          var w :| w in init && Find(products, w.sku) == Some(u.0);
          assert w in writes;
        } else {
          assert last in writes;
        }
      }
    }
  }

  lemma {:induction false} FirstUpdateSnoc(updates: seq<(nat, Values)>, u: (nat, Values), i: nat)
    ensures FirstUpdate(updates + [u], i)
         == if FirstUpdate(updates, i).Some? then FirstUpdate(updates, i) else if u.0 == i then Some(u.1) else None
  {
    if updates == [] {
      assert [] + [u] == [u] && [u][1..] == [];
    } else {
      assert (updates + [u])[1..] == updates[1..] + [u];
      FirstUpdateSnoc(updates[1..], u, i);
    }
  }

  lemma {:induction false} DistinctAgree(products: seq<Product>, writes: seq<Write>)
    requires DistinctSkus(writes)
    ensures RepeatsAgree(Updates(products, writes), |products|)
  {
    if writes != [] {
      var init, last := writes[..|writes| - 1], writes[|writes| - 1];
      DistinctAgree(products, init);
      UpdatesAreWrites(products, init);
      var updates, found := Updates(products, init), Find(products, last.sku);
      if found.Some? {
        var u := (found.value, last.values);
        forall i: nat | i < |products|
          ensures FirstUpdate(updates + [u], i) == LastUpdate(updates + [u], i)
        {
          FirstUpdateSnoc(updates, u, i);
          UpdatedTogether(updates, i);
          assert (updates + [u])[..|updates|] == updates;
          assert FirstUpdate(updates, i) == LastUpdate(updates, i);
        }
      } else {
        assert updates + [] == updates;
      }
    }
  }

  function ValidSkus(env: Env, rows: seq<Row>): seq<string> {
    if rows == [] then []
    else ValidSkus(env, rows[..|rows| - 1]) + (if Valid(env, rows[|rows| - 1]) then [rows[|rows| - 1].sku] else [])
  }

  predicate AllDistinct(s: seq<string>) {
    forall a, b :: 0 <= a < b < |s| ==> s[a] != s[b]
  }

  /** The writes of a file are its valid rows, in order. */
  lemma {:induction false} WritesAreValidRows(env: Env, categories: seq<Category>, rows: seq<Row>, p: Plan)
    requires PlanOf(env, categories, rows) == Some(p)
    ensures |p.writes| == |ValidSkus(env, rows)|
    ensures forall k :: 0 <= k < |p.writes| ==> p.writes[k].sku == ValidSkus(env, rows)[k]
  {
    if rows != [] {
      WritesAreValidRows(env, categories, rows[..|rows| - 1], PlanOf(env, categories, rows[..|rows| - 1]).value);
    }
  }

  /** The rows of a parsed file never make the commit raise a conversion error. */
  lemma {:induction false} ParsedRowsPlan(env: Env, categories: seq<Category>, rows: seq<Row>)
    requires forall r <- rows :: Parsed(env, r)
    ensures PlanOf(env, categories, rows).Some?
  {
    if rows != [] {
      var init, row := rows[..|rows| - 1], rows[|rows| - 1];
      assert rows == init + [row];
      ParsedRowsPlan(env, categories, init);
      if Valid(env, row) {
        var p := PlanOf(env, categories, init).value;
        ValidRowsConvert(env, row, Resolve(env, p.categories, CategoryName(env, row)).category);
      }
    }
  }

  /** Whenever the SKUs of the valid rows are distinct, the bulk commit is the row-by-row
      import. */
  lemma DistinctSkusAgree(env: Env, db: Db, user: nat, rows: seq<Row>)
    requires forall r <- rows :: Parsed(env, r)
    requires AllDistinct(ValidSkus(env, rows))
    ensures CommitImport(env, db, user, rows).Some?
    ensures RowByRow(env, db, user, rows) == Some(CommitImport(env, db, user, rows).value.db)
  {
    ParsedRowsPlan(env, db.categories, rows);
    var p := PlanOf(env, db.categories, rows).value;
    WritesAreValidRows(env, db.categories, rows, p);
    assert DistinctSkus(p.writes);
    NewsAreWrites(db.products, p.writes);
    DistinctAgree(db.products, p.writes);
    BulkIsRowByRow(env, db, user, rows, p);
  }

  // ---- The dry run ---------------------------------------------------------

  datatype Summary = Summary(added: nat, updated: nat, errored: nat)

  function SkusOf(rows: seq<Row>): set<string> {
    set r <- rows :: r.sku
  }

  function ExistingSkus(products: seq<Product>): set<string> {
    set p <- products :: p.sku
  }

  predicate Errored(env: Env, seen: set<string>, row: Row) {
    !Valid(env, row) || (row.sku != "" && row.sku in seen)
  }

  /** build_dry_run_summary over the rows; a parse error adds one to `errored`. */
  function DryRun(env: Env, products: seq<Product>, rows: seq<Row>): Summary {
    if rows == [] then Summary(0, 0, 0)
    else
      var init, row := rows[..|rows| - 1], rows[|rows| - 1];
      var s := DryRun(env, products, init);
      if Errored(env, SkusOf(init), row) then s.(errored := s.errored + 1)
      else if row.sku in ExistingSkus(products) then s.(updated := s.updated + 1)
      else s.(added := s.added + 1)
  }

  /** Every row is counted once, and a dry run is clean exactly when all rows are valid
      with distinct SKUs. */
  lemma {:induction false} CleanMeans(env: Env, products: seq<Product>, rows: seq<Row>)
    ensures var s := DryRun(env, products, rows);
      && s.added + s.updated + s.errored == |rows|
      && (s.errored == 0 <==> (forall r <- rows :: Valid(env, r))
                              && forall a, b :: 0 <= a < b < |rows| ==> rows[a].sku != rows[b].sku)
  {
    if rows != [] {
      var init, row := rows[..|rows| - 1], rows[|rows| - 1];
      CleanMeans(env, products, init);
      assert rows == init + [row];
      if Valid(env, row) {
        ValidMeans(env, row);
        assert !Bad(env, row, Sku);
      }
      if row.sku in SkusOf(init) {
        var r :| r in init && r.sku == row.sku;
        var a :| 0 <= a < |init| && init[a] == r;
        assert rows[a].sku == rows[|rows| - 1].sku;
      } else {
        forall a | 0 <= a < |init| ensures rows[a].sku != row.sku {
          assert init[a] in init;
        }
      }
    }
  }

  lemma {:induction false} CleanPlan(env: Env, db: Db, rows: seq<Row>)
    requires PlanOf(env, db.categories, rows).Some?
    requires DryRun(env, db.products, rows).errored == 0
    ensures var p, s := PlanOf(env, db.categories, rows).value, DryRun(env, db.products, rows);
      |News(db.products, p.writes)| == s.added && |Updates(db.products, p.writes)| == s.updated
  {
    if rows != [] {
      CleanPlan(env, db, rows[..|rows| - 1]);
      SkuExists(db.products, rows[|rows| - 1].sku);
    }
  }

  lemma SkuExists(products: seq<Product>, sku: string)
    ensures Find(products, sku).Some? <==> sku in ExistingSkus(products)
  {
  }

  lemma {:induction false} AllValid(env: Env, rows: seq<Row>)
    requires forall r <- rows :: Valid(env, r)
    ensures |ValidSkus(env, rows)| == |rows|
    ensures forall k :: 0 <= k < |rows| ==> ValidSkus(env, rows)[k] == rows[k].sku
  {
    if rows != [] {
      AllValid(env, rows[..|rows| - 1]);
    }
  }

  /** A clean dry run forecasts the commit: it succeeds, creates and updates exactly as
      many products as announced, and equals the row-by-row import. */
  lemma DryRunForecasts(env: Env, db: Db, user: nat, rows: seq<Row>)
    requires forall r <- rows :: Parsed(env, r)
    requires DryRun(env, db.products, rows).errored == 0
    ensures var s, c := DryRun(env, db.products, rows), CommitImport(env, db, user, rows);
      && c.Some? && c.value.created == s.added && c.value.updated == s.updated
      && RowByRow(env, db, user, rows) == Some(c.value.db)
  {
    CleanMeans(env, db.products, rows);
    ParsedRowsPlan(env, db.categories, rows);
    CleanPlan(env, db, rows);
    AllValid(env, rows);
    DistinctSkusAgree(env, db, user, rows);
  }

  // ---- Categories over a file ---------------------------------------------

  lemma {:induction false} ByNameMeans(categories: seq<Category>, name: string)
    ensures name in ByName(categories) <==> exists c <- categories :: c.name == name
    ensures name in ByName(categories) ==>
      ByName(categories)[name] < |categories| && categories[ByName(categories)[name]].name == name
    ensures forall c :: 0 <= c < |categories| && categories[c].name == name ==>
      name in ByName(categories) && c <= ByName(categories)[name]
  {
    if categories != [] {
      ByNameMeans(categories[..|categories| - 1], name);
      assert categories == categories[..|categories| - 1] + [categories[|categories| - 1]];
    }
  }

  lemma {:induction false} BySlugMeans(categories: seq<Category>, slug: string)
    ensures slug in BySlug(categories) <==> exists c <- categories :: c.slug == slug
    ensures slug in BySlug(categories) ==>
      BySlug(categories)[slug] < |categories| && categories[BySlug(categories)[slug]].slug == slug
  {
    if categories != [] {
      BySlugMeans(categories[..|categories| - 1], slug);
      assert categories == categories[..|categories| - 1] + [categories[|categories| - 1]];
    }
  }

  predicate UniqueSlugs(categories: seq<Category>) {
    forall a, b :: 0 <= a < b < |categories| ==> categories[a].slug != categories[b].slug
  }

  /** A row gets the category its cell names: the last of that name, else one of that slug,
      else a new one. */
  lemma ResolveMeans(env: Env, categories: seq<Category>, name: string)
    ensures var r := Resolve(env, categories, name);
      && (r.category.None? <==> name == "")
      && (r.category.Some? ==> r.category.value < |r.categories|)
      && (r.category.Some? ==>
            r.categories[r.category.value].name == name || r.categories[r.category.value].slug == name)
      && (r.created == [name] || (r.created == [] && r.categories == categories))
      && (r.created != [] ==> forall c <- categories :: c.name != name && c.slug != name)
      && (forall c :: 0 <= c < |categories| && categories[c].name == name && name != "" ==>
            r.category.Some? && c <= r.category.value && r.categories[r.category.value].name == name)
      && (UniqueSlugs(categories) ==> UniqueSlugs(r.categories))
  {
    ByNameMeans(categories, name);
    BySlugMeans(categories, name);
    SlugIsFresh(env, categories, name);
  }

  /** Importing a file keeps the old categories, creates each new name once, only names
      that no category had as name or slug, and keeps slugs unique. */
  lemma {:induction false} CategoriesCreatedOnce(env: Env, categories: seq<Category>, rows: seq<Row>, p: Plan)
    requires PlanOf(env, categories, rows) == Some(p)
    ensures categories <= p.categories && |p.categories| == |categories| + |p.created|
    ensures forall j :: 0 <= j < |p.created| ==> p.categories[|categories| + j].name == p.created[j]
    ensures AllDistinct(p.created)
    ensures forall name <- p.created :: forall c <- categories :: c.name != name && c.slug != name
    ensures UniqueSlugs(categories) ==> UniqueSlugs(p.categories)
  {
    if rows != [] {
      var before := PlanOf(env, categories, rows[..|rows| - 1]).value;
      CategoriesCreatedOnce(env, categories, rows[..|rows| - 1], before);
      CategoriesExtend(env, categories, before, rows[|rows| - 1], p);
    }
  }

  lemma CategoriesExtend(env: Env, categories: seq<Category>, before: Plan, row: Row, p: Plan)
    requires PlanRow(env, before, row) == Some(p)
    requires categories <= before.categories && |before.categories| == |categories| + |before.created|
    requires forall j :: 0 <= j < |before.created| ==> before.categories[|categories| + j].name == before.created[j]
    requires AllDistinct(before.created)
    requires forall name <- before.created :: forall c <- categories :: c.name != name && c.slug != name
    ensures categories <= p.categories && |p.categories| == |categories| + |p.created|
    ensures forall j :: 0 <= j < |p.created| ==> p.categories[|categories| + j].name == p.created[j]
    ensures AllDistinct(p.created)
    ensures forall name <- p.created :: forall c <- categories :: c.name != name && c.slug != name
    ensures UniqueSlugs(before.categories) ==> UniqueSlugs(p.categories)
  {
    if Valid(env, row) {
      var name := CategoryName(env, row);
      ResolveMeans(env, before.categories, name);
      var r := Resolve(env, before.categories, name);
      if r.created == [] {
        assert before.created + [] == before.created;
      } else {
        forall j | 0 <= j < |before.created| ensures before.created[j] != name {
          assert before.categories[|categories| + j] in before.categories;
        }
        forall c <- categories ensures c.name != name && c.slug != name {
          assert c in before.categories;
        }
      }
    }
  }

  // ---- Soft-deleted products -----------------------------------------------

  /** The lookup by SKU does not look at deleted_at, so a SKU whose products are all
      soft-deleted is "updated" in place and stays invisible: the import neither creates
      nor revives it. */
  lemma DeletedSkuStaysDeleted(env: Env, db: Db, user: nat, rows: seq<Row>, sku: string)
    requires CommitImport(env, db, user, rows).Some?
    requires exists p <- db.products :: p.sku == sku
    requires forall p <- db.products :: p.sku == sku ==> p.deleted
    ensures forall p <- CommitImport(env, db, user, rows).value.db.products :: p.sku == sku ==> p.deleted
  {
    var writes := PlanOf(env, db.categories, rows).value.writes;
    var news := News(db.products, writes);
    NewsAreNew(db.products, writes);
    var updated, created := BulkUpdated(db.products, Updates(db.products, writes)), Created(user, news);
    forall k | 0 <= k < |created| ensures created[k].sku != sku {
      assert news[k] in news;
    }
    forall p <- updated ensures p.sku == sku ==> p.deleted {
      var i :| 0 <= i < |updated| && updated[i] == p;
      assert db.products[i] in db.products;
    }
  }

  lemma {:induction false} NewsAreNew(products: seq<Product>, writes: seq<Write>)
    ensures forall w <- News(products, writes) :: Find(products, w.sku).None?
  {
    if writes != [] {
      NewsAreNew(products, writes[..|writes| - 1]);
    }
  }

  // ---- The importer --------------------------------------------------------

  /** The tenant's product and category tables, and the import running against them. */
  class Importer {
    var products: seq<Product>
    var categories: seq<Category>

    constructor (products: seq<Product>, categories: seq<Category>)
      ensures this.products == products && this.categories == categories
    {
      this.products, this.categories := products, categories;
    }

    /** _unique_category_slug. The loop ends because every taken slug is met only once. */
    method UniqueCategorySlug(env: Env, name: string) returns (slug: string)
      ensures slug == UniqueSlug(env, categories, name)
      ensures forall c <- categories :: c.slug != slug
    {
      var base := if env.slugify(name) == "" then "category" else env.slugify(name);
      slug := base;
      var n := 2;
      var existing := set c <- categories | StartsWith(c.slug, base) :: c.slug;
      ghost var left := existing;
      while slug in existing
        invariant 2 <= n && slug == Candidate(base, n - 1)
        invariant left <= existing
        invariant forall k :: n - 1 <= k ==> Candidate(base, k) !in existing - left
        invariant FirstFree(base, left, n - 1) == FirstFree(base, existing, 1)
        decreases |left|
      {
        forall k | n <= k ensures Candidate(base, k) != slug {
          CandidatesDiffer(base, n - 1, k);
        }
        left := left - {slug};
        slug := base + "-" + Decimal(n);
        n := n + 1;
      }
      SlugIsFresh(env, categories, name);
    }

    /** build_dry_run_summary */
    method BuildDryRunSummary(env: Env, rows: seq<Row>, parseErrors: bool) returns (s: Summary)
      ensures var d := DryRun(env, products, rows);
        s == d.(errored := d.errored + if parseErrors then 1 else 0)
    {
      var existing := set p <- products :: p.sku;
      var seen: set<string> := {};
      s := Summary(0, 0, 0);
      for k := 0 to |rows|
        invariant s == DryRun(env, products, rows[..k])
        invariant seen == SkusOf(rows[..k])
      {
        var row := rows[k];
        assert rows[..k + 1][..k] == rows[..k];
        if Errors(env, row) != {} || (row.sku != "" && row.sku in seen) {
          s := s.(errored := s.errored + 1);
        } else if row.sku in existing {
          s := s.(updated := s.updated + 1);
        } else {
          s := s.(added := s.added + 1);
        }
        seen := seen + {row.sku};
      }
      assert rows[..|rows|] == rows;
      if parseErrors {
        s := s.(errored := s.errored + 1);
      }
    }

    /** The category of one row, by the cached lookups; a missing one is created and both
        lookups learn it. */
    method ResolveCategory(env: Env, name: string, byName: map<string, nat>, bySlug: map<string, nat>)
      returns (category: Option<nat>, created: seq<string>, names: map<string, nat>, slugs: map<string, nat>)
      requires byName == ByName(categories) && bySlug == BySlug(categories)
      modifies this`categories
      ensures Resolved(categories, category, created) == Resolve(env, old(categories), name)
      ensures names == ByName(categories) && slugs == BySlug(categories)
    {
      category, created, names, slugs := None, [], byName, bySlug;
      if name != "" {
        if name in byName {
          category := Some(byName[name]);
        } else if name in bySlug {
          category := Some(bySlug[name]);
        } else {
          var slug := UniqueCategorySlug(env, name);
          var c := Category(name, slug);
          category, created := Some(|categories|), [name];
          names, slugs := byName[name := |categories|], bySlug[slug := |categories|];
          Snoc(categories, c);
          categories := categories + [c];
        }
      }
    }

    /** One valid row: its category and its defaults, None where a conversion raises. */
    method PrepareRow(env: Env, row: Row, byName: map<string, nat>, bySlug: map<string, nat>, ghost p: Plan)
      returns (w: Option<Write>, created: seq<string>, names: map<string, nat>, slugs: map<string, nat>)
      requires Valid(env, row) && p.categories == categories
      requires byName == ByName(categories) && bySlug == BySlug(categories)
      modifies this`categories
      ensures PlanRow(env, p, row)
           == if w.None? then None else Some(Plan(categories, p.created + created, p.writes + [w.value]))
      ensures names == ByName(categories) && slugs == BySlug(categories)
    {
      var category;
      category, created, names, slugs := ResolveCategory(env, CategoryName(env, row), byName, bySlug);
      var values := Convert(env, row, category);
      w := if values.None? then None else Some(Write(row.sku, values.value));
    }

    /** Queue one row for bulk_update or bulk_create. */
    method Enqueue(w: Write, news: seq<Write>, updates: seq<(nat, Values)>, ghost writes: seq<Write>)
      returns (news': seq<Write>, updates': seq<(nat, Values)>)
      requires news == News(products, writes) && updates == Updates(products, writes)
      ensures news' == News(products, writes + [w]) && updates' == Updates(products, writes + [w])
    {
      WritesSnoc(products, writes, w);
      news', updates' := news, updates;
      var existing := Find(products, w.sku);
      if existing.Some? {
        updates' := updates + [(existing.value, w.values)];
      } else {
        news' := news + [w];
      }
    }

    /** commit_import. An exception restores both tables. */
    method Run(env: Env, user: nat, rows: seq<Row>) returns (r: Option<(nat, nat, set<string>)>)
      modifies this
      ensures var c := CommitImport(env, Db(old(products), old(categories)), user, rows);
        if c.None? then r.None? && products == old(products) && categories == old(categories)
        else Db(products, categories) == c.value.db
             && r == Some((c.value.created, c.value.updated, c.value.categories))
    {
      var saved := categories;
      var byName, bySlug := ByName(categories), BySlug(categories);
      var news: seq<Write>, updates: seq<(nat, Values)>, created: seq<string> := [], [], [];
      ghost var writes: seq<Write> := [];
      for k := 0 to |rows|
        invariant products == old(products)
        invariant PlanOf(env, saved, rows[..k]) == Some(Plan(categories, created, writes))
        invariant byName == ByName(categories) && bySlug == BySlug(categories)
        invariant news == News(products, writes) && updates == Updates(products, writes)
      {
        var row := rows[k];
        assert rows[..k + 1][..k] == rows[..k];
        if Errors(env, row) == {} {
          var w, made;
          w, made, byName, bySlug := PrepareRow(env, row, byName, bySlug, Plan(categories, created, writes));
          if w.None? {
            PlanFails(env, saved, rows, k + 1);
            categories := saved;
            return None;
          }
          created := created + made;
          news, updates := Enqueue(w.value, news, updates, writes);
          writes := writes + [w.value];
        }
      }
      assert rows[..|rows|] == rows;
      if !DistinctSkus(news) {
        categories := saved;
        return None;
      }
      products := BulkUpdated(products, updates) + Created(user, news);
      r := Some((|news|, |updates|, set name <- created));
    }
  }

  lemma WritesSnoc(products: seq<Product>, writes: seq<Write>, w: Write)
    ensures var found := Find(products, w.sku);
      && News(products, writes + [w]) == (if found.None? then News(products, writes) + [w] else News(products, writes))
      && Updates(products, writes + [w])
         == (if found.Some? then Updates(products, writes) + [(found.value, w.values)] else Updates(products, writes))
  {
  }

  lemma Snoc(categories: seq<Category>, c: Category)
    ensures ByName(categories + [c]) == ByName(categories)[c.name := |categories|]
    ensures BySlug(categories + [c]) == BySlug(categories)[c.slug := |categories|]
  {
  }

  lemma {:induction false} PlanFails(env: Env, categories: seq<Category>, rows: seq<Row>, k: nat)
    requires k <= |rows| && PlanOf(env, categories, rows[..k]).None?
    ensures PlanOf(env, categories, rows).None?
    decreases |rows|
  {
    if k < |rows| {
      assert rows[..|rows| - 1][..k] == rows[..k];
      PlanFails(env, categories, rows[..|rows| - 1], k);
    } else {
      assert rows[..k] == rows;
    }
  }
}
