/** backend/apps/catalog/csv_import.py, lines 120-268 and 347-433: which cell of a row ends
    up in which column of which product. */
module ImportColumns {
  import opened Wrappers
  import opened Import

  function Cell(row: Row, column: Column): string {
    if column in row.fields then row.fields[column] else ""
  }

  predicate NumberOrBlank(env: Env, cell: string) {
    cell == "" || env.strip(cell) == "" || env.number(cell).Some?
  }

  /** A row is valid exactly when its SKU and name are there, its unit is known, its sale
      price is a number, the other numbers are numbers or blank, and its HS code and tax rate
      are blank or configured. */
  lemma ValidExactly(env: Env, row: Row)
    ensures Valid(env, row) <==>
      && row.sku != "" && Cell(row, Name) != ""
      && Cell(row, UomCode) != "" && Cell(row, UomCode) in env.uoms
      && env.strip(Cell(row, SalePrice)) != "" && env.number(Cell(row, SalePrice)).Some?
      && NumberOrBlank(env, Cell(row, CostPrice)) && NumberOrBlank(env, Cell(row, RetailPrice))
      && NumberOrBlank(env, Cell(row, MinSalePrice)) && NumberOrBlank(env, Cell(row, MaxDiscountPct))
      && NumberOrBlank(env, Cell(row, ReorderLevel))
      && (Cell(row, HsCode) == "" || Cell(row, HsCode) in env.hsCodes)
      && (Cell(row, TaxRate) == "" || RateKnown(env, env.strip(Cell(row, TaxRate))))
  {
    if Valid(env, row) {
      ValidMeans(env, row);
      assert !Bad(env, row, Sku) && !Bad(env, row, Name) && !Bad(env, row, UomCode) && !Bad(env, row, SalePrice);
      assert !Bad(env, row, CostPrice) && !Bad(env, row, RetailPrice) && !Bad(env, row, MinSalePrice);
      assert !Bad(env, row, MaxDiscountPct) && !Bad(env, row, ReorderLevel);
      assert !Bad(env, row, HsCode) && !Bad(env, row, TaxRate);
    } else {
      var column :| column in Errors(env, row);
      assert Bad(env, row, column);
    }
  }

  predicate RateKnown(env: Env, name: string) {
    || name == "" || name in env.taxByName
    || (env.number(name).Some? && env.number(name).value in env.taxByRate)
  }

  // ---- The columns ---------------------------------------------------------

  /** The number in a cell, or the value that a blank stands for. */
  predicate HoldsNumber(env: Env, cell: string, value: Option<real>) {
    if cell == "" then value.None? else value.Some? && env.number(cell) == value
  }

  predicate HoldsText(cell: string, value: Option<string>) {
    if cell == "" then value.None? else value == Some(cell)
  }

  /** Every column of `v` but the category holds its own cell of the row. */
  ghost predicate Columns(env: Env, row: Row, v: Values) {
    && v.name == Cell(row, Name) && v.nameUr == Cell(row, NameUr) && v.description == Cell(row, Description)
    && HoldsText(Cell(row, Barcode), v.barcode) && HoldsText(Cell(row, HsCode), v.hsCode)
    && v.uom == Cell(row, UomCode)
    && HoldsRate(env, env.strip(Cell(row, TaxRate)), v.taxRate)
    && v.taxable == env.truthy(if IsTaxable in row.fields then row.fields[IsTaxable] else "true")
    && v.active == env.truthy(if IsActive in row.fields then row.fields[IsActive] else "true")
    && env.number(Cell(row, SalePrice)) == Some(v.sale)
    && (if Cell(row, CostPrice) == "" then v.cost == 0.0 else env.number(Cell(row, CostPrice)) == Some(v.cost))
    && HoldsNumber(env, Cell(row, RetailPrice), v.retail)
    && HoldsNumber(env, Cell(row, MinSalePrice), v.minSale)
    && HoldsNumber(env, Cell(row, MaxDiscountPct), v.maxDiscount)
    && HoldsNumber(env, Cell(row, ReorderLevel), v.reorder)
  }

  /** A rate is looked up by name, then by number. */
  predicate HoldsRate(env: Env, name: string, rate: Option<nat>) {
    if name == "" then rate.None?
    else if name in env.taxByName then rate == Some(env.taxByName[name])
    else if env.number(name).Some? && env.number(name).value in env.taxByRate
      then rate == Some(env.taxByRate[env.number(name).value])
    else rate.None?
  }

  lemma ConvertExactly(env: Env, row: Row, category: Option<nat>)
    requires Convert(env, row, category).Some?
    ensures Columns(env, row, Convert(env, row, category).value)
    ensures Convert(env, row, category).value.category == category
  {
  }

  /** The category a row's cell names: none for a blank one, else by name or by slug. */
  ghost predicate HoldsCategory(env: Env, row: Row, categories: seq<Category>, category: Option<nat>) {
    var name := env.strip(Cell(row, CategoryColumn));
    if name == "" then category.None?
    else
      && category.Some? && category.value < |categories|
      && (categories[category.value].name == name || categories[category.value].slug == name)
  }

  // ---- The write of a row --------------------------------------------------

  lemma {:induction false} WritesComeFromRows(env: Env, categories: seq<Category>, rows: seq<Row>, p: Plan, m: nat)
    requires PlanOf(env, categories, rows) == Some(p) && m < |p.writes|
    ensures exists a :: 0 <= a < |rows| && Valid(env, rows[a]) && rows[a].sku == p.writes[m].sku
  {
    var front, last := rows[..|rows| - 1], rows[|rows| - 1];
    var before := PlanOf(env, categories, front).value;
    if m < |before.writes| {
      WritesComeFromRows(env, categories, front, before, m);
      var a :| 0 <= a < |front| && Valid(env, front[a]) && front[a].sku == before.writes[m].sku;
      assert rows[a] == front[a];
    } else {
      assert Valid(env, last);
    }
  }

  /** The first valid row of a SKU is its first write. */
  lemma {:induction false} WriteOf(env: Env, categories: seq<Category>, rows: seq<Row>, p: Plan, j: nat)
    returns (m: nat)
    requires PlanOf(env, categories, rows) == Some(p) && j < |rows| && Valid(env, rows[j])
    requires forall a :: 0 <= a < j && Valid(env, rows[a]) ==> rows[a].sku != rows[j].sku
    ensures m < |p.writes| && p.writes[m].sku == rows[j].sku
    ensures forall l :: 0 <= l < m ==> p.writes[l].sku != rows[j].sku
    ensures Columns(env, rows[j], p.writes[m].values)
    ensures HoldsCategory(env, rows[j], p.categories, p.writes[m].values.category)
  {
    var front, last := rows[..|rows| - 1], rows[|rows| - 1];
    var before := PlanOf(env, categories, front).value;
    if j < |front| {
      m := WriteOf(env, categories, front, before, j);
      PlanGrows(env, before, last, p);
    } else {
      m := |before.writes|;
      forall l | 0 <= l < m ensures before.writes[l].sku != last.sku {
        WritesComeFromRows(env, categories, front, before, l);
      }
      ConvertExactly(env, last, Resolve(env, before.categories, CategoryName(env, last)).category);
      ResolveMeans(env, before.categories, CategoryName(env, last));
    }
  }

  lemma PlanGrows(env: Env, before: Plan, row: Row, p: Plan)
    requires PlanRow(env, before, row) == Some(p)
    ensures before.writes <= p.writes && before.categories <= p.categories
  {
  }

  // ---- The product of a row ------------------------------------------------

  lemma {:induction false} FirstUpdateOf(products: seq<Product>, writes: seq<Write>, f: nat, m: nat)
    requires m < |writes| && Find(products, writes[m].sku) == Some(f)
    requires forall l :: 0 <= l < m ==> writes[l].sku != writes[m].sku
    ensures FirstUpdate(Updates(products, writes), f) == Some(writes[m].values)
  {
    var front, last := writes[..|writes| - 1], writes[|writes| - 1];
    var updates, found := Updates(products, front), Find(products, last.sku);
    if found.Some? {
      FirstUpdateSnoc(updates, (found.value, last.values), f);
    } else {
      assert updates + [] == updates;
    }
    if m < |front| {
      FirstUpdateOf(products, front, f, m);
    } else {
      NotUpdated(products, front, f);
    }
  }

  lemma {:induction false} NotUpdated(products: seq<Product>, writes: seq<Write>, f: nat)
    requires f < |products| && forall w <- writes :: w.sku != products[f].sku
    ensures FirstUpdate(Updates(products, writes), f).None?
  {
    if writes != [] {
      var front, last := writes[..|writes| - 1], writes[|writes| - 1];
      NotUpdated(products, front, f);
      var found := Find(products, last.sku);
      if found.Some? {
        assert last in writes;
        FirstUpdateSnoc(Updates(products, front), (found.value, last.values), f);
      } else {
        assert Updates(products, front) + [] == Updates(products, front);
      }
    }
  }

  lemma {:induction false} FindSkus(a: seq<Product>, b: seq<Product>, more: seq<Product>, sku: string)
    requires |a| == |b| && forall i :: 0 <= i < |a| ==> a[i].sku == b[i].sku
    requires Find(a, sku).Some?
    ensures Find(b + more, sku) == Find(a, sku)
  {
    if a[0].sku != sku {
      assert (b + more)[1..] == b[1..] + more;
      FindSkus(a[1..], b[1..], more, sku);
    }
  }

  lemma {:induction false} NewsHold(products: seq<Product>, writes: seq<Write>, m: nat)
    requires m < |writes| && Find(products, writes[m].sku).None?
    ensures writes[m] in News(products, writes)
  {
    if m < |writes| - 1 {
      NewsHold(products, writes[..|writes| - 1], m);
    }
  }

  /** An existing product keeps its place, its creator, whether it is deleted, and the
      columns an import does not write; a new one is created by the user, not deleted. */
  lemma ImportedUpdate(products: seq<Product>, user: nat, writes: seq<Write>, m: nat)
    requires m < |writes| && Find(products, writes[m].sku).Some?
    requires forall l :: 0 <= l < m ==> writes[l].sku != writes[m].sku
    ensures var after, f := BulkUpdated(products, Updates(products, writes)) + Created(user, News(products, writes)),
                            Find(products, writes[m].sku).value;
      && Find(after, writes[m].sku) == Some(f) && f < |products|
      && after[f] == products[f].(values := writes[m].values)
  {
    var f := Find(products, writes[m].sku).value;
    FirstUpdateOf(products, writes, f, m);
    var updated := BulkUpdated(products, Updates(products, writes));
    FindSkus(products, updated, Created(user, News(products, writes)), writes[m].sku);
  }

  lemma ImportedCreate(products: seq<Product>, user: nat, writes: seq<Write>, m: nat)
    requires m < |writes| && Find(products, writes[m].sku).None? && DistinctSkus(News(products, writes))
    ensures var after := BulkUpdated(products, Updates(products, writes)) + Created(user, News(products, writes));
      var f := Find(after, writes[m].sku);
      f.Some? && after[f.value] == Product(writes[m].sku, writes[m].values, user, false, 0)
  {
    var news, updated := News(products, writes), BulkUpdated(products, Updates(products, writes));
    NewsHold(products, writes, m);
    forall g | 0 <= g < |updated| ensures updated[g].sku != writes[m].sku {
      assert products[g] in products;
    }
    FindCreated(updated, user, news, writes[m]);
  }

  lemma FindCreated(updated: seq<Product>, user: nat, news: seq<Write>, w: Write)
    requires w in news && DistinctSkus(news)
    requires forall g :: 0 <= g < |updated| ==> updated[g].sku != w.sku
    ensures var after := updated + Created(user, news);
      Find(after, w.sku).Some? && after[Find(after, w.sku).value] == NewProduct(user, w)
  {
    var after := updated + Created(user, news);
    var k :| 0 <= k < |news| && news[k] == w;
    assert after[|updated| + k] == NewProduct(user, w);
    assert after[|updated| + k] in after;
    var f := Find(after, w.sku).value;
    assert news[f - |updated|].sku == news[k].sku;
  }

  /** After a commit the product under the SKU of a valid row (the first such row, if the SKU
      is repeated) holds in each of the sixteen columns that row's own cell. If the SKU was
      there already it is that product, otherwise untouched; else it is a new one. */
  lemma ImportedColumns(env: Env, db: Db, user: nat, rows: seq<Row>, j: nat)
    requires CommitImport(env, db, user, rows).Some? && j < |rows| && Valid(env, rows[j])
    requires forall a :: 0 <= a < j && Valid(env, rows[a]) ==> rows[a].sku != rows[j].sku
    ensures var after := CommitImport(env, db, user, rows).value.db;
      var f, was := Find(after.products, rows[j].sku), Find(db.products, rows[j].sku);
      && f.Some?
      && var p := after.products[f.value];
      && p.sku == rows[j].sku
      && Columns(env, rows[j], p.values)
      && HoldsCategory(env, rows[j], after.categories, p.values.category)
      && (was.Some? ==> f == was && p == db.products[was.value].(values := p.values))
      && (was.None? ==> p.createdBy == user && !p.deleted && p.rest == 0)
  {
    var plan := PlanOf(env, db.categories, rows).value;
    var m := WriteOf(env, db.categories, rows, plan, j);
    if Find(db.products, rows[j].sku).Some? {
      ImportedUpdate(db.products, user, plan.writes, m);
    } else {
      ImportedCreate(db.products, user, plan.writes, m);
    }
  }

  lemma {:induction false} UpdatedBy(products: seq<Product>, writes: seq<Write>, i: nat)
    ensures FirstUpdate(Updates(products, writes), i).Some?
        ==> exists m :: 0 <= m < |writes| && Find(products, writes[m].sku) == Some(i)
  {
    if writes != [] {
      var front, last := writes[..|writes| - 1], writes[|writes| - 1];
      UpdatedBy(products, front, i);
      var updates, found := Updates(products, front), Find(products, last.sku);
      if found.Some? {
        FirstUpdateSnoc(updates, (found.value, last.values), i);
        assert Find(products, writes[|writes| - 1].sku) == found;
      } else {
        assert updates + [] == updates;
      }
      if FirstUpdate(updates, i).Some? {
        var m :| 0 <= m < |front| && Find(products, front[m].sku) == Some(i);
        assert writes[m] == front[m];
      }
    }
  }

  /** A product whose SKU no valid row names is left exactly as it was. */
  lemma OthersUntouched(env: Env, db: Db, user: nat, rows: seq<Row>, i: nat)
    requires CommitImport(env, db, user, rows).Some? && i < |db.products|
    requires forall r <- rows :: Valid(env, r) ==> r.sku != db.products[i].sku
    ensures var after := CommitImport(env, db, user, rows).value.db.products;
      |db.products| <= |after| && after[i] == db.products[i]
  {
    var plan := PlanOf(env, db.categories, rows).value;
    UpdatedBy(db.products, plan.writes, i);
    if FirstUpdate(Updates(db.products, plan.writes), i).Some? {
      var m :| 0 <= m < |plan.writes| && Find(db.products, plan.writes[m].sku) == Some(i);
      WritesComeFromRows(env, db.categories, rows, plan, m);
    }
  }
}
