/** Adding licences to the pool: one by one, and by pasting a text. */
module LicenseImport {
  import opened Common
  import opened Text
  import opened LicenseText

  datatype ProductType = LicenseProduct | OtherProduct

  /** A stored licence, as far as importing reads or writes it. */
  datatype Row = Row(product: nat, fields: Fields)

  datatype ImportError = ProductNotFound | NotLicenseProduct | FieldsMissing | Duplicate

  datatype Report = Report(imported: nat, dupInFile: nat, dupInDb: nat, errors: seq<Error>, parsed: nat)

  /** What lower-casing makes of a text, in whatever alphabet. */
  type Casing = string -> string

  /** E-mails are compared in lower case. */
  function KeyOf(lower: Casing, f: Fields): string {
    lower(f.email)
  }

  /** The e-mails a product already has. */
  function Stored(lower: Casing, rows: seq<Row>, product: nat): set<string> {
    set i | 0 <= i < |rows| && rows[i].product == product :: KeyOf(lower, rows[i].fields)
  }

  /** No product has the same e-mail twice, in any spelling. */
  ghost predicate Distinct(lower: Casing, rows: seq<Row>) {
    forall i, j :: 0 <= i < j < |rows| && rows[i].product == rows[j].product ==>
      KeyOf(lower, rows[i].fields) != KeyOf(lower, rows[j].fields)
  }

  function ProductProblem(products: map<nat, ProductType>, product: nat): Option<ImportError> {
    if product !in products then Some(ProductNotFound)
    else if products[product] != LicenseProduct then Some(NotLicenseProduct)
    else None
  }

  /** Licences go to licence products there are, and to nothing else. */
  lemma OnlyLicenseProducts(products: map<nat, ProductType>, product: nat)
    ensures var problem := ProductProblem(products, product);
            && (problem.None? <==> product in products && products[product].LicenseProduct?)
            && (problem == Some(ProductNotFound) <==> product !in products)
            && (problem == Some(NotLicenseProduct) <==> product in products && !products[product].LicenseProduct?)
  {
  }

  // ---------------------------------------------------------------------------
  // What an import keeps
  // ---------------------------------------------------------------------------

  predicate FirstOfKey(lower: Casing, items: seq<Item>, k: nat)
    requires k < |items|
  {
    forall j :: 0 <= j < k ==> KeyOf(lower, items[j].fields) != KeyOf(lower, items[k].fields)
  }

  /** The items an import stores: the first of each e-mail not stored yet. */
  function Chosen(lower: Casing, items: seq<Item>, stored: set<string>): seq<Fields> {
    if items == [] then []
    else
      var n := |items| - 1;
      Chosen(lower, items[..n], stored)
      + (if FirstOfKey(lower, items, n) && KeyOf(lower, items[n].fields) !in stored then [items[n].fields] else [])
  }

  /** Items whose e-mail an earlier item has. */
  function Repeats(lower: Casing, items: seq<Item>): nat {
    if items == [] then 0
    else Repeats(lower, items[..|items| - 1]) + (if FirstOfKey(lower, items, |items| - 1) then 0 else 1)
  }

  /** First items whose e-mail is stored already. */
  function Known(lower: Casing, items: seq<Item>, stored: set<string>): nat {
    if items == [] then 0
    else
      var n := |items| - 1;
      Known(lower, items[..n], stored)
      + (if FirstOfKey(lower, items, n) && KeyOf(lower, items[n].fields) in stored then 1 else 0)
  }

  function RowsFor(product: nat, chosen: seq<Fields>): (r: seq<Row>)
    ensures |r| == |chosen|
    ensures forall k :: 0 <= k < |chosen| ==> r[k] == Row(product, chosen[k])
  {
    seq(|chosen|, k requires 0 <= k < |chosen| => Row(product, chosen[k]))
  }

  function Imported(lower: Casing, rows: seq<Row>, product: nat, items: seq<Item>): seq<Row> {
    rows + RowsFor(product, Chosen(lower, items, Stored(lower, rows, product)))
  }

  class LicenseStock {
    const lower: Casing
    var products: map<nat, ProductType>
    var rows: seq<Row>

    constructor (lower: Casing, products: map<nat, ProductType>)
      ensures this.lower == lower && this.products == products && rows == []
    {
      this.lower, this.products, rows := lower, products, [];
    }

    method AddLicense(product: nat, email: string, password: string, note: Option<string>)
      returns (r: Result<nat, ImportError>)
      modifies `rows
      ensures var fields := Fields(Strip(email), Strip(password), if note == Some("") then None else note);
              match r
              case Ok(id) => && ProductProblem(products, product).None?
                             && id == old(|rows|) && rows == old(rows) + [Row(product, fields)]
                             && fields.email != "" && fields.password != ""
                             && KeyOf(lower, fields) !in Stored(lower, old(rows), product)
              case Err(e) => && rows == old(rows)
                             && (ProductProblem(products, product) == Some(e)
                                 || (e == FieldsMissing && (fields.email == "" || fields.password == ""))
                                 || (e == Duplicate && KeyOf(lower, fields) in Stored(lower, old(rows), product)))
      ensures old(Distinct(lower, rows)) ==> Distinct(lower, rows)
    {
      var problem := ProductProblem(products, product);
      if problem.Some? {
        return Err(problem.value);
      }
      var fields := Fields(Strip(email), Strip(password), if note == Some("") then None else note);
      if fields.email == "" || fields.password == "" {
        return Err(FieldsMissing);
      }
      if KeyOf(lower, fields) in Stored(lower, rows, product) {
        return Err(Duplicate);
      }
      r := Ok(|rows|);
      rows := rows + [Row(product, fields)];
    }

    /** Parses a pasted text and stores what is new; the report accounts for every parsed item. */
    method BulkImportLicenses(product: nat, text: string) returns (r: Result<Report, ImportError>)
      modifies `rows
      ensures var items := Parse(text).items;
              match ProductProblem(products, product)
              case Some(e) => r == Err(e) && rows == old(rows)
              case None =>
                && rows == Imported(lower, old(rows), product, items)
                && r == Ok(Report(|rows| - |old(rows)|, Repeats(lower, items),
                                  Known(lower, items, Stored(lower, old(rows), product)),
                                  Parse(text).errors, |items|))
      ensures r.Ok? ==> r.value.imported + r.value.dupInFile + r.value.dupInDb == r.value.parsed
      ensures old(Distinct(lower, rows)) ==> Distinct(lower, rows)
    {
      hide *;
      var problem := ProductProblem(products, product);
      if problem.Some? {
        return Err(problem.value);
      }
      ghost var stored := Stored(lower, rows, product);
      var items, errors := ParseLicenseText(text);
      var imported, dupInFile, dupInDb := StoreNewItems(product, items);
      EveryItemCounted(lower, items, stored);
      r := Ok(Report(imported, dupInFile, dupInDb, errors, |items|));
    }

    /** The loop over the parsed items. */
    method StoreNewItems(product: nat, items: seq<Item>) returns (imported: nat, dupInFile: nat, dupInDb: nat)
      modifies `rows
      ensures rows == Imported(lower, old(rows), product, items)
      ensures imported == |Chosen(lower, items, Stored(lower, old(rows), product))| == |rows| - |old(rows)|
      ensures dupInFile == Repeats(lower, items) && dupInDb == Known(lower, items, Stored(lower, old(rows), product))
      ensures old(Distinct(lower, rows)) ==> Distinct(lower, rows)
    {
      hide Chosen, Repeats, Known, KeysOf, KeyOf, Distinct, Stored;
      ghost var before := rows;
      var existing := Stored(lower, rows, product);
      ghost var stored := existing;
      var seen: set<string> := {};
      imported, dupInFile, dupInDb := 0, 0, 0;
      NoItemsNoWork(lower, product, stored);
      assert items[..0] == [];
      for i := 0 to |items|
        invariant seen == KeysOf(lower, items[..i])
        invariant existing == stored + seen
        invariant rows == before + RowsFor(product, Chosen(lower, items[..i], stored))
        invariant imported == |Chosen(lower, items[..i], stored)|
        invariant dupInFile == Repeats(lower, items[..i]) && dupInDb == Known(lower, items[..i], stored)
      {
        GrowsByOne(lower, items[..i], items[i], stored);
        assert items[..i + 1] == items[..i] + [items[i]];
        var key := KeyOf(lower, items[i].fields);
        if key in seen {
          dupInFile := dupInFile + 1;
          continue;
        }
        seen := seen + {key};
        if key in existing {
          dupInDb := dupInDb + 1;
          continue;
        }
        RowsGrow(product, Chosen(lower, items[..i], stored), items[i].fields);
        rows := rows + [Row(product, items[i].fields)];
        existing := existing + {key};
        imported := imported + 1;
      }
      assert items[..|items|] == items;
      if Distinct(lower, before) {
        ImportKeepsDistinct(lower, before, product, items);
      }
    }
  }

  function KeysOf(lower: Casing, items: seq<Item>): set<string> {
    set k | 0 <= k < |items| :: KeyOf(lower, items[k].fields)
  }

  lemma NoItemsNoWork(lower: Casing, product: nat, stored: set<string>)
    ensures Chosen(lower, [], stored) == [] && Repeats(lower, []) == 0 && Known(lower, [], stored) == 0
    ensures KeysOf(lower, []) == {}
    ensures RowsFor(product, []) == []
  {
  }

  lemma RowsGrow(product: nat, chosen: seq<Fields>, f: Fields)
    ensures RowsFor(product, chosen + [f]) == RowsFor(product, chosen) + [Row(product, f)]
  {
  }

  /** What one more item adds: it is stored if its e-mail is new to the text and to the pool. */
  lemma GrowsByOne(lower: Casing, items: seq<Item>, item: Item, stored: set<string>)
    ensures var key := KeyOf(lower, item.fields);
            var first := key !in KeysOf(lower, items);
            && Chosen(lower, items + [item], stored) ==
               Chosen(lower, items, stored) + (if first && key !in stored then [item.fields] else [])
            && Repeats(lower, items + [item]) == Repeats(lower, items) + (if first then 0 else 1)
            && Known(lower, items + [item], stored) ==
               Known(lower, items, stored) + (if first && key in stored then 1 else 0)
            && KeysOf(lower, items + [item]) == KeysOf(lower, items) + {key}
  {
    hide KeyOf;
    var more := items + [item];
    assert more[..|items|] == items && more[|items|] == item;
    assert forall k :: 0 <= k < |items| ==> more[k] == items[k];
    KeysGrowByOne(lower, items, item);
    assert FirstOfKey(lower, more, |items|) <==> KeyOf(lower, item.fields) !in KeysOf(lower, items);
  }

  lemma KeysGrowByOne(lower: Casing, items: seq<Item>, item: Item)
    ensures KeysOf(lower, items + [item]) == KeysOf(lower, items) + {KeyOf(lower, item.fields)}
  {
    hide KeyOf;
    var more := items + [item];
    assert more[|items|] == item;
    forall key | key in KeysOf(lower, items)
      ensures key in KeysOf(lower, more)
    {
      var k :| 0 <= k < |items| && KeyOf(lower, items[k].fields) == key;
      assert more[k] == items[k];
    }
  }

  // ---------------------------------------------------------------------------
  // Nothing lost, nothing twice
  // ---------------------------------------------------------------------------

  lemma {:induction false} EveryItemCounted(lower: Casing, items: seq<Item>, stored: set<string>)
    ensures |Chosen(lower, items, stored)| + Repeats(lower, items) + Known(lower, items, stored) == |items|
  {
    if items == [] {
    } else {
      EveryItemCounted(lower, items[..|items| - 1], stored);
    }
  }

  lemma {:induction false} ChosenAreItems(lower: Casing, items: seq<Item>, stored: set<string>)
    ensures forall c :: 0 <= c < |Chosen(lower, items, stored)| ==>
              exists k :: 0 <= k < |items| && items[k].fields == Chosen(lower, items, stored)[c]
  {
    if items == [] {
      assert Chosen(lower, items, stored) == [];
    } else {
      var n := |items| - 1;
      var earlier, all := Chosen(lower, items[..n], stored), Chosen(lower, items, stored);
      ChosenAreItems(lower, items[..n], stored);
      forall c | 0 <= c < |all|
        ensures exists k :: 0 <= k < |items| && items[k].fields == all[c]
      {
        if c < |earlier| {
          var k :| 0 <= k < n && items[..n][k].fields == earlier[c];
          assert items[k].fields == all[c];
        } else {
          assert items[n].fields == all[c];
        }
      }
    }
  }

  lemma {:induction false} ChosenAreNew(lower: Casing, items: seq<Item>, stored: set<string>)
    ensures forall c :: 0 <= c < |Chosen(lower, items, stored)| ==>
              KeyOf(lower, Chosen(lower, items, stored)[c]) !in stored
    ensures forall c, d :: 0 <= c < d < |Chosen(lower, items, stored)| ==>
              KeyOf(lower, Chosen(lower, items, stored)[c]) != KeyOf(lower, Chosen(lower, items, stored)[d])
  {
    if items == [] {
    } else {
      var n := |items| - 1;
      var earlier := Chosen(lower, items[..n], stored);
      ChosenAreNew(lower, items[..n], stored);
      ChosenAreItems(lower, items[..n], stored);
      forall c | 0 <= c < |earlier|
        ensures exists k :: 0 <= k < n && items[k].fields == earlier[c]
      {
        var k :| 0 <= k < n && items[..n][k].fields == earlier[c];
        assert items[k].fields == earlier[c];
      }
    }
  }

  lemma ImportKeepsDistinct(lower: Casing, rows: seq<Row>, product: nat, items: seq<Item>)
    requires Distinct(lower, rows)
    ensures Distinct(lower, Imported(lower, rows, product, items))
  {
    var stored := Stored(lower, rows, product);
    var after := Imported(lower, rows, product, items);
    ChosenAreNew(lower, items, stored);
    forall i, j | 0 <= i < j < |after| && after[i].product == after[j].product
      ensures KeyOf(lower, after[i].fields) != KeyOf(lower, after[j].fields)
    {
      if i < |rows| <= j {
        assert KeyOf(lower, rows[i].fields) in stored;
      }
    }
  }

  /** Of each e-mail not stored before, exactly the first item is stored. */
  lemma {:induction false} FirstIsStored(lower: Casing, items: seq<Item>, stored: set<string>, k: nat)
    requires k < |items| && FirstOfKey(lower, items, k)
    ensures items[k].fields in Chosen(lower, items, stored) <==> KeyOf(lower, items[k].fields) !in stored
  {
    ChosenAreNew(lower, items, stored);
    if KeyOf(lower, items[k].fields) !in stored {
      var n := |items| - 1;
      if k == n {
      } else {
        assert forall j :: 0 <= j < n ==> items[..n][j] == items[j];
        FirstIsStored(lower, items[..n], stored, k);
      }
    }
  }

  /** Every parsed e-mail is in the pool afterwards. */
  lemma {:induction false} EveryKeyIsStored(lower: Casing, rows: seq<Row>, product: nat, items: seq<Item>, k: nat)
    requires k < |items|
    ensures KeyOf(lower, items[k].fields) in Stored(lower, Imported(lower, rows, product, items), product)
    decreases k
  {
    var stored := Stored(lower, rows, product);
    var after := Imported(lower, rows, product, items);
    if !FirstOfKey(lower, items, k) {
      var j :| 0 <= j < k && KeyOf(lower, items[j].fields) == KeyOf(lower, items[k].fields);
      EveryKeyIsStored(lower, rows, product, items, j);
    } else if KeyOf(lower, items[k].fields) in stored {
      var i :| 0 <= i < |rows| && rows[i].product == product
               && KeyOf(lower, rows[i].fields) == KeyOf(lower, items[k].fields);
      assert after[i] == rows[i];
    } else {
      FirstIsStored(lower, items, stored, k);
      var c :| 0 <= c < |Chosen(lower, items, stored)| && Chosen(lower, items, stored)[c] == items[k].fields;
      assert after[|rows| + c] == Row(product, items[k].fields);
    }
  }

  /** Pasting the same text again stores nothing. */
  lemma SecondImportIsIdle(lower: Casing, rows: seq<Row>, product: nat, items: seq<Item>)
    ensures var after := Imported(lower, rows, product, items);
            Imported(lower, after, product, items) == after
  {
    var after := Imported(lower, rows, product, items);
    var again := Chosen(lower, items, Stored(lower, after, product));
    ChosenAreNew(lower, items, Stored(lower, after, product));
    ChosenAreItems(lower, items, Stored(lower, after, product));
    if again != [] {
      var k :| 0 <= k < |items| && items[k].fields == again[0];
      EveryKeyIsStored(lower, rows, product, items, k);
      assert false;
    }
  }

  lemma {:induction false} AllNewAllChosen(lower: Casing, fs: seq<Fields>)
    requires forall i, j :: 0 <= i < j < |fs| ==> KeyOf(lower, fs[i]) != KeyOf(lower, fs[j])
    ensures Chosen(lower, Numbered(fs), {}) == fs
  {
    if fs == [] {
    } else {
      var n := |fs| - 1;
      AllNewAllChosen(lower, fs[..n]);
      assert Numbered(fs)[..n] == Numbered(fs[..n]);
      assert fs == fs[..n] + [fs[n]];
    }
  }

  /** Printed licences with different e-mails, imported for a product that has none, arrive as they were. */
  lemma PrintedLicensesArrive(lower: Casing, rows: seq<Row>, product: nat, fs: seq<Fields>)
    requires Stored(lower, rows, product) == {}
    requires forall k :: 0 <= k < |fs| ==> Proper(fs[k])
    requires forall i, j :: 0 <= i < j < |fs| ==> KeyOf(lower, fs[i]) != KeyOf(lower, fs[j])
    ensures Imported(lower, rows, product, Parse(Print(fs)).items) == rows + RowsFor(product, fs)
  {
    BlockRoundTrip(fs);
    AllNewAllChosen(lower, fs);
  }
}
