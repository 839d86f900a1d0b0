/** The stock form (stock_management_ui.py): a three-step scan entry driven
    by one stripped text input per Enter press (product code, then location
    code, then quantity), a double-click cell editor, and the listing of
    every product in the code index. Widgets are replaced by the inputs they
    deliver; the save callback is recorded in a ghost log of what the
    products list held at each call. */
module StockManagement {
  import opened Values
  import opened Text
  import opened OrderedDict

  /** What the status label says. */
  datatype Status = Blank | CodeNotFound | InvalidQuantity | EntryRecorded | ChangesSaved

  /** The scan entry's progress: `current_input_step` and `current_stock_entry`. */
  datatype Scan = Scan(step: int, entry: map<string, Value>)

  /** The write a completed scan entry makes to the product with `code`. */
  datatype StockWrite = NoWrite | Write(code: Value, location: Value, quantity: real)

  /** The states the scan entry can be in, given the codes of `product_dict`:
      the entry holds exactly the answers of the steps already passed, and a
      selected code is always one of the index's. */
  ghost predicate ValidScan(s: Scan, codes: set<Value>)
  {
    && 0 <= s.step <= 2
    && (s.step == 0 ==> s.entry == map[])
    && (s.step == 1 ==> s.entry.Keys == {"Code"})
    && (s.step == 2 ==> s.entry.Keys == {"Code", "LocationCode"})
    && (s.step > 0 ==> s.entry["Code"] in codes)
  }

  /** One Enter press of `handle_entry` with the entry field holding
      `input`, as a transition: the next scan state, the write it makes and
      the status it shows. */
  function ScanStep(s: Scan, input: string, codes: set<Value>, parseFloat: string -> Option<real>)
    : (r: (Scan, StockWrite, Status))
    requires ValidScan(s, codes)
    ensures ValidScan(r.0, codes)
    // step 0: advance exactly when the stripped input is a known code
    ensures s.step == 0 ==> r.1 == NoWrite && (r.0.step == 1 <==> Str(Strip(input)) in codes)
    ensures s.step == 0 && r.0.step == 1 ==> r.0.entry == map["Code" := Str(Strip(input))]
    ensures s.step == 0 && Str(Strip(input)) !in codes ==> r.0 == s && r.2 == CodeNotFound
    // step 1: any input, even empty, becomes the location code
    ensures s.step == 1 ==> r.1 == NoWrite && r.0 == Scan(2, s.entry["LocationCode" := Str(Strip(input))])
    // step 2: a parsable quantity writes the pending entry and starts over
    ensures s.step == 2 ==> (r.1.Write? <==> parseFloat(Strip(input)).Some?)
    ensures r.1.Write? ==> r.1.code in codes
    ensures r.1.Write? ==>
      && r.1 == Write(s.entry["Code"], s.entry["LocationCode"], parseFloat(Strip(input)).value)
      && r.0 == Scan(0, map[]) && r.2 == EntryRecorded
    ensures s.step == 2 && r.1 == NoWrite ==> r.0 == s && r.2 == InvalidQuantity
  {
    var u := Strip(input);
    if s.step == 0 then
      if Str(u) in codes then (Scan(1, s.entry["Code" := Str(u)]), NoWrite, Blank)
      else (s, NoWrite, CodeNotFound)
    else if s.step == 1 then
      (Scan(2, s.entry["LocationCode" := Str(u)]), NoWrite, Blank)
    else
      match parseFloat(u)
      case None => (s, NoWrite, InvalidQuantity)
      case Some(q) => (Scan(0, map[]), Write(s.entry["Code"], s.entry["LocationCode"], q), EntryRecorded)
  }

  /** A whole scan from the start: a known code, any location, a parsable
      quantity. Only the third input writes, it writes the stripped code and
      location with the parsed quantity, and the form is back at step 0. */
  lemma ScanSession(codes: set<Value>, code: string, location: string, quantity: string,
                    parseFloat: string -> Option<real>)
    requires Str(Strip(code)) in codes && parseFloat(Strip(quantity)).Some?
    ensures
      var r1 := ScanStep(Scan(0, map[]), code, codes, parseFloat);
      var r2 := ScanStep(r1.0, location, codes, parseFloat);
      var r3 := ScanStep(r2.0, quantity, codes, parseFloat);
      && r1.1 == NoWrite && r2.1 == NoWrite
      && r3.1 == Write(Str(Strip(code)), Str(Strip(location)), parseFloat(Strip(quantity)).value)
      && r3.0 == Scan(0, map[])
  {
  }

  /** One row of the stock listing. */
  datatype StockRow = StockRow(code: Value, name: Value, location: Value, quantity: Value)

  /** The row `update_tree_view` shows for `code` and its product. */
  function ListingRow(code: Value, r: Record): StockRow
    reads r
  {
    StockRow(code, r.Get("Name", Str("")), r.Get("LocationCode", Str("")), r.Get("StockQuantity", Int(0)))
  }

  /** The rows shown for the keys `keys` of the index `m`, in key order. */
  ghost function Listing(keys: seq<Value>, m: map<Value, Record>): seq<StockRow>
    requires forall i :: 0 <= i < |keys| ==> keys[i] in m
    reads m.Values
  {
    if keys == [] then []
    else Listing(keys[..|keys| - 1], m) + [ListingRow(keys[|keys| - 1], m[keys[|keys| - 1]])]
  }

  /** The listing has exactly one row per key, in key order, each showing
      that key's product. */
  lemma {:induction false} ListingRows(keys: seq<Value>, m: map<Value, Record>)
    requires forall i :: 0 <= i < |keys| ==> keys[i] in m
    ensures |Listing(keys, m)| == |keys|
    ensures forall i :: 0 <= i < |keys| ==>
      Listing(keys, m)[i].code == keys[i] && Listing(keys, m)[i] == ListingRow(keys[i], m[keys[i]])
  {
    if keys != [] {
      ListingRows(keys[..|keys| - 1], m);
    }
  }

  /** The value a cell edit stores, or None when a Stock Quantity cell does
      not hold a number (`float(new_value)` raises ValueError). */
  function CellValue(column: int, text: string, parseFloat: string -> Option<real>): Option<Value>
  {
    if column == 3 then
      match parseFloat(text)
      case None => None
      case Some(x) => Some(Float(x))
    else Some(Str(text))
  }

  /** The product field behind each editable column of the listing. */
  function ColumnField(column: int): string
    requires 1 <= column <= 3
  {
    if column == 1 then "Name" else if column == 2 then "LocationCode" else "StockQuantity"
  }

  class StockManagerUI {
    /** The shared product list, which the save callback writes. */
    const products: seq<Record>
    /** `product_dict`: Code to product, over the same objects. */
    const productDict: Dict<Value, Record>
    var step: int
    var entry: map<string, Value>
    var status: Status
    /** The rows of the listing. */
    var rows: seq<StockRow>
    /** What the products list held at each call of the save callback. */
    ghost var saves: seq<seq<map<string, Value>>>

    ghost predicate Valid()
      reads this
    {
      && OrderedDict.Valid(productDict)
      && ValidScan(Scan(step, entry), productDict.m.Keys)
      && (forall c :: c in productDict.m ==> productDict.m[c] in products)
    }

    /** `StockManagerUI(products, product_dict, save_products)`: starts at
        step 0 with an empty entry and lists the index. */
    constructor (products: seq<Record>, productDict: Dict<Value, Record>)
      requires OrderedDict.Valid(productDict)
      requires forall c :: c in productDict.m ==> productDict.m[c] in products
      ensures Valid()
      ensures this.products == products && this.productDict == productDict
      ensures step == 0 && entry == map[] && status == Blank && saves == []
      ensures rows == Listing(productDict.keys, productDict.m)
    {
      this.products := products;
      this.productDict := productDict;
      step := 0;
      entry := map[];
      status := Blank;
      saves := [];
      new;
      UpdateTreeView();
    }

    /** `update_tree_view`: rebuild the listing from the index. */
    method UpdateTreeView()
      requires OrderedDict.Valid(productDict)
      modifies this`rows
      ensures rows == Listing(productDict.keys, productDict.m)
    {
      var built := [];
      var i := 0;
      while i < |productDict.keys|
        invariant 0 <= i <= |productDict.keys|
        invariant built == Listing(productDict.keys[..i], productDict.m)
      {
        var code := productDict.keys[i];
        assert productDict.keys[..i + 1][..i] == productDict.keys[..i];
        built := built + [ListingRow(code, productDict.m[code])];
        i := i + 1;
      }
      assert productDict.keys[..i] == productDict.keys;
      rows := built;
    }

    /** Call the save callback on the products list, then `update_tree_view`. */
    method SaveAndRelist()
      requires OrderedDict.Valid(productDict)
      modifies this`saves, this`rows
      ensures saves == old(saves) + [Snapshot(products)]
      ensures rows == Listing(productDict.keys, productDict.m)
    {
      saves := saves + [Snapshot(products)];
      UpdateTreeView();
    }

    /** `handle_entry`: one Enter press with the entry field holding `input`.
        The step, entry and status follow `ScanStep`; a write sets the
        selected product's location and quantity, touches no other product,
        saves once and relists; without a write nothing but the scan state
        and the status changes. */
    method HandleEntry(input: string, parseFloat: string -> Option<real>)
      requires Valid()
      modifies this, productDict.m.Values
      ensures Valid()
      ensures
        var (s, w, st) := ScanStep(old(Scan(step, entry)), input, productDict.m.Keys, parseFloat);
        && Scan(step, entry) == s && status == st
        && (w.NoWrite? ==>
              && (forall r :: r in products ==> r.fields == old(r.fields))
              && saves == old(saves) && rows == old(rows))
        && (w.Write? ==>
              && productDict.m[w.code].fields ==
                   old(productDict.m[w.code].fields)["LocationCode" := w.location]["StockQuantity" := Float(w.quantity)]
              && (forall r :: r in products && r != productDict.m[w.code] ==> r.fields == old(r.fields))
              && saves == old(saves) + [Snapshot(products)]
              && rows == Listing(productDict.keys, productDict.m))
    {
      var userInput := Strip(input);
      if step == 0 {
        if Str(userInput) in productDict.m {
          entry := entry["Code" := Str(userInput)];
          step := step + 1;
          status := Blank;
        } else {
          status := CodeNotFound;
        }
      } else if step == 1 {
        entry := entry["LocationCode" := Str(userInput)];
        step := step + 1;
        status := Blank;
      } else if step == 2 {
        match parseFloat(userInput)
        case None =>
          status := InvalidQuantity;
        case Some(quantity) =>
          RecordEntry(quantity);
      }
    }

    /** The third step with a parsed quantity: the product selected in step
        0 gets the location and quantity, the entry starts over, and the
        callback saves and the listing is rebuilt. */
    method RecordEntry(quantity: real)
      requires Valid() && step == 2
      modifies this, productDict.m.Values
      ensures Valid() && step == 0 && entry == map[] && status == EntryRecorded
      ensures productDict.m[old(entry)["Code"]].fields ==
        old(productDict.m[entry["Code"]].fields)["LocationCode" := old(entry)["LocationCode"]]["StockQuantity" := Float(quantity)]
      ensures forall r :: r in products && r != productDict.m[old(entry)["Code"]] ==> r.fields == old(r.fields)
      ensures saves == old(saves) + [Snapshot(products)]
      ensures rows == Listing(productDict.keys, productDict.m)
    {
      entry := entry["StockQuantity" := Float(quantity)];
      var product := productDict.m[entry["Code"]];
      product.fields := product.fields["LocationCode" := entry["LocationCode"]];
      product.fields := product.fields["StockQuantity" := entry["StockQuantity"]];
      status := EntryRecorded;
      step := 0;
      entry := map[];
      SaveAndRelist();
    }

    /** `save_changes` of the cell editor opened on column `column` of the
        row whose cells are `cells`, with `newText` typed. A Stock Quantity
        that is not a number changes nothing. Otherwise the edited row's code
        (the new text itself when column 0 was edited) selects the product:
        columns 1, 2 and 3 overwrite its Name, LocationCode or StockQuantity,
        a column-0 edit or an unknown code changes no product, and the
        callback saves and the listing is rebuilt in every case. */
    method SaveChanges(cells: seq<Value>, column: int, newText: string, parseFloat: string -> Option<real>)
      requires Valid() && |cells| == 4 && 0 <= column <= 3
      modifies this, productDict.m.Values
      ensures Valid() && step == old(step) && entry == old(entry)
      ensures CellValue(column, newText, parseFloat).None? ==>
        && status == InvalidQuantity
        && (forall r :: r in products ==> r.fields == old(r.fields))
        && saves == old(saves) && rows == old(rows)
      ensures CellValue(column, newText, parseFloat).Some? ==>
        var v := CellValue(column, newText, parseFloat).value;
        var code := cells[column := v][0];
        && status == ChangesSaved
        && (column != 0 && code in productDict.m ==>
              && productDict.m[code].fields == old(productDict.m[code].fields)[ColumnField(column) := v]
              && (forall r :: r in products && r != productDict.m[code] ==> r.fields == old(r.fields)))
        && (column == 0 || code !in productDict.m ==>
              forall r :: r in products ==> r.fields == old(r.fields))
        && saves == old(saves) + [Snapshot(products)]
        && rows == Listing(productDict.keys, productDict.m)
    {
      var newValue: Value;
      if column == 3 {
        match parseFloat(newText)
        case None =>
          status := InvalidQuantity;
          return;
        case Some(x) =>
          newValue := Float(x);
      } else {
        newValue := Str(newText);
      }
      var values := cells[column := newValue];
      var productCode := values[0];
      if productCode in productDict.m && column != 0 {
        // columns 1, 2 and 3 are Name, LocationCode and StockQuantity
        var product := productDict.m[productCode];
        product.fields := product.fields[ColumnField(column) := newValue];
      }
      status := ChangesSaved;
      SaveAndRelist();
    }
  }
}
