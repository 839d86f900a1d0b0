/** The product form (product_management_ui.py): a four-step registration
    wizard (name, cost, link, quantity) that appends a new product with a
    fresh seven-digit code, and the catalog operations beside it: search by
    name, delete the selected rows, edit one cell, clear the catalog after a
    typed confirmation, and the column-width rule of a header double-click.
    Widgets are replaced by the inputs they deliver. The save callback takes
    no arguments, so only the number of calls is recorded; the export that
    a delete writes to `products.csv` (a fixed path, not the file the main
    menu loads) is recorded as what the list held. */
module ProductManagement {
  import opened Values
  import opened Text
  import opened OrderedDict

  /** The columns of the listing, in display order; a registered product has
      exactly these fields. */
  const Columns: seq<string> :=
    ["Name", "Cost", "Link", "Quantity", "Code", "LocationCode", "StockQuantity", "AddedDate"]

  /** The error messages of the status label. */
  datatype Message = NameEmpty | CostInvalid | LinkEmpty | QuantityInvalid | ClearCancelled

  /* ---------------- product codes ---------------- */

  /** The bounds of `random.randint(1000000, 9999999)`. */
  const LowestCode: int := 1000000
  const HighestCode: int := 9999999

  /** Every product of `rs` has a `Code`, so `product['Code']` does not raise. */
  predicate AllCoded(rs: seq<Record>)
    reads set r | r in rs
  {
    forall r :: r in rs ==> "Code" in r.fields
  }

  /** The codes the products of `rs` carry. */
  function Taken(rs: seq<Record>): (codes: set<Value>)
    reads set r | r in rs
    ensures forall r :: r in rs && "Code" in r.fields ==> r.fields["Code"] in codes
  {
    set r | r in rs && "Code" in r.fields :: r.fields["Code"]
  }

  /** The taken codes are exactly the codes some product carries. */
  lemma TakenCodes(rs: seq<Record>)
    ensures forall c :: c in Taken(rs) <==> exists r :: r in rs && "Code" in r.fields && r.fields["Code"] == c
  {
  }

  /** A drawn number is unused exactly when the test of
      `generate_unique_code` accepts it: no product's code equals its text. */
  lemma UnusedIsAll(rs: seq<Record>, n: int)
    requires AllCoded(rs)
    ensures Unused(n, Taken(rs)) <==> forall r :: r in rs ==> r.fields["Code"] != Str(IntToDecimal(n))
  {
    TakenCodes(rs);
  }

  /** Every number drawn lies in the range `randint` draws from. */
  predicate InCodeRange(draws: seq<int>)
  {
    forall i :: 0 <= i < |draws| ==> LowestCode <= draws[i] <= HighestCode
  }

  /** `str(n)` is a code that no product carries yet. */
  predicate Unused(n: int, taken: set<Value>)
  {
    Str(IntToDecimal(n)) !in taken
  }

  /** The random stream eventually yields an unused code, so the retry loop
      ends. */
  predicate SomeUnused(draws: seq<int>, taken: set<Value>)
  {
    exists i :: 0 <= i < |draws| && Unused(draws[i], taken)
  }

  /** The position of the first unused code in the random stream. */
  function FirstUnused(draws: seq<int>, taken: set<Value>): (k: nat)
    requires SomeUnused(draws, taken)
    ensures k < |draws| && Unused(draws[k], taken)
    ensures forall j :: 0 <= j < k ==> !Unused(draws[j], taken)
  {
    if Unused(draws[0], taken) then 0
    else
      UnusedInTail(draws, taken);
      1 + FirstUnused(draws[1..], taken)
  }

  lemma UnusedInTail(draws: seq<int>, taken: set<Value>)
    requires SomeUnused(draws, taken) && !Unused(draws[0], taken)
    ensures SomeUnused(draws[1..], taken)
  {
    var i :| 0 <= i < |draws| && Unused(draws[i], taken);
    assert draws[1..][i - 1] == draws[i];
  }

  /** Every number `randint` draws is written with seven digits. */
  lemma SevenDigits(n: int)
    requires LowestCode <= n <= HighestCode
    ensures |IntToDecimal(n)| == 7 && AllDigits(IntToDecimal(n)) && IntToDecimal(n)[0] != '0'
  {
    assert Power10(1) == 10;
    assert Power10(2) == 100;
    assert Power10(3) == 1000;
    assert Power10(4) == 10000;
    assert Power10(5) == 100000;
    assert Power10(6) == 1000000;
    DecimalLength(n, 6);
  }

  /** The code `generate_unique_code` returns for the random stream
      `draws`: the text of the first draw no product carries. It has seven
      digits and is not taken. */
  function UniqueCode(draws: seq<int>, taken: set<Value>): (code: string)
    requires InCodeRange(draws) && SomeUnused(draws, taken)
    ensures |code| == 7 && AllDigits(code) && code[0] != '0'
    ensures Str(code) !in taken
  {
    var n := draws[FirstUnused(draws, taken)];
    SevenDigits(n);
    IntToDecimal(n)
  }

  /** The code is the text of a number drawn, every earlier draw was a code
      already taken, and reading the code back gives that number. */
  lemma UniqueCodeDrawn(draws: seq<int>, taken: set<Value>)
    requires InCodeRange(draws) && SomeUnused(draws, taken)
    ensures exists k :: 0 <= k < |draws| && DecimalValue(UniqueCode(draws, taken)) == draws[k] &&
                        (forall j :: 0 <= j < k ==> Str(IntToDecimal(draws[j])) in taken)
  {
    var k := FirstUnused(draws, taken);
    DecimalRoundTrip(draws[k]);
  }

  /* ---------------- the registration wizard ---------------- */

  /** The wizard's progress: `current_input_step` and the fields of
      `current_product`. */
  datatype Wizard = Wizard(step: int, pending: map<string, Value>)

  /** The fields `current_product` holds when the wizard is at `step`. */
  function PendingKeys(step: int): set<string>
  {
    if step <= 0 then {}
    else if step == 1 then {"Name"}
    else if step == 2 then {"Name", "Cost"}
    else {"Name", "Cost", "Link"}
  }

  ghost predicate ValidWizard(w: Wizard)
  {
    0 <= w.step <= 3 && w.pending.Keys == PendingKeys(w.step)
  }

  /** The product the fourth step appends: the three answers plus the
      quantity's text, the new code, an empty location, stock "0" and the
      date. */
  function Completed(pending: map<string, Value>, quantity: int, code: string, today: string): map<string, Value>
  {
    pending["Quantity" := Str(IntToDecimal(quantity))]
           ["Code" := Str(code)]
           ["LocationCode" := Str("")]
           ["StockQuantity" := Str("0")]
           ["AddedDate" := Str(today)]
  }

  /** One Enter press of `handle_entry` with the entry field holding
      `input`, as a transition: the next wizard state, the product it
      completes (if any) and the error it shows (if any). The code of a
      completed product is drawn from `draws` against the codes `taken`;
      `today` is the date `datetime.now()` gives. `WizardRejects`,
      `WizardAdvances` and `WizardCompletes` state what it does. */
  function WizardStep(w: Wizard, input: string, py: Parsers, draws: seq<int>, taken: set<Value>, today: string)
    : (Wizard, Option<map<string, Value>>, Option<Message>)
    requires ValidWizard(w)
    requires w.step == 3 && py.parseInt(Strip(input)).Some? ==> InCodeRange(draws) && SomeUnused(draws, taken)
  {
    var u := Strip(input);
    if w.step == 0 then
      if u != [] then (Wizard(1, w.pending["Name" := Str(u)]), None, None)
      else (w, None, Some(NameEmpty))
    else if w.step == 1 then
      match py.parseFloat(u)
      case None => (w, None, Some(CostInvalid))
      case Some(cost) => (Wizard(2, w.pending["Cost" := Str(py.formatCost(cost))]), None, None)
    else if w.step == 2 then
      if u != [] then (Wizard(3, w.pending["Link" := Str(u)]), None, None)
      else (w, None, Some(LinkEmpty))
    else
      match py.parseInt(u)
      case None => (w, None, Some(QuantityInvalid))
      case Some(quantity) =>
        (Wizard(0, map[]), Some(Completed(w.pending, quantity, UniqueCode(draws, taken), today)), None)
  }

  /** A rejected input leaves the wizard as it was and completes nothing;
      each step rejects exactly a blank name, an unparsable cost, a blank
      link or an unparsable quantity. */
  lemma WizardRejects(w: Wizard, input: string, py: Parsers, draws: seq<int>, taken: set<Value>, today: string)
    requires ValidWizard(w)
    requires w.step == 3 && py.parseInt(Strip(input)).Some? ==> InCodeRange(draws) && SomeUnused(draws, taken)
    ensures
      var r := WizardStep(w, input, py, draws, taken, today);
      && (r.2.Some? ==> r.0 == w && r.1 == None)
      && (w.step == 0 ==> (r.2 == Some(NameEmpty) <==> Strip(input) == []))
      && (w.step == 1 ==> (r.2 == Some(CostInvalid) <==> py.parseFloat(Strip(input)).None?))
      && (w.step == 2 ==> (r.2 == Some(LinkEmpty) <==> Strip(input) == []))
      && (w.step == 3 ==> (r.2 == Some(QuantityInvalid) <==> py.parseInt(Strip(input)).None?))
  {
  }

  /** An accepted input moves the wizard exactly one step on (from the
      fourth back to the first) and keeps it valid; each of the first three
      steps records its stripped or formatted answer. */
  lemma WizardAdvances(w: Wizard, input: string, py: Parsers, draws: seq<int>, taken: set<Value>, today: string)
    requires ValidWizard(w)
    requires w.step == 3 && py.parseInt(Strip(input)).Some? ==> InCodeRange(draws) && SomeUnused(draws, taken)
    ensures
      var r := WizardStep(w, input, py, draws, taken, today);
      && ValidWizard(r.0)
      && (r.2.None? ==> r.0.step == (w.step + 1) % 4)
      && (w.step == 0 && r.2.None? ==> r.0.pending == map["Name" := Str(Strip(input))])
      && (w.step == 1 && r.2.None? ==>
            r.0.pending == w.pending["Cost" := Str(py.formatCost(py.parseFloat(Strip(input)).value))])
      && (w.step == 2 && r.2.None? ==> r.0.pending == w.pending["Link" := Str(Strip(input))])
  {
  }

  /** A completed product keeps the three answers and adds exactly the
      quantity's text, the code, an empty location, stock "0" and the date. */
  lemma CompletedFields(pending: map<string, Value>, quantity: int, code: string, today: string)
    requires pending.Keys == PendingKeys(3)
    ensures
      var p := Completed(pending, quantity, code, today);
      && p.Keys == {"Name", "Cost", "Link", "Quantity", "Code", "LocationCode", "StockQuantity", "AddedDate"}
      && (forall f :: f in pending ==> f in p && p[f] == pending[f])
      && p["Quantity"] == Str(IntToDecimal(quantity)) && p["Code"] == Str(code)
      && p["LocationCode"] == Str("") && p["StockQuantity"] == Str("0")
      && p["AddedDate"] == Str(today)
  {
  }

  /** Only an accepted fourth step completes a product. The product has
      exactly the listing's columns: the three answers, the quantity's text,
      an unused seven-digit code, an empty location, stock "0" and the date;
      and the form starts over. */
  lemma WizardCompletes(w: Wizard, input: string, py: Parsers, draws: seq<int>, taken: set<Value>, today: string)
    requires ValidWizard(w)
    requires w.step == 3 && py.parseInt(Strip(input)).Some? ==> InCodeRange(draws) && SomeUnused(draws, taken)
    ensures
      var r := WizardStep(w, input, py, draws, taken, today);
      && (r.1.Some? <==> w.step == 3 && r.2.None?)
      && (r.1.Some? ==>
            var p := r.1.value;
            && r.0 == Wizard(0, map[])
            && p.Keys == {"Name", "Cost", "Link", "Quantity", "Code", "LocationCode", "StockQuantity", "AddedDate"}
            && (forall f :: f in w.pending ==> f in p && p[f] == w.pending[f])
            && p["Quantity"] == Str(IntToDecimal(py.parseInt(Strip(input)).value))
            && p["Code"] == Str(UniqueCode(draws, taken)) && p["Code"] !in taken
            && |p["Code"].s| == 7 && AllDigits(p["Code"].s)
            && p["LocationCode"] == Str("") && p["StockQuantity"] == Str("0")
            && p["AddedDate"] == Str(today))
  {
    if w.step == 3 && py.parseInt(Strip(input)).Some? {
      var quantity, code := py.parseInt(Strip(input)).value, UniqueCode(draws, taken);
      assert WizardStep(w, input, py, draws, taken, today)
          == (Wizard(0, map[]), Some(Completed(w.pending, quantity, code, today)), None);
      CompletedFields(w.pending, quantity, code, today);
    }
  }

  /** A whole registration from an empty form: a name and a link that are
      not blank, a cost and a quantity that parse. The fourth input
      completes a product holding exactly the stripped name and link, the
      formatted cost and the quantity's text, and the first three complete
      nothing. */
  lemma Registration(name: string, cost: string, link: string, quantity: string, py: Parsers,
                     draws: seq<int>, taken: set<Value>, today: string)
    requires Strip(name) != [] && Strip(link) != []
    requires py.parseFloat(Strip(cost)).Some? && py.parseInt(Strip(quantity)).Some?
    requires InCodeRange(draws) && SomeUnused(draws, taken)
    ensures
      var r1 := WizardStep(Wizard(0, map[]), name, py, draws, taken, today);
      var r2 := WizardStep(r1.0, cost, py, draws, taken, today);
      var r3 := WizardStep(r2.0, link, py, draws, taken, today);
      var r4 := WizardStep(r3.0, quantity, py, draws, taken, today);
      && r1.1 == None && r2.1 == None && r3.1 == None && r4.1.Some?
      && r4.1.value["Name"] == Str(Strip(name))
      && r4.1.value["Cost"] == Str(py.formatCost(py.parseFloat(Strip(cost)).value))
      && r4.1.value["Link"] == Str(Strip(link))
      && r4.1.value["Quantity"] == Str(IntToDecimal(py.parseInt(Strip(quantity)).value))
      && r4.0 == Wizard(0, map[])
  {
    var p1 := map["Name" := Str(Strip(name))];
    var p2 := p1["Cost" := Str(py.formatCost(py.parseFloat(Strip(cost)).value))];
    var p3 := p2["Link" := Str(Strip(link))];
    assert p1.Keys == PendingKeys(1) && p2.Keys == PendingKeys(2) && p3.Keys == PendingKeys(3);
    var r1 := WizardStep(Wizard(0, map[]), name, py, draws, taken, today);
    assert r1 == (Wizard(1, p1), None, None);
    var r2 := WizardStep(r1.0, cost, py, draws, taken, today);
    assert r2 == (Wizard(2, p2), None, None);
    var r3 := WizardStep(r2.0, link, py, draws, taken, today);
    assert r3 == (Wizard(3, p3), None, None);
    var q, code := py.parseInt(Strip(quantity)).value, UniqueCode(draws, taken);
    var p4 := Completed(p3, q, code, today);
    assert WizardStep(r3.0, quantity, py, draws, taken, today) == (Wizard(0, map[]), Some(p4), None);
    CompletedFields(p3, q, code, today);
  }

  /* ---------------- listing, search and delete ---------------- */

  /** The row `refresh_tree` shows for a product. */
  function TreeRow(r: Record): seq<Value>
    reads r
  {
    [r.Get("Name", Str("")), r.Get("Cost", Str("")), r.Get("Link", Str("")), r.Get("Quantity", Str("")),
     r.Get("Code", Str("")), r.Get("LocationCode", Str("")), r.Get("StockQuantity", Str("")),
     r.Get("AddedDate", Str(""))]
  }

  /** A row has one cell per column: the product's field for that column,
      or the empty string when the product lacks it. */
  lemma TreeRowCells(r: Record)
    ensures |TreeRow(r)| == |Columns|
    ensures forall k :: 0 <= k < |Columns| ==>
      TreeRow(r)[k] == (if Columns[k] in r.fields then r.fields[Columns[k]] else Str(""))
  {
  }

  /** The rows shown for the products `rs`, in list order. */
  ghost function Table(rs: seq<Record>): seq<seq<Value>>
    reads set r | r in rs
  {
    if rs == [] then [] else [TreeRow(rs[0])] + Table(rs[1..])
  }

  /** One row per product, in list order, each that product's row. */
  lemma {:induction false} TableRows(rs: seq<Record>)
    ensures |Table(rs)| == |rs|
    ensures forall i :: 0 <= i < |rs| ==> Table(rs)[i] == TreeRow(rs[i])
  {
    if rs != [] {
      TableRows(rs[1..]);
    }
  }

  /** Listing one more product adds its row at the end. */
  lemma {:induction false} TableAppend(rs: seq<Record>, r: Record)
    ensures Table(rs + [r]) == Table(rs) + [TreeRow(r)]
  {
    if rs != [] {
      assert (rs + [r])[1..] == rs[1..] + [r];
      TableAppend(rs[1..], r);
    } else {
      assert rs + [r] == [r];
    }
  }

  /** Every product of `rs` has a text `Name`, so `product["Name"].lower()`
      does not raise. */
  predicate AllNamed(rs: seq<Record>)
    reads set r | r in rs
  {
    forall r :: r in rs ==> "Name" in r.fields && r.fields["Name"].Str?
  }

  /** `query in product["Name"].lower()` */
  predicate NameMatches(r: Record, query: string)
    requires "Name" in r.fields && r.fields["Name"].Str?
    reads r
  {
    Contains(Lower(r.fields["Name"].s), query)
  }

  /** The comprehension of `handle_search`: the products whose lowercased
      name contains `query`, in list order. */
  function SearchResults(rs: seq<Record>, query: string): (found: seq<Record>)
    requires AllNamed(rs)
    reads set r | r in rs
    ensures forall r :: r in found ==> r in rs && NameMatches(r, query)
    ensures forall i :: 0 <= i < |rs| && NameMatches(rs[i], query) ==> rs[i] in found
    ensures Subsequence(found, rs)
  {
    if rs == [] then []
    else
      assert AllNamed(rs[1..]) by {
        forall r | r in rs[1..] ensures r in rs { assert r == rs[1..][FirstIndex(rs[1..], r)]; }
      }
      var rest := SearchResults(rs[1..], query);
      if NameMatches(rs[0], query) then
        assert ([rs[0]] + rest)[1..] == rest;
        [rs[0]] + rest
      else rest
  }

  /** The search keeps every occurrence of a matching product and none of
      any other: each product occurs in the result as often as in the list
      when its name matches, and not at all otherwise. */
  lemma {:induction false} SearchResultsCount(rs: seq<Record>, query: string, x: Record)
    requires AllNamed(rs) && x in rs
    ensures multiset(SearchResults(rs, query))[x] == (if NameMatches(x, query) then multiset(rs)[x] else 0)
  {
    assert rs == [rs[0]] + rs[1..];
    assert multiset(rs) == multiset{rs[0]} + multiset(rs[1..]);
    assert AllNamed(rs[1..]) by {
      forall r | r in rs[1..] ensures r in rs { assert r == rs[1..][FirstIndex(rs[1..], r)]; }
    }
    var rest := SearchResults(rs[1..], query);
    if x in rs[1..] {
      SearchResultsCount(rs[1..], query, x);
    } else {
      assert x !in rest;
    }
    if NameMatches(rs[0], query) {
      assert SearchResults(rs, query) == [rs[0]] + rest;
      assert multiset([rs[0]] + rest) == multiset{rs[0]} + multiset(rest);
    }
  }

  /** The codes of the selected rows: column 4 of every row with at least
      five values, in selection order. */
  function SelectedCodes(selection: seq<seq<Value>>): (codes: seq<Value>)
    ensures forall c :: c in codes <==>
      exists i :: 0 <= i < |selection| && |selection[i]| >= 5 && selection[i][4] == c
  {
    if selection == [] then []
    else
      var rest := SelectedCodes(selection[1..]);
      assert forall i :: 1 <= i < |selection| ==> selection[i] == selection[1..][i - 1];
      if |selection[0]| >= 5 then [selection[0][4]] + rest else rest
  }

  /** The comprehension of `delete_selected_entries`: the products whose
      code is not among `codes`, in list order. */
  function Kept(rs: seq<Record>, codes: seq<Value>): (kept: seq<Record>)
    requires AllCoded(rs)
    reads set r | r in rs
    ensures forall r :: r in kept ==> r in rs && r.fields["Code"] !in codes
    ensures forall i :: 0 <= i < |rs| && rs[i].fields["Code"] !in codes ==> rs[i] in kept
    ensures Subsequence(kept, rs)
  {
    if rs == [] then []
    else
      assert AllCoded(rs[1..]) by {
        forall r | r in rs[1..] ensures r in rs { assert r == rs[1..][FirstIndex(rs[1..], r)]; }
      }
      var rest := Kept(rs[1..], codes);
      if rs[0].fields["Code"] !in codes then
        assert ([rs[0]] + rest)[1..] == rest;
        [rs[0]] + rest
      else rest
  }

  /** Deletion keeps every occurrence of a product whose code was not
      selected and none of the others. */
  lemma {:induction false} KeptCount(rs: seq<Record>, codes: seq<Value>, x: Record)
    requires AllCoded(rs) && x in rs
    ensures multiset(Kept(rs, codes))[x] == (if x.fields["Code"] !in codes then multiset(rs)[x] else 0)
  {
    assert rs == [rs[0]] + rs[1..];
    assert multiset(rs) == multiset{rs[0]} + multiset(rs[1..]);
    assert AllCoded(rs[1..]) by {
      forall r | r in rs[1..] ensures r in rs { assert r == rs[1..][FirstIndex(rs[1..], r)]; }
    }
    var rest := Kept(rs[1..], codes);
    if x in rs[1..] {
      KeptCount(rs[1..], codes, x);
    } else {
      assert x !in rest;
    }
    if rs[0].fields["Code"] !in codes {
      assert Kept(rs, codes) == [rs[0]] + rest;
      assert multiset([rs[0]] + rest) == multiset{rs[0]} + multiset(rest);
    }
  }

  /* ---------------- cell edits ---------------- */

  /** The position of the first product of `rs` whose code is `code`: the
      one the loop of `update_product` stops at. */
  function FirstWithCode(rs: seq<Record>, code: Value): (k: Option<nat>)
    requires AllCoded(rs)
    reads set r | r in rs
    ensures k.Some? ==> k.value < |rs| && rs[k.value].fields["Code"] == code
    ensures k.Some? ==> forall j :: 0 <= j < k.value ==> rs[j].fields["Code"] != code
    ensures k.None? ==> forall j :: 0 <= j < |rs| ==> rs[j].fields["Code"] != code
  {
    if rs == [] then None
    else if rs[0].fields["Code"] == code then Some(0)
    else
      assert AllCoded(rs[1..]) by {
        forall r | r in rs[1..] ensures r in rs { assert r == rs[1..][FirstIndex(rs[1..], r)]; }
      }
      match FirstWithCode(rs[1..], code)
      case None => None
      case Some(k) => Some(k + 1)
  }

  /** Between the two states, the product at `target` (when there is one)
      had `key` set to `v`, and every other product of `rs` kept its
      fields. */
  twostate predicate WroteField(rs: seq<Record>, target: Option<nat>, key: string, v: Value)
    reads set r | r in rs
  {
    match target
    case None => forall r :: r in rs ==> r.fields == old(r.fields)
    case Some(t) =>
      && t < |rs|
      && rs[t].fields == old(rs[t].fields)[key := v]
      && forall r :: r in rs && r != rs[t] ==> r.fields == old(r.fields)
  }

  /* ---------------- column width ---------------- */

  /** The length of the longest text among `cells`. */
  function MaxLength(cells: seq<string>): (m: nat)
    requires |cells| > 0
    ensures forall i :: 0 <= i < |cells| ==> |cells[i]| <= m
    ensures exists i :: 0 <= i < |cells| && |cells[i]| == m
  {
    if |cells| == 1 then |cells[0]|
    else
      var m := MaxLength(cells[1..]);
      assert forall i :: 1 <= i < |cells| ==> cells[i] == cells[1..][i - 1];
      if |cells[0]| >= m then |cells[0]| else m
  }

  /** `adjust_column_width_on_double_click` for the column `column` whose
      rows show the texts `cells`: ten pixels per character of the longest
      cell or of the header, whichever is longer. With no rows `max` raises,
      so there is at least one. */
  function ColumnWidth(cells: seq<string>, column: int): (width: nat)
    requires |cells| > 0 && 0 <= column < |Columns|
    ensures width % 10 == 0
    ensures width >= 10 * |Columns[column]|
    ensures forall i :: 0 <= i < |cells| ==> width >= 10 * |cells[i]|
    ensures width == 10 * |Columns[column]| || exists i :: 0 <= i < |cells| && width == 10 * |cells[i]|
  {
    var longest := MaxLength(cells);
    var header := |Columns[column]|;
    10 * (if longest >= header then longest else header)
  }

  /* ---------------- the form ---------------- */

  class ProductManagerUI {
    /** The product list; it may be the caller's own list object. */
    var products: PyList
    /** `filtered_products`: what the listing shows; the same list object as
        `products` until a search or a delete replaces it. */
    var filtered: PyList
    var step: int
    /** `current_product`: the dict the wizard fills in. */
    var current: Record
    /** The status label's error, None while it is empty. */
    var status: Option<Message>
    /** The rows of the listing. */
    var rows: seq<seq<Value>>
    /** How often the save callback was called. */
    ghost var saveCalls: nat
    /** What the products list held at each write of `products.csv` by
        `update_csv_file`. */
    ghost var exports: seq<seq<map<string, Value>>>

    ghost predicate Valid()
      reads this`step, this`current, this`products, this`filtered, products, filtered, current
    {
      && ValidWizard(Wizard(step, current.fields))
      && current !in products.items
      && (forall r :: r in filtered.items ==> r in products.items)
    }

    /** `ProductManagerUI(products, save_products)`: an empty wizard, the
        whole list shown. */
    constructor (products: PyList)
      ensures Valid()
      ensures this.products == products && filtered == products
      ensures step == 0 && current.fields == map[] && status == None
      ensures saveCalls == 0 && exports == []
      ensures rows == Table(products.items)
    {
      this.products := products;
      filtered := products;
      step := 0;
      current := new Record(map[]);
      status := None;
      saveCalls := 0;
      exports := [];
      new;
      RefreshTree();
    }

    /** `refresh_tree`: rebuild the listing from the filtered list. */
    method RefreshTree()
      modifies this`rows
      ensures rows == Table(filtered.items)
    {
      var built := [];
      var i := 0;
      while i < |filtered.items|
        invariant 0 <= i <= |filtered.items|
        invariant built == Table(filtered.items[..i])
      {
        assert filtered.items[..i + 1] == filtered.items[..i] + [filtered.items[i]];
        TableAppend(filtered.items[..i], filtered.items[i]);
        built := built + [TreeRow(filtered.items[i])];
        i := i + 1;
      }
      assert filtered.items[..i] == filtered.items;
      rows := built;
    }

    /** `generate_unique_code`, with `draws` the numbers `randint` returns
        in turn: retries until a drawn code is carried by no product. */
    method GenerateUniqueCode(draws: seq<int>) returns (code: string)
      requires AllCoded(products.items)
      requires InCodeRange(draws) && SomeUnused(draws, Taken(products.items))
      ensures code == UniqueCode(draws, Taken(products.items))
      ensures |code| == 7 && AllDigits(code)
      ensures forall r :: r in products.items ==> r.fields["Code"] != Str(code)
    {
      var taken := Taken(products.items);
      ghost var k := FirstUnused(draws, taken);
      var i := 0;
      while Str(IntToDecimal(draws[i])) in taken
        invariant 0 <= i <= k
        decreases k - i
      {
        i := i + 1;
      }
      assert i == k by {
        assert Unused(draws[i], taken);
      }
      code := IntToDecimal(draws[i]);
      assert code == UniqueCode(draws, taken);
    }

    /** `handle_entry`: one Enter press with the entry field holding `input`,
        following `WizardStep`. A rejected input only sets the error. The
        fourth accepted input appends the filled-in dict itself to the
        product list, saves once, shows the whole list again and starts a
        new dict; no existing product changes. */
    method HandleEntry(input: string, py: Parsers, draws: seq<int>, today: string)
      requires Valid()
      requires step == 3 && py.parseInt(Strip(input)).Some? ==>
        AllCoded(products.items) && InCodeRange(draws) && SomeUnused(draws, Taken(products.items))
      modifies this, products, current
      ensures Valid()
      ensures forall r :: r in old(products.items) ==> r.fields == old(r.fields)
      ensures
        var (w, added, message) :=
          WizardStep(old(Wizard(step, current.fields)), input, py, draws, old(Taken(products.items)), today);
        && step == w.step
        && status == (if message.Some? then message else old(status))
        && products == old(products)
        && (added.None? ==>
              && current == old(current) && current.fields == w.pending
              && products.items == old(products.items) && filtered == old(filtered)
              && saveCalls == old(saveCalls) && rows == old(rows))
        && (added.Some? ==>
              && products.items == old(products.items) + [old(current)]
              && old(current).fields == added.value
              && fresh(current) && current.fields == map[]
              && filtered == products
              && saveCalls == old(saveCalls) + 1
              && rows == Table(products.items))
      ensures exports == old(exports)
    {
      if step < 3 {
        AnswerStep(input, py, draws, Taken(products.items), today);
      } else {
        match py.parseInt(Strip(input))
        case None =>
          status := Some(QuantityInvalid);
        case Some(quantity) =>
          AddProduct(quantity, draws, today);
          RefreshTree();
      }
    }

    /** The first three steps of `handle_entry`: record the stripped name,
        the formatted cost or the stripped link and move on, or show the
        step's error. The ghost parameters only name the `WizardStep`
        transition it follows; the first three steps do not use them. */
    method AnswerStep(input: string, py: Parsers, ghost draws: seq<int>, ghost taken: set<Value>, ghost today: string)
      requires Valid() && step < 3
      modifies this`step, this`status, current
      ensures Valid()
      ensures
        var (w, _, message) := WizardStep(old(Wizard(step, current.fields)), input, py, draws, taken, today);
        && step == w.step && current.fields == w.pending
        && status == (if message.Some? then message else old(status))
    {
      var userInput := Strip(input);
      if step == 0 {
        if userInput != [] {
          current.fields := current.fields["Name" := Str(userInput)];
          step := step + 1;
        } else {
          status := Some(NameEmpty);
        }
      } else if step == 1 {
        match py.parseFloat(userInput)
        case None =>
          status := Some(CostInvalid);
        case Some(cost) =>
          current.fields := current.fields["Cost" := Str(py.formatCost(cost))];
          step := step + 1;
      } else {
        if userInput != [] {
          current.fields := current.fields["Link" := Str(userInput)];
          step := step + 1;
        } else {
          status := Some(LinkEmpty);
        }
      }
    }

    /** The fourth step of `handle_entry` once the quantity parsed: fill in
        the dict, append it, save, make the whole list the shown one, start
        a new dict. */
    method AddProduct(quantity: int, draws: seq<int>, today: string)
      requires Valid() && step == 3
      requires AllCoded(products.items) && InCodeRange(draws) && SomeUnused(draws, Taken(products.items))
      modifies this, products, current
      ensures Valid()
      ensures products == old(products) && products.items == old(products.items) + [old(current)]
      ensures old(current).fields ==
        Completed(old(current.fields), quantity, UniqueCode(draws, old(Taken(products.items))), today)
      ensures fresh(current) && current.fields == map[] && step == 0
      ensures filtered == products && rows == old(rows)
      ensures saveCalls == old(saveCalls) + 1 && exports == old(exports) && status == old(status)
      ensures forall r :: r in old(products.items) ==> r.fields == old(r.fields)
    {
      // the five fields are set one after another; the dict reaches no one
      // before the append, so they are written at once
      var code := GenerateUniqueCode(draws);
      current.fields := Completed(current.fields, quantity, code, today);
      products.items := products.items + [current];
      saveCalls := saveCalls + 1;
      filtered := products;
      step := 0;
      current := new Record(map[]);
    }

    /** `handle_search` with the search field holding `query`: a query that
        is blank after stripping shows the whole list again (the list object
        itself); any other query shows a new list of the products whose
        lowercased name contains the lowercased query, in list order. */
    method HandleSearch(query: string)
      requires Valid()
      requires Lower(Strip(query)) != [] ==> AllNamed(products.items)
      modifies this`filtered, this`rows
      ensures Valid()
      ensures Lower(Strip(query)) == [] ==> filtered == products
      ensures Lower(Strip(query)) != [] ==>
        fresh(filtered) && filtered.items == SearchResults(products.items, Lower(Strip(query)))
      ensures rows == Table(filtered.items)
    {
      var searchQuery := Lower(Strip(query));
      if searchQuery != [] {
        filtered := new PyList(SearchResults(products.items, searchQuery));
      } else {
        filtered := products;
      }
      RefreshTree();
    }

    /** `delete_selected_entries` with the rows `selection` selected (each
        row given by its values). Nothing happens without a selection.
        Otherwise both lists are replaced by new lists without the products
        whose code was selected, the callback saves, `products.csv` is
        written from the new product list, and the listing is rebuilt. */
    method DeleteSelectedEntries(selection: seq<seq<Value>>)
      requires Valid()
      requires selection != [] ==> AllCoded(products.items)
      modifies this`products, this`filtered, this`rows, this`saveCalls, this`exports
      ensures Valid()
      ensures selection == [] ==>
        && products == old(products) && filtered == old(filtered) && rows == old(rows)
        && saveCalls == old(saveCalls) && exports == old(exports)
      ensures selection != [] ==>
        var codes := SelectedCodes(selection);
        && fresh(products) && products.items == old(Kept(products.items, codes))
        && fresh(filtered) && filtered.items == old(Kept(filtered.items, codes))
        && saveCalls == old(saveCalls) + 1
        && exports == old(exports) + [Snapshot(products.items)]
        && rows == Table(filtered.items)
    {
      if selection != [] {
        var codes := SelectedCodes(selection);
        assert AllCoded(filtered.items);
        var keptProducts := Kept(products.items, codes);
        var keptFiltered := Kept(filtered.items, codes);
        assert forall r :: r in keptFiltered ==> r in keptProducts;
        ReplaceLists(keptProducts, keptFiltered);
        SaveExportRelist();
      }
    }

    /** Point `products` and `filtered_products` at new lists holding
        `newProducts` and `newFiltered`. */
    method ReplaceLists(newProducts: seq<Record>, newFiltered: seq<Record>)
      requires Valid()
      requires current !in newProducts && forall r :: r in newFiltered ==> r in newProducts
      modifies this`products, this`filtered
      ensures Valid()
      ensures fresh(products) && products.items == newProducts
      ensures fresh(filtered) && filtered.items == newFiltered
    {
      products := new PyList(newProducts);
      filtered := new PyList(newFiltered);
    }

    /** The end of `delete_selected_entries`: save, write `products.csv`
        from the product list (`update_csv_file`), relist. */
    method SaveExportRelist()
      modifies this`saveCalls, this`exports, this`rows
      ensures saveCalls == old(saveCalls) + 1
      ensures exports == old(exports) + [Snapshot(products.items)]
      ensures rows == Table(filtered.items)
    {
      saveCalls := saveCalls + 1;
      exports := exports + [Snapshot(products.items)];
      RefreshTree();
    }

    /** `update_product` for the row whose code is `code`: the first product
        with that code gets the field of column `column` set to `newValue`,
        no other product changes, and the callback saves whether or not a
        product matched. */
    method UpdateProduct(code: Value, column: int, newValue: string)
      requires Valid() && AllCoded(products.items) && 0 <= column < |Columns|
      modifies set r | r in products.items, this`saveCalls
      ensures Valid() && AllCoded(products.items)
      ensures WroteField(products.items, old(FirstWithCode(products.items, code)), Columns[column], Str(newValue))
      ensures saveCalls == old(saveCalls) + 1
    {
      ghost var target := FirstWithCode(products.items, code);
      var i := 0;
      while i < |products.items|
        invariant 0 <= i <= |products.items|
        invariant forall j :: 0 <= j < i ==> products.items[j].fields["Code"] != code
      {
        var product := products.items[i];
        if product.fields["Code"] == code {
          assert target == Some(i);
          product.fields := product.fields[Columns[column] := Str(newValue)];
          break;
        }
        i := i + 1;
      }
      saveCalls := saveCalls + 1;
    }

    /** `save_edit` of the cell editor on column `column` of the row whose
        code is `code`, the cell having shown `shown` and now holding
        `newText`: the product is updated only when the text changed; the
        listing is rebuilt either way. */
    method SaveEdit(code: Value, column: int, shown: string, newText: string)
      requires Valid() && 0 <= column < |Columns|
      requires newText != shown ==> AllCoded(products.items)
      modifies set r | r in products.items, this`saveCalls, this`rows
      ensures Valid()
      ensures newText == shown ==> WroteField(products.items, None, Columns[column], Str(newText))
      ensures newText == shown ==> saveCalls == old(saveCalls)
      ensures newText != shown ==>
        && WroteField(products.items, old(FirstWithCode(products.items, code)), Columns[column], Str(newText))
        && saveCalls == old(saveCalls) + 1
      ensures rows == Table(filtered.items)
    {
      if newText != shown {
        UpdateProduct(code, column, newText);
      }
      RefreshTree();
    }

    /** `clear_database` with `answer` the text typed into the confirmation
        dialog (None when it was cancelled): only the exact answer `delete`
        empties the product list in place, shows it, saves and relists;
        anything else leaves the catalog alone and reports the
        cancellation. */
    method ClearDatabase(answer: Option<string>)
      requires Valid()
      modifies this`filtered, this`rows, this`saveCalls, this`status, products
      ensures Valid()
      ensures answer == Some("delete") ==>
        && products.items == [] && filtered == products
        && saveCalls == old(saveCalls) + 1 && rows == [] && status == old(status)
      ensures answer != Some("delete") ==>
        && products.items == old(products.items) && filtered == old(filtered)
        && saveCalls == old(saveCalls) && rows == old(rows) && status == Some(ClearCancelled)
    {
      if answer == Some("delete") {
        products.items := [];
        filtered := products;
        saveCalls := saveCalls + 1;
        RefreshTree();
      } else {
        status := Some(ClearCancelled);
      }
    }
  }
}
