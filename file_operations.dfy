/** Loading the product catalog into a list plus a code index, and saving
    it back with a bounded retry loop (file_operations.py). The file itself
    is abstract: loading sees what `csv.DictReader` produced or the exception
    reading raised; saving sees the outcome of each write attempt. */
module FileOperations {
  import opened Values
  import opened OrderedDict

  /** The outcome of reading an existing catalog file: every row as a map
      from column name to text, or the exception that reading raised. */
  datatype ReadResult =
    | Rows(rows: seq<map<string, string>>)
    | FileVanished
    | CsvError
    | DecodeError
    | OtherError(message: string)

  /** Whether the catalog file exists, and if so what reading it gives. */
  datatype CatalogFile = Absent | Present(read: ReadResult)

  /** The error dialogs `load_products` can show. */
  datatype LoadDialog =
    | NotFoundDialog
    | CorruptedDialog
    | EncodingDialog
    | UnexpectedDialog(message: string)

  /** A row read from the file, as the product dict it becomes. */
  function TextRow(row: map<string, string>): map<string, Value>
  {
    map k | k in row :: Str(row[k])
  }

  /** Every row has a `Code` column, so `product['Code']` does not raise. */
  predicate HasCodes(rows: seq<map<string, string>>)
  {
    forall i :: 0 <= i < |rows| ==> "Code" in rows[i]
  }

  /** The `Code` of each row, in file order. */
  function CodeColumn(rows: seq<map<string, string>>): (codes: seq<Value>)
    requires HasCodes(rows)
    ensures |codes| == |rows|
    ensures forall i :: 0 <= i < |rows| ==> codes[i] == Str(rows[i]["Code"])
  {
    seq(|rows|, i requires 0 <= i < |rows| && HasCodes(rows) => Str(rows[i]["Code"]))
  }

  /** `load_products(file_path)`: the list of products and the dict from
      Code to product. The dict's values are the list's own objects. When the
      rows lack a `Code` column the comprehension raises after the list was
      read, so the list is kept and the dict stays empty. */
  method LoadProducts(file: CatalogFile)
    returns (products: seq<Record>, productDict: Dict<Value, Record>, dialog: Option<LoadDialog>)
    ensures forall r :: r in products ==> fresh(r)
    ensures forall i, j :: 0 <= i < j < |products| ==> products[i] != products[j]
    ensures file.Absent? ==> products == [] && productDict == Empty() && dialog == None
    ensures file.Present? && file.read.Rows? ==>
      && |products| == |file.read.rows|
      && (forall i :: 0 <= i < |products| ==> products[i].fields == TextRow(file.read.rows[i]))
      && (HasCodes(file.read.rows) ==>
            productDict == Comprehension(CodeColumn(file.read.rows), products) && dialog == None)
      && (!HasCodes(file.read.rows) ==>
            productDict == Empty() && dialog == Some(UnexpectedDialog("'Code'")))
    ensures file.Present? && !file.read.Rows? ==>
      && products == [] && productDict == Empty()
      && dialog == Some(match file.read
                        case FileVanished => NotFoundDialog
                        case CsvError => CorruptedDialog
                        case DecodeError => EncodingDialog
                        case OtherError(message) => UnexpectedDialog(message))
  {
    products, productDict, dialog := [], Empty(), None;
    if file.Absent? {
      return;
    }
    match file.read
    case FileVanished => dialog := Some(NotFoundDialog);
    case CsvError => dialog := Some(CorruptedDialog);
    case DecodeError => dialog := Some(EncodingDialog);
    case OtherError(message) => dialog := Some(UnexpectedDialog(message));
    case Rows(rows) =>
      // products = list(reader): one new dict per row
      var i := 0;
      while i < |rows|
        invariant 0 <= i <= |rows| && |products| == i
        invariant forall r :: r in products ==> fresh(r)
        invariant forall j, k :: 0 <= j < k < i ==> products[j] != products[k]
        invariant forall j :: 0 <= j < i ==> products[j].fields == TextRow(rows[j])
      {
        var r := new Record(TextRow(rows[i]));
        products := products + [r];
        i := i + 1;
      }
      // product_dict = {product['Code']: product for product in products}
      if HasCodes(rows) {
        productDict := Comprehension(CodeColumn(rows), products);
      } else {
        dialog := Some(UnexpectedDialog("'Code'"));
      }
  }

  /** After a load, the dict's keys are exactly the codes in the file, each
      code maps to the last product carrying it, and every value is one of
      the loaded products, so an update made through the dict is an update
      of the list that gets saved. */
  lemma LoadedIndex(rows: seq<map<string, string>>, products: seq<Record>, c: Value)
    requires HasCodes(rows) && |products| == |rows|
    ensures c in Comprehension(CodeColumn(rows), products).m <==> c in CodeColumn(rows)
    ensures c in CodeColumn(rows) ==>
      Comprehension(CodeColumn(rows), products).m[c] == products[LastIndex(CodeColumn(rows), c)]
    ensures c in Comprehension(CodeColumn(rows), products).m ==>
      Comprehension(CodeColumn(rows), products).m[c] in products
  {
    var codes := CodeColumn(rows);
    ComprehensionKeys(codes, products);
    if c in codes {
      ComprehensionLastWins(codes, products, c);
    }
  }

  /** The outcome of one attempt to open and write the file. */
  datatype WriteOutcome = Written | PermissionError | Failure(message: string)

  /** What `save_products` does, in order: write attempts, one-second waits
      and error dialogs. */
  datatype SaveEvent =
    | Attempt(n: nat)
    | Sleep
    | PermissionDeniedDialog
    | SaveFailedDialog(message: string)

  const Retries: nat := 3

  /** The events of `save_products` from attempt `attempt` on, when attempt
      `i` has outcome `write(i)`. */
  function SaveTrace(write: nat -> WriteOutcome, attempt: nat): seq<SaveEvent>
    decreases Retries - attempt
  {
    if attempt >= Retries then []
    else
      match write(attempt)
      case Written => [Attempt(attempt)]
      case PermissionError =>
        [Attempt(attempt), if attempt < Retries - 1 then Sleep else PermissionDeniedDialog]
          + SaveTrace(write, attempt + 1)
      case Failure(message) => [Attempt(attempt), SaveFailedDialog(message)] + SaveTrace(write, attempt + 1)
  }

  /** `save_products(file_path, products)`: the retry loop, with attempt
      `i` having outcome `write(i)`. Returns the events it produced and
      whether the file was written. */
  method SaveProducts(write: nat -> WriteOutcome) returns (events: seq<SaveEvent>, saved: bool)
    ensures events == SaveTrace(write, 0)
    ensures saved <==> exists i :: 0 <= i < Retries && write(i) == Written
  {
    events := [];
    for attempt := 0 to Retries
      invariant events + SaveTrace(write, attempt) == SaveTrace(write, 0)
      invariant forall i :: 0 <= i < attempt ==> write(i) != Written
    {
      ghost var rest := SaveTrace(write, attempt + 1);
      match write(attempt)
      case Written =>
        assert SaveTrace(write, attempt) == [Attempt(attempt)];
        events := events + [Attempt(attempt)];
        return events, true;
      case PermissionError =>
        var wait := if attempt < Retries - 1 then Sleep else PermissionDeniedDialog;
        assert SaveTrace(write, attempt) == [Attempt(attempt), wait] + rest;
        assert events + ([Attempt(attempt), wait] + rest) == (events + [Attempt(attempt), wait]) + rest;
        events := events + [Attempt(attempt), wait];
      case Failure(message) =>
        assert SaveTrace(write, attempt) == [Attempt(attempt), SaveFailedDialog(message)] + rest;
        assert events + ([Attempt(attempt), SaveFailedDialog(message)] + rest)
            == (events + [Attempt(attempt), SaveFailedDialog(message)]) + rest;
        events := events + [Attempt(attempt), SaveFailedDialog(message)];
    }
    assert SaveTrace(write, Retries) == [];
    saved := false;
  }

  /** Attempt `i` is made exactly when it is one of the three allowed and no
      earlier attempt wrote the file: at most three attempts, every kind of
      failure is retried, and the loop ends at the first success. */
  lemma {:induction false} SaveAttempts(write: nat -> WriteOutcome, from: nat, i: nat)
    requires from <= Retries
    ensures Attempt(i) in SaveTrace(write, from) <==>
      from <= i < Retries && forall j :: from <= j < i ==> write(j) != Written
    decreases Retries - from
  {
    if from < Retries {
      SaveAttempts(write, from + 1, i);
      if i > from && write(from) == Written {
        assert !(forall j :: from <= j < i ==> write(j) != Written) by {
          assert write(from) == Written;
        }
      }
    }
  }

  /** The "Permission denied" dialog appears exactly when the third attempt
      hits a PermissionError after two attempts that did not write. */
  lemma {:induction false} SavePermissionDialog(write: nat -> WriteOutcome, from: nat)
    requires from <= Retries
    ensures PermissionDeniedDialog in SaveTrace(write, from) <==>
      from < Retries && write(Retries - 1) == PermissionError && forall j :: from <= j < Retries - 1 ==> write(j) != Written
    decreases Retries - from
  {
    if from < Retries {
      SavePermissionDialog(write, from + 1);
      var rest := SaveTrace(write, from + 1);
      match write(from)
      case Written =>
        if from < Retries - 1 {
          assert !(forall j :: from <= j < Retries - 1 ==> write(j) != Written) by {
            assert write(from) == Written;
          }
        }
      case PermissionError =>
        if from < Retries - 1 {
          assert SaveTrace(write, from) == [Attempt(from), Sleep] + rest;
        } else {
          assert PermissionDeniedDialog in SaveTrace(write, from);
        }
      case Failure(message) =>
        assert SaveTrace(write, from) == [Attempt(from), SaveFailedDialog(message)] + rest;
    }
  }

  /** The "Failed to save" dialog with message `m` appears exactly when an
      attempt fails with that error and no earlier attempt wrote the file;
      each such failure shows its own dialog and the loop goes on. */
  lemma {:induction false} SaveFailures(write: nat -> WriteOutcome, from: nat, m: string)
    requires from <= Retries
    ensures SaveFailedDialog(m) in SaveTrace(write, from) <==>
      exists i :: from <= i < Retries && write(i) == Failure(m) &&
        forall j :: from <= j < i ==> write(j) != Written
    decreases Retries - from
  {
    if from < Retries {
      SaveFailures(write, from + 1, m);
      if write(from) == Failure(m) {
        assert SaveFailedDialog(m) in SaveTrace(write, from);
      }
    }
  }

  /** The loop waits only after a PermissionError on one of the first two
      attempts. */
  lemma {:induction false} SaveSleeps(write: nat -> WriteOutcome, from: nat)
    requires from <= Retries
    ensures Sleep in SaveTrace(write, from) <==>
      exists i :: from <= i < Retries - 1 && write(i) == PermissionError &&
        forall j :: from <= j < i ==> write(j) != Written
    decreases Retries - from
  {
    if from < Retries {
      SaveSleeps(write, from + 1);
      if write(from) == PermissionError && from < Retries - 1 {
        assert Sleep in SaveTrace(write, from);
      }
    }
  }
}
