# Product and stock catalog forms, modelled in Dafny

The system is a small desktop catalog of products kept in a CSV file. Each
product is a dict with the columns Name, Cost, Link, Quantity, Code,
LocationCode, StockQuantity and AddedDate. This project models its core.

* **Catalog file** (`file_operations.py`, module `FileOperations`):
  * Loading gives the list of products and a dict from Code to product over
    the same objects. It shows the dialog that matches the exception
    reading raised.
  * Saving makes up to three write attempts. It waits after a
    PermissionError on the first two attempts and shows a dialog after each
    other failure.
* **Stock form** (`stock_management_ui.py`, module `StockManagement`):
  * A three-step scan entry: product code, then location code, then
    quantity. It writes the location and the quantity into the selected
    product.
  * A cell editor for the listing.
  * The listing of the code index, in the index's order.
* **Product form** (`product_management_ui.py`, module `ProductManagement`):
  * A four-step registration wizard: name, cost, link, quantity. It appends
    a product with a fresh seven-digit code.
  * Search by name, deleting the selected rows, editing one cell, clearing
    the catalog after a typed confirmation, and the column-width rule.

Support modules:
* `Values`: products as objects shared by reference, and the number parsers
  as parameters.
* `Text`: the Python string functions the forms call (`strip`, `lower`,
  `in`, `str(int)`).
* `OrderedDict`: Python's insertion-ordered dict and the
  `{k: v for ...}` comprehension.

Python dicts and lists that the forms update in place are objects:
* a product is a `Record`;
* the product form's lists are `PyList`s.

Updates made through the code index therefore reach the list that gets
saved, as they do in Python. Each form is a class whose methods change its
fields.

Each class method is tied to a pure transition, and the properties are
proved about that transition:
* the stock form's `handle_entry` follows `ScanStep`;
* the product form's `handle_entry` follows `WizardStep`;
* the save loop follows `SaveTrace`.

Widgets become the inputs they deliver, such as the entry text, the selected
row's values and the answer of the confirmation dialog. The environment
becomes parameters:
* `random.randint` is a stream of draws;
* `datetime.now()` is a date string;
* `float`, `int` and the cost formatter are arrows in `Parsers`;
* each write attempt of the save loop is an outcome.

`stock_management_ui.py` has no check-out mode, countdown, clamp at zero or
location-uniqueness check, and neither does the model.

## Model

| member | source | states |
|---|---|---|
| Values.Record.Get | stock_management_ui.py:64 | `product.get(key, default)`: the stored value when the key is present, the default otherwise. It has no contract of its own; `StockManagement.ListingRows` and `ProductManagement.TreeRowCells` state its use with the defaults of the two listings |
| Values.Snapshot | file_operations.py:48 | The rows a write of the product list produces: one per product, in list order, each that product's current dict |
| Text.Strip | product_management_ui.py:226 | `s.strip()`: the input without its leading and trailing whitespace, in the sense of Python's `isspace`. It has no contract of its own; `Text.StripSpec` and `Text.StripUnique` determine it completely |
| Text.StripSpec | product_management_ui.py:226 | `strip()` returns the part of the input after its leading whitespace. Only whitespace follows it, and it neither starts nor ends with whitespace |
| Text.StripUnique | stock_management_ui.py:117 | Whitespace, then text with no whitespace at either end, then whitespace: `strip()` returns exactly that text |
| Text.StripIdempotent | product_management_ui.py:112 | Stripping a stripped input changes nothing |
| Text.Lower | product_management_ui.py:116 | `lower()` keeps the length and leaves no capital letter. A capital becomes the letter 32 code points above it, and every other character is kept |
| Text.LowerIdempotent | product_management_ui.py:112 | Lowering a lowered query or name changes nothing |
| Text.Contains | product_management_ui.py:116 | The substring test `q in t`. It has no contract of its own; `Text.ContainsAt` states it holds exactly when `q` occurs in `t` at some position |
| Text.ContainsAt | product_management_ui.py:116 | `q in t` holds exactly when `q` occurs in `t` at some position |
| Text.IntToDecimal | product_management_ui.py:263 | `str(i)` for any integer. It has no contract of its own; `Text.IntToDecimalValue` states what it writes |
| Text.IntToDecimalValue | product_management_ui.py:263 | `str(i)` is the digits of the magnitude of `i`, after a minus sign exactly when `i` is negative. Reading the digits back gives that magnitude |
| Text.NatToDecimal | product_management_ui.py:221 | `str(n)` is a non-empty string of digits with no leading zero for positive `n` |
| Text.DecimalRoundTrip | product_management_ui.py:221 | Reading back the digits of `str(n)` gives `n` |
| Text.DecimalInjective | product_management_ui.py:222 | Different numbers give different code strings, so comparing codes as text compares the drawn numbers |
| Text.DecimalLength | product_management_ui.py:221 | A number with `d + 1` digits is written with `d + 1` characters |
| OrderedDict.Insert | file_operations.py:19 | Storing a key keeps the dict's key list duplicate-free and equal to its mapped keys |
| OrderedDict.Comprehension | file_operations.py:19 | The comprehension builds a well-formed ordered dict |
| OrderedDict.ComprehensionKeys | file_operations.py:19 | The dict's keys are exactly the keys given |
| OrderedDict.ComprehensionLastWins | file_operations.py:19 | A repeated key maps to the value paired with its last occurrence |
| OrderedDict.ComprehensionValue | file_operations.py:19 | Every value of the dict is one of the values given |
| OrderedDict.ComprehensionOrder | file_operations.py:19 | Iteration order is the order of first occurrence of each key |
| FileOperations.LoadProducts | file_operations.py:6-30 | A missing file gives an empty list and dict, with no dialog. Readable rows give one fresh, distinct product per row, holding that row's texts. The index is the comprehension over the Code column, or it stays empty with the `'Code'` dialog when a row has no Code. Each kind of read error gives empty results and its own dialog |
| FileOperations.LoadedIndex | file_operations.py:17-19 | After a load the index keys are exactly the codes in the file. Each code maps to the last product with it, and every value is a product of the list |
| FileOperations.SaveTrace | file_operations.py:41-57 | The events of the retry loop from a given attempt on. It has no contract of its own; the four lemmas below characterise it, and `SaveProducts` is proved to produce it |
| FileOperations.SaveProducts | file_operations.py:41-57 | The retry loop produces exactly the trace `SaveTrace` specifies. It reports success exactly when some attempt of the three succeeded |
| FileOperations.SaveAttempts | file_operations.py:42-49 | Attempt `i` is made exactly when `i < 3` and no earlier attempt wrote the file |
| FileOperations.SavePermissionDialog | file_operations.py:50-55 | The permission dialog appears exactly when the third attempt hits a PermissionError and no earlier attempt succeeded |
| FileOperations.SaveSleeps | file_operations.py:50-53 | A one-second wait happens exactly after a PermissionError on one of the first two attempts, with no earlier success |
| FileOperations.SaveFailures | file_operations.py:56-57 | The "Failed to save" dialog with a given message appears exactly when some attempt fails with that error and no earlier attempt succeeded. The loop then goes on |
| StockManagement.ScanStep | stock_management_ui.py:112-152 | Step 0 advances exactly when the stripped input is an indexed code, and otherwise reports code-not-found. Step 1 takes any input as the location. Step 2 writes exactly when the quantity parses, then resets to step 0 with an empty entry; otherwise it reports an invalid quantity and keeps the state. The scan state stays valid throughout |
| StockManagement.ScanSession | stock_management_ui.py:119-148 | A full scan of a known code, any location and a parsable quantity writes once, on the third input, with the stripped code and location. It ends at step 0 |
| StockManagement.ListingRow | stock_management_ui.py:64 | The row tuple: the code, then Name, LocationCode and StockQuantity with defaults "", "" and 0. It has no contract of its own; `StockManagement.ListingRows` states that each key's row is this row of its product |
| StockManagement.ListingRows | stock_management_ui.py:60-64 | The listing has one row per index key, in key order, showing the product's Name, LocationCode and StockQuantity with the source's defaults |
| StockManagement.StockManagerUI.constructor | stock_management_ui.py:5-12 | The form starts at step 0 with an empty entry and lists the index |
| StockManagement.StockManagerUI.UpdateTreeView | stock_management_ui.py:60-64 | The loop rebuilds exactly the listing of the index |
| StockManagement.StockManagerUI.SaveAndRelist | stock_management_ui.py:143-144 | Calls the save callback once on the current list contents, then relists |
| StockManagement.StockManagerUI.HandleEntry | stock_management_ui.py:112-152 | The step, entry and status follow `ScanStep`. A write sets the selected product's LocationCode and StockQuantity, changes no other product, saves once and relists. Without a write no product changes and nothing is saved |
| StockManagement.StockManagerUI.RecordEntry | stock_management_ui.py:136-150 | The product chosen in step 0 gets the entered location and the parsed quantity, and only it changes. The entry restarts, the status reports success, and the list is saved and relisted |
| StockManagement.CellValue | stock_management_ui.py:82-83 | `float(new_value)` for the Stock Quantity column, None when it raises ValueError, and the text itself for every other column. It has no contract of its own; `StockManagement.StockManagerUI.SaveChanges` states that None changes nothing and reports the error, and that any other value is what the edit stores |
| StockManagement.ColumnField | stock_management_ui.py:89-94 | Column 1 edits Name, column 2 LocationCode and column 3 StockQuantity. It has no contract of its own; `StockManagement.StockManagerUI.SaveChanges` states that an edit of columns 1 to 3 overwrites exactly that field of the product the row's code selects |
| StockManagement.StockManagerUI.SaveChanges | stock_management_ui.py:79-101 | An unparsable Stock Quantity changes nothing and reports an error. Otherwise the row's code selects the product; for a column-0 edit that is the new text. Columns 1, 2 and 3 overwrite Name, LocationCode or StockQuantity and touch no other product. A code-column edit or an unknown code changes no product. The list is saved and relisted in every case |
| ProductManagement.Taken | product_management_ui.py:222 | Every code a product carries is among the taken codes |
| ProductManagement.TakenCodes | product_management_ui.py:222 | The taken codes are exactly the codes some product carries |
| ProductManagement.UnusedIsAll | product_management_ui.py:222 | A drawn number counts as unused exactly when the `all(...)` test accepts it: no product's code equals its text |
| ProductManagement.FirstUnused | product_management_ui.py:220-223 | The position of the first draw whose text no product carries; every earlier draw is taken |
| ProductManagement.SevenDigits | product_management_ui.py:221 | Every number `randint(1000000, 9999999)` can return is written with seven digits, the first not zero |
| ProductManagement.UniqueCode | product_management_ui.py:219-223 | The generated code has seven digits and is carried by no product |
| ProductManagement.UniqueCodeDrawn | product_management_ui.py:219-223 | The code is the text of a drawn number, and every earlier draw was already taken |
| ProductManagement.WizardStep | product_management_ui.py:225-277 | One Enter press of the wizard as a transition. It has no contract of its own; `WizardRejects`, `WizardAdvances` and `WizardCompletes` state what it does |
| ProductManagement.WizardRejects | product_management_ui.py:225-277 | Each step rejects exactly a blank name, an unparsable cost, a blank link or an unparsable quantity. A rejection keeps the wizard as it was and completes nothing |
| ProductManagement.WizardAdvances | product_management_ui.py:226-257 | An accepted input moves the wizard one step on, cyclically, and keeps it valid. The first three steps record the stripped name, the formatted cost and the stripped link |
| ProductManagement.Completed | product_management_ui.py:263-267 | The five field writes of the fourth step: Quantity as `str(quantity)`, the new Code, an empty LocationCode, StockQuantity "0" and the date. It has no contract of its own; `ProductManagement.CompletedFields` states the resulting dict |
| ProductManagement.CompletedFields | product_management_ui.py:263-267 | A completed product keeps the three answers and adds exactly Quantity, Code, an empty LocationCode, StockQuantity "0" and AddedDate |
| ProductManagement.WizardCompletes | product_management_ui.py:258-273 | Only an accepted fourth step completes a product. The product has exactly the eight columns, an unused seven-digit code and the quantity's text, and the wizard starts over |
| ProductManagement.Registration | product_management_ui.py:225-277 | Four valid inputs from an empty form complete one product, on the fourth input only, holding exactly the stripped name and link, the formatted cost and the quantity's text |
| ProductManagement.TreeRow | product_management_ui.py:129 | The tuple `product.get(key, "")` over the eight columns. It has no contract of its own; `ProductManagement.TreeRowCells` states each cell |
| ProductManagement.TreeRowCells | product_management_ui.py:129 | A listing row has one cell per column: the product's field, or the empty string when the product lacks it |
| ProductManagement.TableRows | product_management_ui.py:123-129 | The listing has one row per shown product, in list order |
| ProductManagement.TableAppend | product_management_ui.py:128-129 | Listing one more product adds its row at the end |
| ProductManagement.SearchResults | product_management_ui.py:115-117 | Every product in the result is in the list and matches the query, every matching product is kept, and the result keeps list order |
| ProductManagement.SearchResultsCount | product_management_ui.py:115-117 | A matching product occurs in the result as often as in the list, and a non-matching one not at all |
| ProductManagement.SelectedCodes | product_management_ui.py:281-286 | A code is collected exactly when some selected row has at least five values and shows that code in column 4 |
| ProductManagement.Kept | product_management_ui.py:290-293 | Every kept product is in the list with an unselected code, every such product is kept, and list order is kept |
| ProductManagement.KeptCount | product_management_ui.py:290-293 | A product with an unselected code is kept as often as it occurs in the list, and one with a selected code not at all |
| ProductManagement.FirstWithCode | product_management_ui.py:209-214 | Finds the first product with the code, or reports that no product has it |
| ProductManagement.MaxLength | product_management_ui.py:146-147 | The longest cell text: no cell is longer, and some cell has that length |
| ProductManagement.ColumnWidth | product_management_ui.py:141-156 | The width is ten pixels per character. It covers the header and every cell, and equals ten times the header or ten times some cell |
| ProductManagement.ProductManagerUI.constructor | product_management_ui.py:11-18 | The form starts with an empty wizard and shows the whole list, the same list object |
| ProductManagement.ProductManagerUI.RefreshTree | product_management_ui.py:123-129 | The loop rebuilds exactly the listing of the shown list |
| ProductManagement.ProductManagerUI.GenerateUniqueCode | product_management_ui.py:219-223 | The retry loop returns the code `UniqueCode` specifies. It has seven digits and no product carries it |
| ProductManagement.ProductManagerUI.HandleEntry | product_management_ui.py:225-277 | The wizard and the status follow `WizardStep`. A completion appends the filled-in dict itself to the list, saves once, shows the whole list and starts a new dict. No existing product changes |
| ProductManagement.ProductManagerUI.AnswerStep | product_management_ui.py:226-257 | The first three steps follow `WizardStep`: the stripped name, the formatted cost or the stripped link is recorded and the step advances, or the step's error is shown and nothing else changes |
| ProductManagement.ProductManagerUI.AddProduct | product_management_ui.py:263-273 | The pending dict gets the completion fields and the unique code and is appended. The save callback runs once, the whole list is shown again and a new empty dict is started |
| ProductManagement.ProductManagerUI.HandleSearch | product_management_ui.py:111-121 | A query that is blank after strip and lower shows the product list object itself. Any other query shows a new list of exactly the matching products. The listing is rebuilt |
| ProductManagement.ProductManagerUI.DeleteSelectedEntries | product_management_ui.py:278-298 | Without a selection nothing changes. Otherwise both lists become new lists without the selected codes, the callback runs once, `products.csv` gets the new list and the listing is rebuilt |
| ProductManagement.ProductManagerUI.ReplaceLists | product_management_ui.py:290-293 | Both lists are rebound to new list objects holding the kept products |
| ProductManagement.ProductManagerUI.SaveExportRelist | product_management_ui.py:296-308 | The callback runs once, the write of `products.csv` records the product list's contents, and the listing is rebuilt |
| ProductManagement.ProductManagerUI.UpdateProduct | product_management_ui.py:203-217 | Only the first product with the code gets the column's field set, or none when no product has the code. The callback runs once either way |
| ProductManagement.ProductManagerUI.SaveEdit | product_management_ui.py:186-193 | An unchanged text updates nothing and does not save. A changed text updates as `UpdateProduct` does. The listing is rebuilt either way |
| ProductManagement.ProductManagerUI.ClearDatabase | product_management_ui.py:310-318 | Only the exact answer `delete` empties the product list in place, shows it, saves once and relists. Any other answer, or a cancelled dialog, changes nothing and reports the cancellation |

## Left out

- Widgets, window layout, focus handling (`focus_entry_on_keypress`), status texts and the main menu: they are user-interface details. The inputs the widgets deliver are parameters, and the status label is an enumeration.
- Clipboard monitoring in the product form (a background thread polling `pyperclip`): concurrency and the system clipboard are outside the model.
- `detect_encoding` and `chardet`: reading is abstract. The model receives the rows `csv.DictReader` yields, or the exception reading raised. `DictReader`'s handling of short and long rows is not modelled.
- `create_icon.py`, `image_capture_test.py`, `pasteboardmonitor.py`, `shopping_assistant_ui.py` and `main.py` are not part of this model.
- FileOperations.SaveProducts: the bytes written are not modelled. Each attempt is an outcome, and the rows a write would produce are `Values.Snapshot`.
- Floats: `float()` and `f"{cost:.2f}"` are parameters. A parsed quantity is a `real` and nothing computes with it.
- Text.Lower: only ASCII letters are lowered, because Unicode case mapping is out of scope.
- The stock form's save callback is a ghost log of what the product list held at each call. In `main.py` that callback saves the list that was loaded.
- ProductManagement.ProductManagerUI.HandleEntry: `main.py` passes `None` as the product form's save callback, so each save there raises TypeError after the list has changed. The model assumes a callable and only counts its calls, because the callback takes no arguments and sees whatever list it closed over.
- ProductManagement.ProductManagerUI.HandleEntry: at step 3 it requires every product to have a Code. It also requires that the random stream eventually draws an unused code. Otherwise `generate_unique_code` raises KeyError or never ends.
- ProductManagement.ProductManagerUI.AddProduct: the five fields are written in one update. No one can observe the dict between those writes.
- ProductManagement.ProductManagerUI.HandleSearch: it requires every product to have a text Name when the query is not blank. Otherwise the Python comprehension raises.
- ProductManagement.ProductManagerUI.DeleteSelectedEntries: it requires every product to have a Code when rows are selected, for the same reason. Deleting rows from the tree widget is covered by rebuilding the listing.
- ProductManagement.ProductManagerUI.UpdateProduct: it requires every product to have a Code, because `product['Code']` raises otherwise. The row is identified by its code cell, not by a widget item id.
- ProductManagement.ProductManagerUI.SaveExportRelist: `update_csv_file` writes `products.csv`, a fixed path that is not the file `main.py` loads and saves (`products.xlsx`), so in the application the export never reaches the loaded catalog. The export is recorded as the list contents it would write. With `main.py`'s `None` callback, the save call before it raises, so the export is never reached there.
- ProductManagement.ProductManagerUI.SaveEdit: the editor fires on both Return and FocusOut, so one edit can save twice. Each firing is one call.
- ProductManagement.ColumnWidth: it requires at least one row, because `max` of no rows raises ValueError. It also requires a valid column index. The pixel width is the returned number.
- StockManagement.StockManagerUI.SaveChanges: it requires a column index from 0 to 3, which is what a double-click on the four-column listing can produce. The temporary update of the edited tree row is covered by the rebuild that follows.
- StockManagement.StockManagerUI.HandleEntry: the `hasattr` reset at `stock_management_ui.py:113-115` cannot fire after the constructor and is not modelled.
- The `print` debugging output of the product wizard is not modelled.
