/** Python values as the product catalog holds them.

    A product is a Python dict that several forms share and update in place,
    so it is modelled as an object (`Record`) whose one field is the dict's
    contents. A Python list that is aliased and mutated in place is a `PyList`.
 */
module Values {

  datatype Option<T> = None | Some(value: T)

  /** The values a product dict can hold: text read from the catalog file or
      typed by the operator, the integer default of a listing, and the float
      that a stock entry stores. Floats are never computed with; a `real`
      stands for the parsed value. */
  datatype Value = Str(s: string) | Int(i: int) | Float(x: real)

  /** The number parsers and the cost formatter of the Python runtime:
      `float(s)`, `int(s)` (None where Python raises ValueError) and
      `f"{cost:.2f}"`. They are left abstract and passed as parameters. */
  datatype Parsers = Parsers(
    parseFloat: string -> Option<real>,
    parseInt: string -> Option<int>,
    formatCost: real -> string)

  /** A product: one Python dict from column name to value. */
  class Record {
    var fields: map<string, Value>

    constructor (fields: map<string, Value>)
      ensures this.fields == fields
    {
      this.fields := fields;
    }

    /** `product.get(key, default)` */
    function Get(key: string, default: Value): Value
      reads this
    {
      if key in fields then fields[key] else default
    }
  }

  /** A Python list of products, shared by reference. */
  class PyList {
    var items: seq<Record>

    constructor (items: seq<Record>)
      ensures this.items == items
    {
      this.items := items;
    }
  }

  /** The contents of a list of products at one moment: what a save callback
      bound to that list would write. */
  ghost function Snapshot(rs: seq<Record>): (snap: seq<map<string, Value>>)
    reads set r | r in rs
    ensures |snap| == |rs|
    ensures forall i :: 0 <= i < |rs| ==> snap[i] == rs[i].fields
  {
    if rs == [] then [] else Snapshot(rs[..|rs| - 1]) + [rs[|rs| - 1].fields]
  }

  /** `a` is `b` with some elements left out: the elements of `a` occur in
      `b` in the same relative order. */
  predicate Subsequence<T(==)>(a: seq<T>, b: seq<T>)
  {
    || a == []
    || (b != [] && ((a[0] == b[0] && Subsequence(a[1..], b[1..])) || Subsequence(a, b[1..])))
  }
}
