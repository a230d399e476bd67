/** The two master tables read from the workbook (sheets 製品マスター and
    パレットマスター), the header clean-up done when they are loaded, and the
    first-matching-row lookups made on them. */
module Master {
  import opened Wrappers
  import Text

  const ProductNameColumn := "品名"
  const UnitWeightColumn := "1ポリ重量"
  const PalletNameColumn := "パレット名"
  const PalletWeightColumn := "重量kg"

  /** A product row: its 品名 and its 1ポリ重量 (None for an empty cell). */
  datatype Product = Product(name: string, unitWeight: Option<real>)

  /** A pallet row: its パレット名 and its 重量kg (None for an empty cell). */
  datatype Pallet = Pallet(name: string, weight: Option<real>)

  /** A sheet as pandas holds it: the header, and the rows seen through the
      columns the program reads. */
  datatype ProductTable = ProductTable(columns: seq<string>, rows: seq<Product>)
  datatype PalletTable = PalletTable(columns: seq<string>, rows: seq<Pallet>)

  datatype MasterData = MasterData(products: ProductTable, pallets: PalletTable)

  /** The header clean-up of app.py:22-23: every column name is stripped of
      surrounding whitespace, and the columns keep their positions. */
  function StripHeaders(columns: seq<string>): (r: seq<string>)
    ensures |r| == |columns|
    ensures forall i :: 0 <= i < |r| ==> r[i] == Text.Strip(columns[i])
  {
    seq(|columns|, i requires 0 <= i < |columns| => Text.Strip(columns[i]))
  }

  /** Stripped headers have no whitespace at either end of any name, and
      stripping them again changes nothing. */
  lemma StripHeadersIdempotent(columns: seq<string>)
    ensures forall i :: 0 <= i < |columns| ==>
      var h := StripHeaders(columns)[i];
      h == [] || (!Text.IsSpace(h[0]) && !Text.IsSpace(h[|h| - 1]))
    ensures StripHeaders(StripHeaders(columns)) == StripHeaders(columns)
  {
    var once := StripHeaders(columns);
    forall i | 0 <= i < |columns|
      ensures StripHeaders(once)[i] == once[i]
    {
      Text.StripIdempotent(columns[i]);
    }
  }

  /** Loading the master (app.py:13-29): both sheets must have been read (an unreadable workbook
      or sheet gives None, as the two `except` branches do); the headers of
      both are then stripped and the rows kept as they are. */
  function LoadData(products: Option<ProductTable>, pallets: Option<PalletTable>): (r: Option<MasterData>)
    ensures r.Some? <==> products.Some? && pallets.Some?
    ensures r.Some? ==>
      && r.value.products.rows == products.value.rows
      && r.value.pallets.rows == pallets.value.rows
      && r.value.products.columns == StripHeaders(products.value.columns)
      && r.value.pallets.columns == StripHeaders(pallets.value.columns)
  {
    if products.None? || pallets.None? then None
    else
      var p := products.value;
      var q := pallets.value;
      Some(MasterData(ProductTable(StripHeaders(p.columns), p.rows),
                      PalletTable(StripHeaders(q.columns), q.rows)))
  }

  /** The position of the first occurrence of `key` in `keys`, if any: the
      row that a filter on equality followed by taking the first row picks
      out (app.py:64, app.py:127). */
  function FirstIndex(keys: seq<string>, key: string): (r: Option<nat>)
    ensures r.None? <==> key !in keys
    ensures r.Some? ==> r.value < |keys| && keys[r.value] == key
    ensures r.Some? ==> forall j :: 0 <= j < r.value ==> keys[j] != key
  {
    if keys == [] then None
    else if keys[0] == key then Some(0)
    else match FirstIndex(keys[1..], key)
      case None => None
      case Some(k) => Some(k + 1)
  }

  /** One column of a sheet (app.py:59, app.py:64, app.py:123, app.py:127),
      read out of each row through `cell`. */
  function Column<T>(rows: seq<T>, cell: T -> string): (r: seq<string>)
    ensures |r| == |rows| && forall i :: 0 <= i < |rows| ==> r[i] == cell(rows[i])
  {
    seq(|rows|, i requires 0 <= i < |rows| => cell(rows[i]))
  }

  /** The first product row whose 品名 equals `name` (app.py:64); None where
      pandas would raise IndexError because no row has that exact name. */
  function FindProduct(rows: seq<Product>, name: string): (r: Option<Product>)
    ensures r.None? <==> forall i :: 0 <= i < |rows| ==> rows[i].name != name
    ensures r.Some? ==> exists i :: 0 <= i < |rows| && rows[i] == r.value && rows[i].name == name
                                    && forall j :: 0 <= j < i ==> rows[j].name != name
  {
    match FirstIndex(Column(rows, (p: Product) => p.name), name)
    case None => None
    case Some(k) => Some(rows[k])
  }

  /** The first pallet row whose パレット名 equals `name` (app.py:127); None
      where pandas would raise IndexError. */
  function FindPallet(rows: seq<Pallet>, name: string): (r: Option<Pallet>)
    ensures r.None? <==> forall i :: 0 <= i < |rows| ==> rows[i].name != name
    ensures r.Some? ==> exists i :: 0 <= i < |rows| && rows[i] == r.value && rows[i].name == name
                                    && forall j :: 0 <= j < i ==> rows[j].name != name
  {
    match FirstIndex(Column(rows, (p: Pallet) => p.name), name)
    case None => None
    case Some(k) => Some(rows[k])
  }

  /** No two product rows share a 品名: the master table's key. */
  predicate UniqueNames(rows: seq<Product>) {
    forall i, j :: 0 <= i < j < |rows| ==> rows[i].name != rows[j].name
  }

  /** With unique names the lookup finds the one row with that name. */
  lemma FindProductUnique(rows: seq<Product>, i: nat)
    requires UniqueNames(rows) && i < |rows|
    ensures FindProduct(rows, rows[i].name) == Some(rows[i])
  {
    var r := FindProduct(rows, rows[i].name);
    var k :| 0 <= k < |rows| && rows[k] == r.value && rows[k].name == rows[i].name;
  }

  /** The single-entry weight, unit weight times quantity (app.py:73): a NaN
      weight stays NaN. */
  function Times(weight: Option<real>, quantity: int): (r: Option<real>)
    ensures r.None? <==> weight.None?
    ensures r.Some? ==> r.value == weight.value * quantity as real
  {
    match weight
    case None => None
    case Some(w) => Some(w * quantity as real)
  }
}
