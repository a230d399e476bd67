/** The upload tab (app.py:78-112): the uploaded list is renamed by
    position, left-joined against the product master on 型番 = 品名, given a
    小計重量 column, and either summed or reported as unknown products. */
module Bulk {
  import opened Wrappers
  import opened Master

  const CodeColumn := "型番"
  const QuantityColumn := "数量"

  /** One uploaded row: column A (型番) and column B (数量, None for an
      empty cell). */
  datatype UploadRow = UploadRow(code: string, quantity: Option<int>)

  /** What the uploader hands over (app.py:83, app.py:90): no file yet, a
      file that could not be read, or a parsed sheet. */
  datatype Upload = NoFile | Unreadable | Sheet(columns: seq<string>, rows: seq<UploadRow>)

  /** A row of the merged table: the upload row and the 1ポリ重量 it was joined
      with (None when no product matched, or the matched cell was empty). */
  datatype MergedRow = MergedRow(code: string, quantity: Option<int>, unitWeight: Option<real>)

  /** The outcome of the upload tab. */
  datatype BulkOutcome =
    | NoUpload                      // nothing uploaded yet (app.py:87)
    | ReadFailed                    // the `except` at app.py:111
    | Unknown(codes: seq<string>)   // some 1ポリ重量 is null
    | Resolved(weight: real)        // sum of the 小計重量 column

  /** The positional rename of app.py:93: the first two column names become
      型番 and 数量 and the rest are kept. pandas refuses a header of another
      length, so a sheet with fewer than two columns fails. */
  function RenameHeader(columns: seq<string>): (r: Option<seq<string>>)
    ensures r.None? <==> |columns| < 2
    ensures r.Some? ==> |r.value| == |columns|
    ensures r.Some? ==> r.value[0] == CodeColumn && r.value[1] == QuantityColumn
    ensures r.Some? ==> r.value[2..] == columns[2..]
  {
    if |columns| < 2 then None else Some([CodeColumn, QuantityColumn] + columns[2..])
  }

  /** The product rows whose 品名 equals `code`, in master order, each as
      many times as it occurs in the master (app.py:96). */
  function Matches(products: seq<Product>, code: string): (m: seq<Product>)
    ensures |m| <= |products|
    ensures forall p :: p in m ==> p in products && p.name == code
    ensures forall i :: 0 <= i < |products| && products[i].name == code ==> products[i] in m
  {
    if products == [] then []
    else if products[0].name == code then [products[0]] + Matches(products[1..], code)
    else Matches(products[1..], code)
  }

  /** Each matching product row appears in the matches exactly as many
      times as in the master, so a duplicated 品名 repeats the upload row. */
  lemma {:induction false} MatchesCount(products: seq<Product>, code: string)
    ensures forall p :: multiset(Matches(products, code))[p] == (if p.name == code then multiset(products)[p] else 0)
  {
    if products != [] {
      MatchesCount(products[1..], code);
      assert products == [products[0]] + products[1..];
      assert multiset(products) == multiset{products[0]} + multiset(products[1..]);
    }
  }

  /** Matching a concatenated master concatenates the matches, so the
      matches keep master order. */
  lemma {:induction false} MatchesAppend(a: seq<Product>, b: seq<Product>, code: string)
    ensures Matches(a + b, code) == Matches(a, code) + Matches(b, code)
  {
    if a == [] {
      assert a + b == b;
    } else {
      assert (a + b)[0] == a[0];
      assert (a + b)[1..] == a[1..] + b;
      MatchesAppend(a[1..], b, code);
    }
  }

  /** What the left merge makes of one upload row: one row per matching
      product, or a single row with no weight when nothing matches. */
  function MergeRow(products: seq<Product>, u: UploadRow): (r: seq<MergedRow>)
    ensures var m := Matches(products, u.code);
      && |r| == (if m == [] then 1 else |m|)
      && (m == [] ==> r == [MergedRow(u.code, u.quantity, None)])
      && (forall i :: 0 <= i < |m| ==> r[i] == MergedRow(u.code, u.quantity, m[i].unitWeight))
  {
    var m := Matches(products, u.code);
    if m == [] then [MergedRow(u.code, u.quantity, None)]
    else seq(|m|, i requires 0 <= i < |m| => MergedRow(u.code, u.quantity, m[i].unitWeight))
  }

  /** The left outer join of the upload with the product master on
      型番 = 品名 (app.py:96): the merges of the upload rows, in upload order. */
  function LeftMerge(upload: seq<UploadRow>, products: seq<Product>): (r: seq<MergedRow>)
    ensures |r| >= |upload|
  {
    if upload == [] then [] else MergeRow(products, upload[0]) + LeftMerge(upload[1..], products)
  }

  /** The subtotal of one merged row, 数量 times 1ポリ重量 (app.py:99); a
      missing factor gives a missing product. */
  function Subtotal(row: MergedRow): (r: Option<real>)
    ensures r.Some? <==> row.quantity.Some? && row.unitWeight.Some?
    ensures r.Some? ==> r.value == Weigh(row.quantity.value, row.unitWeight.value)
  {
    if row.quantity.Some? && row.unitWeight.Some?
    then Some(Weigh(row.quantity.value, row.unitWeight.value))
    else None
  }

  /** 数量 × 1ポリ重量. */
  function Weigh(quantity: int, unitWeight: real): real {
    quantity as real * unitWeight
  }

  /** The 小計重量 column. */
  function Subtotals(rows: seq<MergedRow>): (r: seq<Option<real>>)
    ensures |r| == |rows| && forall i :: 0 <= i < |rows| ==> r[i] == Subtotal(rows[i])
  {
    seq(|rows|, i requires 0 <= i < |rows| => Subtotal(rows[i]))
  }

  /** The sum of a column as pandas computes it (app.py:108): missing
      values are skipped, and an empty column sums to 0. */
  function SumPresent(xs: seq<Option<real>>): (r: real)
    ensures (forall i :: 0 <= i < |xs| ==> xs[i].None?) ==> r == 0.0
    ensures (forall i :: 0 <= i < |xs| ==> xs[i].None? || xs[i].value >= 0.0) ==> r >= 0.0
  {
    if xs == [] then 0.0
    else (if xs[0].Some? then xs[0].value else 0.0) + SumPresent(xs[1..])
  }

  /** Whether some merged row has no 1ポリ重量 (app.py:104). */
  predicate MissingWeight(rows: seq<MergedRow>)
    ensures MissingWeight(rows) ==> rows != []
    ensures MissingWeight(rows) || forall i :: 0 <= i < |rows| ==> rows[i].unitWeight.Some?
  {
    exists i :: 0 <= i < |rows| && rows[i].unitWeight.None?
  }

  /** The 型番 of the merged rows without a 1ポリ重量, in row order with
      duplicates kept (app.py:105). */
  function UnknownCodes(rows: seq<MergedRow>): (r: seq<string>)
    ensures |r| <= |rows|
    ensures r == [] <==> !MissingWeight(rows)
    ensures forall c :: c in r ==> exists i :: 0 <= i < |rows| && rows[i].code == c && rows[i].unitWeight.None?
  {
    if rows == [] then []
    else
      var rest := UnknownCodes(rows[1..]);
      assert MissingWeight(rows) <==> rows[0].unitWeight.None? || MissingWeight(rows[1..]) by {
        if MissingWeight(rows) && rows[0].unitWeight.Some? {
          var i :| 0 <= i < |rows| && rows[i].unitWeight.None?;
          assert rows[1..][i - 1] == rows[i];
        }
        if MissingWeight(rows[1..]) {
          var i :| 0 <= i < |rows[1..]| && rows[1..][i].unitWeight.None?;
          assert rows[i + 1] == rows[1..][i];
        }
      }
      if rows[0].unitWeight.None? then [rows[0].code] + rest else rest
  }

  /** app.py:104-109: the unknown codes when any weight is missing, otherwise
      the sum of the subtotals. */
  function Aggregate(merged: seq<MergedRow>): (r: BulkOutcome)
    ensures r.Unknown? || r.Resolved?
    ensures r.Unknown? <==> exists i :: 0 <= i < |merged| && merged[i].unitWeight.None?
    ensures r.Unknown? ==> r.codes != [] && r.codes == UnknownCodes(merged)
    ensures r.Resolved? ==> r.weight == SumPresent(Subtotals(merged))
  {
    if MissingWeight(merged) then Unknown(UnknownCodes(merged))
    else Resolved(SumPresent(Subtotals(merged)))
  }

  /** The upload tab from the uploaded file up to line 109. */
  function BulkPath(upload: Upload, products: seq<Product>): (r: BulkOutcome)
    ensures upload.NoFile? <==> r.NoUpload?
    ensures r.ReadFailed? <==> upload.Unreadable? || (upload.Sheet? && |upload.columns| < 2)
    ensures upload.Sheet? && |upload.columns| >= 2 ==> r == Aggregate(LeftMerge(upload.rows, products))
  {
    match upload
    case NoFile => NoUpload
    case Unreadable => ReadFailed
    case Sheet(columns, rows) =>
      match RenameHeader(columns)
      case None => ReadFailed
      case Some(_) => Aggregate(LeftMerge(rows, products))
  }

  /** The value `products_weight_sum` has after the upload tab: the 0 of
      app.py:85, replaced at app.py:108 only when every row resolved. */
  function ProductsWeight(outcome: BulkOutcome): (r: real)
    ensures outcome.Resolved? ==> r == outcome.weight
    ensures !outcome.Resolved? ==> r == 0.0
  {
    if outcome.Resolved? then outcome.weight else 0.0
  }

  // ---------------------------------------------------------------------
  // The merge row by row
  // ---------------------------------------------------------------------

  /** The merge handles each upload row on its own: merging a concatenation
      concatenates the merges, so upload order is kept. */
  lemma {:induction false} LeftMergeAppend(a: seq<UploadRow>, b: seq<UploadRow>, products: seq<Product>)
    ensures LeftMerge(a + b, products) == LeftMerge(a, products) + LeftMerge(b, products)
  {
    if a == [] {
      assert a + b == b;
    } else {
      assert (a + b)[0] == a[0];
      assert (a + b)[1..] == a[1..] + b;
      LeftMergeAppend(a[1..], b, products);
    }
  }

  /** The 1ポリ重量 of the first product row named `code`, or None when
      there is no such row or its cell is empty. */
  function WeightOf(products: seq<Product>, code: string): (r: Option<real>)
    ensures r.Some? ==> exists i :: 0 <= i < |products| && products[i].name == code && products[i].unitWeight == r
  {
    match FindProduct(products, code)
    case None => None
    case Some(p) => p.unitWeight
  }

  /** With unique names, a code matches at most the one row that has it. */
  lemma {:induction false} MatchesUnique(products: seq<Product>, code: string)
    requires UniqueNames(products)
    ensures Matches(products, code) == match FindProduct(products, code)
                                       case None => []
                                       case Some(p) => [p]
  {
    if products != [] {
      var tail := products[1..];
      assert UniqueNames(tail) by {
        forall i, j | 0 <= i < j < |tail| ensures tail[i].name != tail[j].name {
          assert tail[i] == products[i + 1] && tail[j] == products[j + 1];
        }
      }
      MatchesUnique(tail, code);
      if products[0].name == code {
        assert FindProduct(products, code) == Some(products[0]);
        assert FindProduct(tail, code).None? by {
          forall i | 0 <= i < |tail| ensures tail[i].name != code {
            assert tail[i] == products[i + 1];
          }
        }
      } else if exists i :: 0 <= i < |products| && products[i].name == code {
        var i :| 0 <= i < |products| && products[i].name == code;
        FindProductUnique(products, i);
        assert i > 0 && tail[i - 1] == products[i];
        FindProductUnique(tail, i - 1);
      } else {
        assert FindProduct(tail, code).None? by {
          forall i | 0 <= i < |tail| ensures tail[i].name != code {
            assert tail[i] == products[i + 1];
          }
        }
      }
    }
  }

  /** With unique 品名, one upload row merges into one row. */
  lemma MergeRowUnique(products: seq<Product>, u: UploadRow)
    requires UniqueNames(products)
    ensures MergeRow(products, u) == [MergedRow(u.code, u.quantity, WeightOf(products, u.code))]
  {
    MatchesUnique(products, u.code);
    match FindProduct(products, u.code)
    case None =>
    case Some(p) =>
      var r := MergeRow(products, u);
      assert |r| == 1 && r[0] == MergedRow(u.code, u.quantity, p.unitWeight);
  }

  /** With unique 品名, the left merge gives exactly one row per upload row,
      in upload order, carrying the weight of the product with that name. */
  lemma {:induction false} LeftMergeUnique(upload: seq<UploadRow>, products: seq<Product>)
    requires UniqueNames(products)
    ensures |LeftMerge(upload, products)| == |upload|
    ensures forall i :: 0 <= i < |upload| ==>
      LeftMerge(upload, products)[i] == MergedRow(upload[i].code, upload[i].quantity, WeightOf(products, upload[i].code))
  {
    if upload != [] {
      MergeRowUnique(products, upload[0]);
      LeftMergeUnique(upload[1..], products);
      var r := LeftMerge(upload, products);
      forall i | 0 <= i < |upload|
        ensures r[i] == MergedRow(upload[i].code, upload[i].quantity, WeightOf(products, upload[i].code))
      {
        if i > 0 { assert upload[1..][i - 1] == upload[i]; }
      }
    }
  }

  /** With unique 品名, a merged row has a weight exactly when a product row
      with that name exists and its weight cell is not empty. */
  lemma WeightOfUnique(products: seq<Product>, code: string)
    requires UniqueNames(products)
    ensures WeightOf(products, code).Some? <==>
      exists i :: 0 <= i < |products| && products[i].name == code && products[i].unitWeight.Some?
    ensures forall i :: 0 <= i < |products| && products[i].name == code ==>
      WeightOf(products, code) == products[i].unitWeight
  {
    forall i | 0 <= i < |products| && products[i].name == code
      ensures WeightOf(products, code) == products[i].unitWeight
    {
      FindProductUnique(products, i);
    }
  }

  // ---------------------------------------------------------------------
  // Unknown codes and the guarded sum
  // ---------------------------------------------------------------------

  /** The 型番 values of the upload rows whose code resolves to no weight,
      in upload order, duplicates kept. */
  function UnresolvedCodes(upload: seq<UploadRow>, products: seq<Product>): seq<string> {
    if upload == [] then []
    else (if WeightOf(products, upload[0].code).None? then [upload[0].code] else [])
         + UnresolvedCodes(upload[1..], products)
  }

  /** With unique 品名 the unknown list is exactly the codes of the upload
      rows that found no weight, in row order with duplicates kept. */
  lemma {:induction false} UnknownCodesOfMerge(upload: seq<UploadRow>, products: seq<Product>)
    requires UniqueNames(products)
    ensures UnknownCodes(LeftMerge(upload, products)) == UnresolvedCodes(upload, products)
  {
    if upload != [] {
      MergeRowUnique(products, upload[0]);
      UnknownCodesOfMerge(upload[1..], products);
      var head := MergeRow(products, upload[0]);
      var tail := LeftMerge(upload[1..], products);
      assert |head| == 1 && head[0].unitWeight == WeightOf(products, upload[0].code);
      UnknownCodesAppend(head, tail);
    }
  }

  lemma {:induction false} UnknownCodesAppend(a: seq<MergedRow>, b: seq<MergedRow>)
    ensures UnknownCodes(a + b) == UnknownCodes(a) + UnknownCodes(b)
  {
    if a == [] {
      assert a + b == b;
    } else {
      assert (a + b)[0] == a[0];
      assert (a + b)[1..] == a[1..] + b;
      UnknownCodesAppend(a[1..], b);
    }
  }

  lemma {:induction false} SumPresentAppend(a: seq<Option<real>>, b: seq<Option<real>>)
    ensures SumPresent(a + b) == SumPresent(a) + SumPresent(b)
  {
    if a == [] {
      assert a + b == b;
    } else {
      assert (a + b)[0] == a[0];
      assert (a + b)[1..] == a[1..] + b;
      SumPresentAppend(a[1..], b);
    }
  }

  /** The three facts the upload tab reads off the merged table of an
      upload: the sum of its 小計重量, whether a 1ポリ重量 is missing, and the
      unknown codes. */
  function MergedTotal(upload: seq<UploadRow>, products: seq<Product>): real {
    SumPresent(Subtotals(LeftMerge(upload, products)))
  }

  predicate MergedMissing(upload: seq<UploadRow>, products: seq<Product>) {
    MissingWeight(LeftMerge(upload, products))
  }

  function MergedUnknown(upload: seq<UploadRow>, products: seq<Product>): seq<string> {
    UnknownCodes(LeftMerge(upload, products))
  }

  /** All three are additive over the concatenation of uploads. */
  lemma {:induction false} MergeStatsAppend(a: seq<UploadRow>, b: seq<UploadRow>, products: seq<Product>)
    ensures MergedTotal(a + b, products) == MergedTotal(a, products) + MergedTotal(b, products)
    ensures MergedMissing(a + b, products) <==> MergedMissing(a, products) || MergedMissing(b, products)
    ensures MergedUnknown(a + b, products) == MergedUnknown(a, products) + MergedUnknown(b, products)
  {
    var ma, mb := LeftMerge(a, products), LeftMerge(b, products);
    LeftMergeAppend(a, b, products);
    SubtotalsAppend(ma, mb);
    SumPresentAppend(Subtotals(ma), Subtotals(mb));
    UnknownCodesAppend(ma, mb);
    assert MergedMissing(a + b, products) <==> UnknownCodes(ma + mb) != [];
  }

  lemma SubtotalsAppend(a: seq<MergedRow>, b: seq<MergedRow>)
    ensures Subtotals(a + b) == Subtotals(a) + Subtotals(b)
  {
  }

  /** Every row adds its own subtotal: appending a row (a duplicate 型番
      included) adds its subtotals to the total, and the total is withheld
      if either part has an unknown product. */
  lemma {:induction false} AggregateAppend(a: seq<UploadRow>, b: seq<UploadRow>, products: seq<Product>)
    ensures var r, ra, rb := Aggregate(LeftMerge(a + b, products)), Aggregate(LeftMerge(a, products)),
                             Aggregate(LeftMerge(b, products));
      && (r.Resolved? <==> ra.Resolved? && rb.Resolved?)
      && (r.Resolved? ==> r.weight == ra.weight + rb.weight)
      && (r.Unknown? ==> r.codes == (if ra.Unknown? then ra.codes else []) + (if rb.Unknown? then rb.codes else []))
  {
    MergeStatsAppend(a, b, products);
  }

  /** The expected weight of an upload computed row by row from the master:
      Σ 数量 × 1ポリ重量, a row without a weight or quantity adding nothing. */
  function ExpectedWeight(upload: seq<UploadRow>, products: seq<Product>): real {
    if upload == [] then 0.0
    else
      var w := WeightOf(products, upload[0].code);
      var q := upload[0].quantity;
      (if w.Some? && q.Some? then Weigh(q.value, w.value) else 0.0) + ExpectedWeight(upload[1..], products)
  }

  /** With unique 品名 and every code known, the upload tab reports
      Σ 数量 × 1ポリ重量 over the upload rows; otherwise it reports the
      unknown codes and no total. */
  lemma {:induction false} AggregateOfUpload(upload: seq<UploadRow>, products: seq<Product>)
    requires UniqueNames(products)
    ensures var r := Aggregate(LeftMerge(upload, products));
      && (r.Resolved? <==> forall i :: 0 <= i < |upload| ==> WeightOf(products, upload[i].code).Some?)
      && (r.Resolved? ==> r.weight == ExpectedWeight(upload, products))
      && (r.Unknown? ==> r.codes == UnresolvedCodes(upload, products))
  {
    LeftMergeUnique(upload, products);
    UnknownCodesOfMerge(upload, products);
    var m := LeftMerge(upload, products);
    assert MissingWeight(m) <==> exists i :: 0 <= i < |upload| && WeightOf(products, upload[i].code).None? by {
      if MissingWeight(m) {
        var i :| 0 <= i < |m| && m[i].unitWeight.None?;
        assert WeightOf(products, upload[i].code).None?;
      }
    }
    if !MissingWeight(m) {
      ExpectedWeightOfMerge(upload, products);
    }
  }

  lemma {:induction false} ExpectedWeightOfMerge(upload: seq<UploadRow>, products: seq<Product>)
    requires UniqueNames(products)
    ensures SumPresent(Subtotals(LeftMerge(upload, products))) == ExpectedWeight(upload, products)
  {
    if upload != [] {
      MergeRowUnique(products, upload[0]);
      ExpectedWeightOfMerge(upload[1..], products);
      var tail := LeftMerge(upload[1..], products);
      var row := MergedRow(upload[0].code, upload[0].quantity, WeightOf(products, upload[0].code));
      assert LeftMerge(upload, products) == [row] + tail;
      SumOfSubtotalsCons(row, tail);
    }
  }

  lemma SumOfSubtotalsCons(row: MergedRow, tail: seq<MergedRow>)
    ensures SumPresent(Subtotals([row] + tail))
         == (if Subtotal(row).Some? then Subtotal(row).value else 0.0) + SumPresent(Subtotals(tail))
  {
    assert Subtotals([row] + tail)[1..] == Subtotals(tail);
  }

  /** Removing one occurrence of `b[j]` from a permutation of `[b[j]] + tail`
      leaves a permutation of `tail`. */
  lemma PermutationRemove(a: seq<UploadRow>, b: seq<UploadRow>, j: nat)
    requires a != [] && j < |b| && b[j] == a[0] && multiset(a) == multiset(b)
    ensures b == b[..j] + [b[j]] + b[j + 1..]
    ensures multiset(a[1..]) == multiset(b[..j] + b[j + 1..])
  {
    var x, left, right := a[0], b[..j], b[j + 1..];
    assert b == left + [x] + right;
    assert a == [x] + a[1..];
    assert multiset(b) == multiset(left) + multiset{x} + multiset(right);
    assert multiset(left + right) == multiset(left) + multiset(right);
    assert multiset(a[1..]) == multiset(a) - multiset{x};
    assert multiset(left + right) == multiset(b) - multiset{x};
  }

  /** Order independence: uploads that are permutations of each other give
      the same sum of subtotals, the same "some weight is missing" verdict,
      and the same unknown codes up to order, whether or not 品名 is unique. */
  lemma {:induction false} MergeStatsPermuted(a: seq<UploadRow>, b: seq<UploadRow>, products: seq<Product>)
    requires multiset(a) == multiset(b)
    ensures MergedTotal(a, products) == MergedTotal(b, products)
    ensures MergedMissing(a, products) <==> MergedMissing(b, products)
    ensures multiset(MergedUnknown(a, products)) == multiset(MergedUnknown(b, products))
  {
    if a == [] {
      assert |multiset(b)| == 0;
    } else {
      var x := a[0];
      assert x in multiset(b);
      var j :| 0 <= j < |b| && b[j] == x;
      var rest, left, right := a[1..], b[..j], b[j + 1..];
      PermutationRemove(a, b, j);
      MergeStatsPermuted(rest, left + right, products);
      assert a == [x] + rest;
      MergeStatsAppend([x], rest, products);
      assert b == (left + [x]) + right;
      MergeStatsAppend(left + [x], right, products);
      MergeStatsAppend(left, [x], products);
      MergeStatsAppend(left, right, products);
    }
  }

  /** So the upload tab's outcome does not depend on the order of the rows. */
  lemma {:induction false} AggregateOrderIndependent(a: seq<UploadRow>, b: seq<UploadRow>, products: seq<Product>)
    requires multiset(a) == multiset(b)
    ensures var ra, rb := Aggregate(LeftMerge(a, products)), Aggregate(LeftMerge(b, products));
      && (ra.Resolved? <==> rb.Resolved?)
      && (ra.Resolved? ==> ra.weight == rb.weight)
      && (ra.Unknown? ==> multiset(ra.codes) == multiset(rb.codes))
  {
    MergeStatsPermuted(a, b, products);
  }
}
