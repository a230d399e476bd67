/** Worked examples of the model on small master tables. */
module Scenarios {
  import opened Wrappers
  import opened Master
  import opened Bulk
  import opened Shipment

  const P1 := Product("P1", Some(2.5))
  const PAL1 := Pallet("PAL1", Some(15.0))
  const ProductHeader := ["品名", "1ポリ重量"]
  const PalletHeader := ["パレット名", "重量kg"]

  /** An upload naming a product that is not in the master reports that
      code and no total. */
  lemma UnknownProductReported()
    ensures Aggregate(LeftMerge([UploadRow("P1", Some(4)), UploadRow("P2", Some(3))], [P1])) == Unknown(["P2"])
  {
    var u := [UploadRow("P1", Some(4)), UploadRow("P2", Some(3))];
    FindProductUnique([P1], 0);
    assert WeightOf([P1], "P1") == Some(2.5);
    assert FindProduct([P1], "P2").None?;
    assert WeightOf([P1], "P2").None?;
    AggregateOfUpload(u, [P1]);
    assert u[1..] == [u[1]] && u[1..][1..] == [];
    assert UnresolvedCodes(u, [P1]) == [] + UnresolvedCodes(u[1..], [P1]);
    assert UnresolvedCodes(u[1..], [P1]) == ["P2"] + UnresolvedCodes([], [P1]);
  }

  /** Two rows with the same 型番 each add their own subtotal. */
  lemma DuplicateCodesAdd()
    ensures Aggregate(LeftMerge([UploadRow("P1", Some(4)), UploadRow("P1", Some(6))], [P1])) == Resolved(25.0)
  {
    var u := [UploadRow("P1", Some(4)), UploadRow("P1", Some(6))];
    FindProductUnique([P1], 0);
    assert WeightOf([P1], "P1") == Some(2.5);
    AggregateOfUpload(u, [P1]);
    assert u[1..] == [u[1]] && u[1..][1..] == [];
    assert ExpectedWeight(u[1..], [P1]) == 15.0 + ExpectedWeight([], [P1]);
    assert ExpectedWeight(u, [P1]) == 10.0 + ExpectedWeight(u[1..], [P1]);
  }

  /** A known product with an empty 数量 cell has a missing subtotal, which
      the sum skips: the upload resolves and the row adds nothing. */
  lemma BlankQuantityAddsNothing()
    ensures Aggregate(LeftMerge([UploadRow("P1", Some(4)), UploadRow("P1", None)], [P1])) == Resolved(10.0)
  {
    var u := [UploadRow("P1", Some(4)), UploadRow("P1", None)];
    FindProductUnique([P1], 0);
    assert WeightOf([P1], "P1") == Some(2.5);
    AggregateOfUpload(u, [P1]);
    assert u[1..] == [u[1]] && u[1..][1..] == [];
    assert ExpectedWeight(u[1..], [P1]) == 0.0 + ExpectedWeight([], [P1]);
    assert ExpectedWeight(u, [P1]) == 10.0 + ExpectedWeight(u[1..], [P1]);
  }

  /** The headers of the example sheets are already clean. */
  lemma ExampleHeadersClean()
    ensures StripHeaders(ProductHeader) == ProductHeader
    ensures StripHeaders(PalletHeader) == PalletHeader
  {
    Text.StripOfTrimmed(ProductHeader[0]);
    Text.StripOfTrimmed(ProductHeader[1]);
    Text.StripOfTrimmed(PalletHeader[0]);
    Text.StripOfTrimmed(PalletHeader[1]);
  }

  /** With nothing uploaded the product weight is 0 and the total is the
      pallet alone, even though tab 1 computed 2.5 × 10 = 25. */
  method SingleEntryNotInTotal() returns (outcome: Outcome)
    ensures outcome.Shown?
    ensures outcome.report.singleEntryWeight == Some(25.0)
    ensures outcome.report.productsWeight == 0.0
    ensures outcome.report.total == Some(15.0)
  {
    var products := Some(ProductTable(ProductHeader, [P1]));
    var pallets := Some(PalletTable(PalletHeader, [PAL1]));
    ExampleHeadersClean();
    var m := MasterData(ProductTable(ProductHeader, [P1]), PalletTable(PalletHeader, [PAL1]));
    assert LoadData(products, pallets) == Some(m);
    assert PalletNameColumn in PalletHeader && PalletWeightColumn in PalletHeader;
    assert ProductNameColumn in ProductHeader && UnitWeightColumn in ProductHeader;
    FindProductUnique([P1], 0);
    assert FindPallet([PAL1], "PAL1") == Some(PAL1);
    outcome := RunScript(products, pallets, "P1", 10, NoFile, "PAL1");
  }

  /** A 品名 listed twice in the master doubles the upload row it matches:
      one P1 row of 4 at 2.5 kg weighs 20 kg, not 10. */
  lemma DuplicateNameDoubles()
    ensures LeftMerge([UploadRow("P1", Some(4))], [P1, P1])
         == [MergedRow("P1", Some(4), Some(2.5)), MergedRow("P1", Some(4), Some(2.5))]
    ensures Aggregate(LeftMerge([UploadRow("P1", Some(4))], [P1, P1])) == Resolved(20.0)
  {
    var u := UploadRow("P1", Some(4));
    MatchesCount([P1, P1], "P1");
    MatchesAppend([P1], [P1], "P1");
    assert Matches([P1], "P1") == [P1];
    assert [P1] + [P1] == [P1, P1];
    var m := LeftMerge([u], [P1, P1]);
    assert m == MergeRow([P1, P1], u) + LeftMerge([], [P1, P1]);
    var row := MergedRow("P1", Some(4), Some(2.5));
    assert m == [row, row];
    assert [row] + [row] == m && [row] + [] == [row];
    SumOfSubtotalsCons(row, [row]);
    SumOfSubtotalsCons(row, []);
    assert SumPresent(Subtotals(m)) == 20.0;
    assert !MissingWeight(m);
  }

  /** An uploaded sheet with a header but no rows resolves to 0 kg, so the
      total is the pallet weight alone. */
  method EmptyUploadTotalIsPallet() returns (outcome: Outcome)
    ensures outcome.Shown?
    ensures outcome.report.bulk == Resolved(0.0)
    ensures outcome.report.productsWeight == 0.0
    ensures outcome.report.total == Some(15.0)
  {
    var products := Some(ProductTable(ProductHeader, [P1]));
    var pallets := Some(PalletTable(PalletHeader, [PAL1]));
    ExampleHeadersClean();
    var m := MasterData(ProductTable(ProductHeader, [P1]), PalletTable(PalletHeader, [PAL1]));
    assert LoadData(products, pallets) == Some(m);
    assert PalletNameColumn in PalletHeader && PalletWeightColumn in PalletHeader;
    assert ProductNameColumn in ProductHeader && UnitWeightColumn in ProductHeader;
    FindProductUnique([P1], 0);
    assert FindPallet([PAL1], "PAL1") == Some(PAL1);
    outcome := RunScript(products, pallets, "P1", 10, Sheet(["型番", "数量"], []), "PAL1");
  }
}
