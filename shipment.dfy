/** One run of the script from top to bottom (app.py:31-131): load the
    master, check the pallet header, run the single-entry tab, run the
    upload tab, pick the pallet and add up. Streamlit executes both tabs on
    every run, so both assignments to `products_weight_sum` happen in order. */
module Shipment {
  import opened Wrappers
  import opened Master
  import opened Bulk

  /** Why a run ends before the final figures are shown. */
  datatype Halt =
    | MasterUnreadable            // load_data() gave None: st.stop() at app.py:35
    | PalletNameColumnMissing     // the check at app.py:40-43
    | MissingColumn(column: string) // an uncaught KeyError when a column is read
    | NoMatchingRow(column: string) // an uncaught IndexError from .iloc[0]

  /** What a finished run has computed. All of it is displayed except
      `singleEntryWeight`: it is assigned at app.py:73 and overwritten at
      app.py:85 before anything reads it. */
  datatype Report = Report(
    unitWeight: Option<real>,         // the 1ポリ重量 displayed in tab 1 (app.py:67)
    singleEntryWeight: Option<real>,  // unit weight times quantity (app.py:73), never displayed
    bulk: BulkOutcome,                // what tab 2 reported
    productsWeight: real,             // products_weight_sum as read at app.py:131
    palletWeight: Option<real>,
    total: Option<real>)

  datatype Outcome = Stopped(reason: Halt) | Shown(report: Report)

  /** The shipment total of app.py:131: the product weight plus the pallet
      weight; an empty pallet weight cell gives NaN. */
  function AddPallet(productsWeight: real, palletWeight: Option<real>): (r: Option<real>)
    ensures r.None? <==> palletWeight.None?
    ensures r.Some? ==> r.value == productsWeight + palletWeight.value
    ensures r.Some? && productsWeight == 0.0 ==> r == palletWeight
  {
    match palletWeight
    case None => None
    case Some(w) => Some(productsWeight + w)
  }

  /** The script run. `quantity` comes from the number input of app.py:70,
      whose minimum is 1; the two selections come from the select boxes of
      app.py:57 and app.py:121. */
  method RunScript(products: Option<ProductTable>, pallets: Option<PalletTable>,
                   selectedProduct: string, quantity: int, upload: Upload,
                   selectedPallet: string)
    returns (outcome: Outcome)
    requires quantity >= 1
    ensures products.None? || pallets.None? <==> outcome == Stopped(MasterUnreadable)
    ensures var m := LoadData(products, pallets);
      m.Some? ==>
      var cols, pcols, prows, qrows := m.value.products.columns, m.value.pallets.columns,
                                        m.value.products.rows, m.value.pallets.rows;
      && (PalletNameColumn !in pcols ==> outcome == Stopped(PalletNameColumnMissing))
      && (PalletNameColumn in pcols && ProductNameColumn !in cols ==>
            outcome == Stopped(MissingColumn(ProductNameColumn)))
      && (PalletNameColumn in pcols && ProductNameColumn in cols && FindProduct(prows, selectedProduct).None? ==>
            outcome == Stopped(NoMatchingRow(ProductNameColumn)))
      && (PalletNameColumn in pcols && ProductNameColumn in cols && FindProduct(prows, selectedProduct).Some?
          && UnitWeightColumn !in cols ==>
            outcome == Stopped(MissingColumn(UnitWeightColumn)))
      && (PalletNameColumn in pcols && ProductNameColumn in cols && FindProduct(prows, selectedProduct).Some?
          && UnitWeightColumn in cols && FindPallet(qrows, selectedPallet).None? ==>
            outcome == Stopped(NoMatchingRow(PalletNameColumn)))
      && (PalletNameColumn in pcols && ProductNameColumn in cols && FindProduct(prows, selectedProduct).Some?
          && UnitWeightColumn in cols && FindPallet(qrows, selectedPallet).Some? && PalletWeightColumn !in pcols ==>
            outcome == Stopped(MissingColumn(PalletWeightColumn)))
      && (outcome.Shown? <==>
            PalletNameColumn in pcols && ProductNameColumn in cols && UnitWeightColumn in cols
            && FindProduct(prows, selectedProduct).Some? && FindPallet(qrows, selectedPallet).Some?
            && PalletWeightColumn in pcols)
      && (outcome.Shown? ==>
            var r := outcome.report;
            && r.unitWeight == FindProduct(prows, selectedProduct).value.unitWeight
            && r.singleEntryWeight == Times(r.unitWeight, quantity)
            && r.bulk == BulkPath(upload, prows)
            // the single-entry weight never reaches the total: line 85 overwrites line 73
            && r.productsWeight == ProductsWeight(BulkPath(upload, prows))
            && r.palletWeight == FindPallet(qrows, selectedPallet).value.weight
            && r.total == AddPallet(r.productsWeight, r.palletWeight))
  {
    var master := LoadData(products, pallets);
    if master.None? {
      return Stopped(MasterUnreadable);
    }
    var productTable, palletTable := master.value.products, master.value.pallets;
    if PalletNameColumn !in palletTable.columns {
      return Stopped(PalletNameColumnMissing);
    }

    // tab 1: single entry
    if ProductNameColumn !in productTable.columns {
      return Stopped(MissingColumn(ProductNameColumn));
    }
    var productRow := FindProduct(productTable.rows, selectedProduct);
    if productRow.None? {
      return Stopped(NoMatchingRow(ProductNameColumn));
    }
    if UnitWeightColumn !in productTable.columns {
      return Stopped(MissingColumn(UnitWeightColumn));
    }
    var unitWeight := productRow.value.unitWeight;
    var productsWeightSum: Option<real> := Times(unitWeight, quantity);
    var singleEntryWeight := productsWeightSum;

    // tab 2: bulk upload
    productsWeightSum := Some(0.0);
    var bulk := BulkPath(upload, productTable.rows);
    if bulk.Resolved? {
      productsWeightSum := Some(bulk.weight);
    }

    // pallet and final total
    var palletRow := FindPallet(palletTable.rows, selectedPallet);
    if palletRow.None? {
      return Stopped(NoMatchingRow(PalletNameColumn));
    }
    if PalletWeightColumn !in palletTable.columns {
      return Stopped(MissingColumn(PalletWeightColumn));
    }
    var palletWeight := palletRow.value.weight;
    var total := AddPallet(productsWeightSum.value, palletWeight);
    outcome := Shown(Report(unitWeight, singleEntryWeight, bulk, productsWeightSum.value, palletWeight, total));
  }
}
