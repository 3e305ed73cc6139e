/** The stock-level table: the per-row status badge, the delete dialog's
    state and the CSV export guard. */
module CurrentStockLevels {
  import opened Wrappers
  import opened Toasts
  import ItemModel
  import Resolvers
  import CsvUtils

  /** The badge text and its colour class. */
  datatype StatusView = StatusView(status: string, color: string)

  const LowView := StatusView("LOW", "text-red-600")
  const GoodView := StatusView("GOOD", "text-green-600")

  /** `getStockStatus`: red LOW at or below the threshold, green GOOD above it. */
  function GetStockStatus(quantity: int, minThreshold: int): (r: StatusView)
    ensures r == LowView <==> quantity <= minThreshold
    ensures r == GoodView <==> quantity > minThreshold
  {
    if quantity <= minThreshold then LowView else GoodView
  }

  /** The table's badge, the `Item.stockStatus` field and the model's
      `isLowStock` all draw the same LOW boundary. */
  lemma StatusAgrees(item: ItemModel.Item)
    ensures GetStockStatus(item.quantity, item.minThreshold) == LowView
            <==> Resolvers.ItemStockStatus(item) == Resolvers.ApiStockStatus.LOW
    ensures GetStockStatus(item.quantity, item.minThreshold) == LowView <==> ItemModel.IsLowStock(item)
    ensures GetStockStatus(item.quantity, item.minThreshold) == LowView
            <==> ItemModel.StockStatusOf(item.quantity, item.minThreshold) == ItemModel.StockStatus.LOW
  {
  }

  /** A row's dialog is open when the dialog flag is set and the row's id is the one to delete. */
  predicate RowDialogOpen(isDeleteDialogOpen: bool, itemToDelete: Option<string>, rowId: string): (r: bool)
    ensures r ==> isDeleteDialogOpen && itemToDelete.Some? && itemToDelete.value == rowId
  {
    isDeleteDialogOpen && itemToDelete == Some(rowId)
  }

  /** At most one row's dialog is open at a time, and none once `itemToDelete` is cleared. */
  lemma AtMostOneDialog(isDeleteDialogOpen: bool, itemToDelete: Option<string>, a: string, b: string)
    ensures RowDialogOpen(isDeleteDialogOpen, itemToDelete, a) && RowDialogOpen(isDeleteDialogOpen, itemToDelete, b) ==> a == b
    ensures itemToDelete.None? ==> !RowDialogOpen(isDeleteDialogOpen, itemToDelete, a)
  {
  }

  /** `handleDelete`'s request: the id to delete, unless it is null or empty. */
  function DeleteRequest(itemToDelete: Option<string>): (r: Option<string>)
    ensures r.Some? <==> itemToDelete.Some? && itemToDelete.value != ""
    ensures r.Some? ==> r == itemToDelete
  {
    if itemToDelete.Some? && itemToDelete.value != "" then itemToDelete else None
  }

  const DeletedMessage := "Item deleted successfully"

  /** The file the export offers: its content and its name. */
  datatype CsvFile = CsvFile(content: string, filename: string)

  /** `handleExportCSV`: nothing before the items have loaded; otherwise the
      CSV of the loaded items, named after today's date (an empty list still
      exports the header line). */
  function ExportCSV(items: Option<seq<CsvUtils.StockItem>>, today: string): (r: Option<CsvFile>)
    ensures r.Some? <==> items.Some?
    ensures r.Some? ==> r.value.content == CsvUtils.ConvertToCSV(items.value)
    ensures r.Some? ==> r.value.filename == "stock-levels-" + today + ".csv"
  {
    if items.None? then None
    else Some(CsvFile(CsvUtils.ConvertToCSV(items.value), "stock-levels-" + today + ".csv"))
  }

  /** Loaded but empty, the export is the header line alone. */
  lemma ExportEmpty(today: string)
    ensures ExportCSV(Some([]), today) == Some(CsvFile(CsvUtils.Header, "stock-levels-" + today + ".csv"))
  {
    CsvUtils.EmptyIsHeader();
  }

  /** The component's delete-dialog state. */
  class DeleteDialog {
    var isDeleteDialogOpen: bool
    var itemToDelete: Option<string>

    constructor ()
      ensures !isDeleteDialogOpen && itemToDelete.None?
    {
      isDeleteDialogOpen := false;
      itemToDelete := None;
    }

    /** Whether the row with this id shows its dialog. */
    predicate IsRowDialogOpen(rowId: string)
      reads this
    {
      RowDialogOpen(isDeleteDialogOpen, itemToDelete, rowId)
    }

    /** The row's delete button: remember the row and open the dialog. */
    method OnDeleteClick(rowId: string)
      modifies this
      ensures itemToDelete == Some(rowId) && isDeleteDialogOpen
      ensures IsRowDialogOpen(rowId)
    {
      itemToDelete := Some(rowId);
      isDeleteDialogOpen := true;
    }

    /** The dialog's `onOpenChange`: closing it also forgets the row. */
    method OnOpenChange(open: bool)
      modifies this
      ensures isDeleteDialogOpen == open
      ensures itemToDelete == if open then old(itemToDelete) else None
    {
      isDeleteDialogOpen := open;
      if !open {
        itemToDelete := None;
      }
    }

    /** The Cancel button. */
    method OnCancel()
      modifies this
      ensures !isDeleteDialogOpen && itemToDelete.None?
    {
      isDeleteDialogOpen := false;
      itemToDelete := None;
    }

    /** `handleDelete`: the id of the `deleteItem` request, if one is sent; the state is left as it is. */
    method HandleDelete() returns (request: Option<string>)
      ensures request == DeleteRequest(itemToDelete)
    {
      if itemToDelete.None? || itemToDelete.value == "" {
        return None;
      }
      request := itemToDelete;
    }

    /** `onCompleted` of the delete mutation. */
    method OnDeleteCompleted() returns (t: Toast)
      modifies this
      ensures t == SuccessToast(DeletedMessage)
      ensures !isDeleteDialogOpen && itemToDelete.None?
    {
      t := SuccessToast(DeletedMessage);
      isDeleteDialogOpen := false;
      itemToDelete := None;
    }

    /** `onError` of the delete mutation. */
    method OnDeleteError(message: string) returns (t: Toast)
      modifies this
      ensures t == ErrorToast("Error deleting item: " + message)
      ensures !isDeleteDialogOpen && itemToDelete.None?
    {
      t := ErrorToast("Error deleting item: " + message);
      isDeleteDialogOpen := false;
      itemToDelete := None;
    }
  }
}
