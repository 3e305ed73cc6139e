/** The quick add/remove form: its select and quantity state, the submit
    guard, the delta it sends, and the messages it shows. */
module QuickStockUpdate {
  import opened Wrappers
  import opened Toasts
  import opened Strings
  import ItemModel
  import Resolvers

  datatype Operation = Add | Remove

  /** The `operation` argument's text. */
  function OperationName(op: Operation): string {
    match op
    case Add => "add"
    case Remove => "remove"
  }

  /** The variables of the `updateItem` mutation the form sends. */
  datatype UpdateRequest = UpdateRequest(id: string, quantity: int, mode: string)

  /** How the sent mutation ended: it resolved (with or without `data`),
      it rejected with an `ApolloError` (its first GraphQL error's message and
      its network error's message, when present), or it rejected otherwise. */
  datatype MutationOutcome =
    | Resolved(hasData: bool)
    | ApolloFailure(graphQLMessage: Option<string>, networkMessage: Option<string>)
    | OtherFailure

  const SelectItemMessage := "Please select an item"
  const PositiveQuantityMessage := "Quantity must be greater than 0"
  const UpdateFailedMessage := "Failed to update stock"
  const UnexpectedMessage := "An unexpected error occurred"

  /** The guard before sending: a selection first, then a positive quantity. */
  function GuardError(selectedItem: string, quantity: int): (r: Option<string>)
    ensures r == Some(SelectItemMessage) <==> selectedItem == ""
    ensures r == Some(PositiveQuantityMessage) <==> selectedItem != "" && quantity <= 0
    ensures r.None? <==> selectedItem != "" && quantity > 0
  {
    if selectedItem == "" then Some(SelectItemMessage)
    else if quantity <= 0 then Some(PositiveQuantityMessage)
    else None
  }

  /** The signed change: `+quantity` to add, `-quantity` to remove. For a
      positive amount, adding raises and removing lowers the stock by it. */
  function Delta(op: Operation, quantity: int): (r: int)
    ensures r == quantity || r == -quantity
    ensures quantity > 0 ==> (r > 0 <==> op.Add?) && (r < 0 <==> op.Remove?)
  {
    if op == Add then quantity else -quantity
  }

  /** The `input` of the mutation: only the signed quantity is supplied. */
  function QuickInput(op: Operation, quantity: int): (r: Resolvers.UpdateItemInput)
    ensures r.quantity == Some(Delta(op, quantity))
    ensures r.name.None? && r.minThreshold.None? && r.category.None?
  {
    Resolvers.UpdateItemInput(None, Some(Delta(op, quantity)), None, None)
  }

  /** Through the QUICK resolver, adding an amount to a stored item always
      succeeds, and removing the same amount afterwards restores the
      collection exactly. Removing succeeds exactly when the stock covers it. */
  lemma AddThenRemoveRestores(s: Resolvers.Store, id: ItemModel.ItemId, quantity: int)
    requires s.Valid() && id in s.items && quantity > 0
    ensures var add := Resolvers.Update(s, id, QuickInput(Add, quantity), "QUICK");
            && add.result.Success? && add.result.value.Some?
            && add.store.items[id].quantity == s.items[id].quantity + quantity
            && Resolvers.Update(add.store, id, QuickInput(Remove, quantity), "QUICK").store == s
    ensures Resolvers.Update(s, id, QuickInput(Remove, quantity), "QUICK").result.Success?
            <==> s.items[id].quantity >= quantity
  {
    var item := s.items[id];
    assert ItemModel.ValidItem(item);
    var add := Resolvers.Update(s, id, QuickInput(Add, quantity), "QUICK");
    Resolvers.QuickApplies(s, id, QuickInput(Add, quantity));
    var raised := add.store.items[id];
    assert raised == item.(quantity := item.quantity + quantity);
    var back := Resolvers.Update(add.store, id, QuickInput(Remove, quantity), "QUICK");
    Resolvers.QuickApplies(add.store, id, QuickInput(Remove, quantity));
    assert back.store.items[id] == item;
    assert back.store.items == s.items;
    if item.quantity < quantity {
      Resolvers.QuickRejectsBelowZero(s, id, QuickInput(Remove, quantity));
    } else {
      Resolvers.QuickApplies(s, id, QuickInput(Remove, quantity));
    }
  }

  /** The request a guarded update sends: the trimmed id, the signed quantity, QUICK mode. */
  function Request(selectedItem: string, quantity: int, op: Operation): (r: UpdateRequest)
    ensures r.id == Trim(selectedItem) && r.mode == "QUICK"
    ensures r.quantity == Delta(op, quantity)
  {
    UpdateRequest(Trim(selectedItem), Delta(op, quantity), "QUICK")
  }

  /** `Successfully ${operation}ed stock`: the template appends "ed" to the
      operation's name as it is. */
  function SuccessMessage(op: Operation): (r: string)
    ensures op == Add ==> r == "Successfully added stock"
    ensures op == Remove ==> r == "Successfully removeed stock"
  {
    assert "Successfully " + "add" + "ed stock" == "Successfully added stock";
    assert "Successfully " + "remove" + "ed stock" == "Successfully removeed stock";
    "Successfully " + OperationName(op) + "ed stock"
  }

  /** The `ApolloError` message: the first GraphQL error's message, else the
      network error's message, else the fallback (an empty message counts as none). */
  function ApolloMessage(graphQLMessage: Option<string>, networkMessage: Option<string>): (r: string)
    ensures r != ""
    ensures r == UpdateFailedMessage || Some(r) == graphQLMessage || Some(r) == networkMessage
  {
    if graphQLMessage.Some? && graphQLMessage.value != "" then graphQLMessage.value
    else if networkMessage.Some? && networkMessage.value != "" then networkMessage.value
    else UpdateFailedMessage
  }

  /** The message shown is never empty, and it is a server-supplied message
      whenever one is available, the GraphQL one first. */
  lemma ApolloMessageChoice(graphQLMessage: Option<string>, networkMessage: Option<string>)
    ensures ApolloMessage(graphQLMessage, networkMessage) != ""
    ensures graphQLMessage.Some? && graphQLMessage.value != "" ==>
              ApolloMessage(graphQLMessage, networkMessage) == graphQLMessage.value
    ensures (graphQLMessage.None? || graphQLMessage.value == "") && networkMessage.Some? && networkMessage.value != "" ==>
              ApolloMessage(graphQLMessage, networkMessage) == networkMessage.value
    ensures (graphQLMessage.None? || graphQLMessage.value == "") && (networkMessage.None? || networkMessage.value == "") ==>
              ApolloMessage(graphQLMessage, networkMessage) == UpdateFailedMessage
  {
  }

  /** The toast for an outcome: success only when `data` came back. */
  function OutcomeToast(op: Operation, outcome: MutationOutcome): (r: Option<Toast>)
    ensures r.Some? && r.value.SuccessToast? <==> outcome.Resolved? && outcome.hasData
    ensures outcome.Resolved? && !outcome.hasData ==> r.None?
    ensures !outcome.Resolved? ==> r.Some? && r.value.ErrorToast? && r.value.message != ""
  {
    match outcome
    case Resolved(hasData) => if hasData then Some(SuccessToast(SuccessMessage(op))) else None
    case ApolloFailure(g, n) =>
      ApolloMessageChoice(g, n);
      Some(ErrorToast(ApolloMessage(g, n)))
    case OtherFailure => Some(ErrorToast(UnexpectedMessage))
  }

  /** The value the number input shows: `quantity || ''`. */
  function DisplayValue(quantity: int): (r: string)
    ensures r == "" <==> quantity == 0
  {
    if quantity == 0 then "" else IntToString(quantity)
  }

  /** The input's `onChange`: an empty input is 0, otherwise `Number(value)`.
      A number input reports either nothing or a numeric literal; only
      integer literals are modelled. */
  function QuantityFromInput(value: string): (r: int)
    requires value == "" || IsIntegerLiteral(value)
    ensures value == "" ==> r == 0
    ensures value != "" ==> r == IntegerLiteralValue(value)
  {
    if value == "" then 0 else IntegerLiteralValue(value)
  }

  /** Reading back what the input shows gives the quantity. */
  lemma DisplayRoundTrip(quantity: int)
    ensures var shown := DisplayValue(quantity);
            (shown == "" || IsIntegerLiteral(shown)) && QuantityFromInput(shown) == quantity
  {
    if quantity != 0 {
      IntegerLiteralRoundTrip(quantity);
    }
  }

  /** Add and Remove are disabled while updating or when the quantity is 0. */
  function ButtonsDisabled(updating: bool, quantity: int): (r: bool)
    ensures r <==> updating || quantity == 0
  {
    updating || quantity == 0
  }

  /** A negative quantity leaves the buttons enabled, but the guard stops it. */
  lemma NegativeStoppedByGuard(selectedItem: string, quantity: int)
    requires selectedItem != "" && quantity < 0
    ensures !ButtonsDisabled(false, quantity) && GuardError(selectedItem, quantity) == Some(PositiveQuantityMessage)
  {
  }

  /** The component's state. */
  class QuickUpdateForm {
    var selectedItem: string
    var quantity: int

    constructor ()
      ensures selectedItem == "" && quantity == 0
    {
      selectedItem := "";
      quantity := 0;
    }

    /** The select's `onValueChange`. */
    method OnValueChange(value: string)
      modifies this
      ensures selectedItem == value && quantity == old(quantity)
    {
      selectedItem := value;
    }

    /** The quantity input's `onChange`. */
    method OnQuantityChange(value: string)
      requires value == "" || IsIntegerLiteral(value)
      modifies this
      ensures quantity == QuantityFromInput(value) && selectedItem == old(selectedItem)
    {
      if value == "" {
        quantity := 0;
      } else {
        quantity := IntegerLiteralValue(value);
      }
    }

    /** `handleUpdate`: the guard's error, or the request sent and the
      outcome's toast; only a success that returned data resets the form. */
    method HandleUpdate(op: Operation, outcome: MutationOutcome) returns (request: Option<UpdateRequest>, toast: Option<Toast>)
      modifies this
      ensures GuardError(old(selectedItem), old(quantity)).Some? ==>
                && request.None?
                && toast == Some(ErrorToast(GuardError(old(selectedItem), old(quantity)).value))
                && selectedItem == old(selectedItem) && quantity == old(quantity)
      ensures GuardError(old(selectedItem), old(quantity)).None? ==>
                && request == Some(Request(old(selectedItem), old(quantity), op))
                && toast == OutcomeToast(op, outcome)
      ensures GuardError(old(selectedItem), old(quantity)).None? && outcome == Resolved(true) ==>
                selectedItem == "" && quantity == 0
      ensures GuardError(old(selectedItem), old(quantity)).None? && outcome != Resolved(true) ==>
                selectedItem == old(selectedItem) && quantity == old(quantity)
    {
      if selectedItem == "" {
        return None, Some(ErrorToast(SelectItemMessage));
      }
      if quantity <= 0 {
        return None, Some(ErrorToast(PositiveQuantityMessage));
      }
      request := Some(UpdateRequest(Trim(selectedItem), if op == Add then quantity else -quantity, "QUICK"));
      match outcome {
        case Resolved(hasData) =>
          if hasData {
            toast := Some(SuccessToast("Successfully " + OperationName(op) + "ed stock"));
            quantity := 0;
            selectedItem := "";
          } else {
            toast := None;
          }
        case ApolloFailure(g, n) =>
          var message := UpdateFailedMessage;
          if g.Some? && g.value != "" {
            message := g.value;
          } else if n.Some? && n.value != "" {
            message := n.value;
          }
          toast := Some(ErrorToast(message));
        case OtherFailure =>
          toast := Some(ErrorToast(UnexpectedMessage));
      }
    }
  }
}
