/** The GraphQL resolvers over the item collection: the `items`, `item` and
    `lowStockItems` queries, the `createItem`, `updateItem` and `deleteItem`
    mutations and the two-tier `Item.stockStatus` field. The collection is a
    map from id to document; Mongoose's `findOne`, `findById`,
    `findByIdAndUpdate`, `findByIdAndDelete` and `save` become map operations. */
module Resolvers {
  import opened Wrappers
  import opened Strings
  import opened ItemModel

  datatype CreateItemInput = CreateItemInput(name: string, quantity: int, minThreshold: int, category: Category)

  /** Every field optional; `None` is an absent (undefined) field. */
  datatype UpdateItemInput = UpdateItemInput(
    name: Option<string>, quantity: Option<int>, minThreshold: Option<int>, category: Option<Category>)

  /** A document together with its `_id`, as the mutations return it. */
  datatype StoredItem = StoredItem(id: ItemId, item: Item)

  /** What `updateItem` throws: the below-zero error, or a failed update validation. */
  datatype UpdateError = InvalidOperation(message: string) | Invalid(errors: seq<ValidationError>)

  const BelowZeroMessage := "Cannot reduce quantity below 0"

  /** The collection. Ids handed out so far are below `nextId`. */
  datatype Store = Store(items: map<ItemId, Item>, nextId: nat) {
    /** Every id is one handed out, and every stored document passed validation;
        in particular `quantity >= 0` holds of every item. */
    ghost predicate Valid() {
      && (forall id :: id in items ==> id < nextId)
      && (forall id :: id in items ==> ValidItem(items[id]))
    }
  }

  /** Writing a valid document under a handed-out id keeps the collection valid. */
  lemma WriteKeepsValid(s: Store, id: ItemId, doc: Item, nextId: nat)
    requires s.Valid() && ValidItem(doc) && s.nextId <= nextId && id < nextId
    ensures Store(s.items[id := doc], nextId).Valid()
  {
  }

  /** The collection after a call, and what the call returned. */
  datatype Step<R> = Step(store: Store, result: R)

  /** The regular expression `^name$` with the `i` flag, read as equality ignoring case. */
  predicate NameMatches(item: Item, name: string) {
    ToLower(item.name) == ToLower(name)
  }

  /** The first id in `[from, bound)`, in insertion order, whose name equals `key` ignoring case. */
  function FirstMatch(items: map<ItemId, Item>, key: string, from: nat, bound: nat): (r: Option<ItemId>)
    ensures r.Some? ==> from <= r.value < bound && r.value in items && ToLower(items[r.value].name) == key
    ensures r.Some? ==> forall id :: from <= id < r.value && id in items ==> ToLower(items[id].name) != key
    ensures r.None? ==> forall id :: from <= id < bound && id in items ==> ToLower(items[id].name) != key
    decreases bound - from
  {
    if from >= bound then None
    else if from in items && ToLower(items[from].name) == key then Some(from)
    else FirstMatch(items, key, from + 1, bound)
  }

  /** `Item.findOne` on the name: the earliest stored item matching ignoring case, if any. */
  function FindByName(s: Store, name: string): (r: Option<ItemId>)
    requires s.Valid()
    ensures r.Some? ==> r.value in s.items && NameMatches(s.items[r.value], name)
    ensures r.Some? ==> forall id :: id in s.items && id < r.value ==> !NameMatches(s.items[id], name)
    ensures r.None? <==> forall id :: id in s.items ==> !NameMatches(s.items[id], name)
  {
    FirstMatch(s.items, ToLower(name), 0, s.nextId)
  }

  /** The fields a merge writes: the quantities add up, a truthy (non-zero)
      threshold replaces the old one, the category is always given and replaces it. */
  function Merged(existing: Item, input: CreateItemInput): (r: Item)
    ensures r.name == existing.name && r.category == input.category
    ensures r.quantity - existing.quantity == input.quantity
    ensures input.minThreshold == 0 ==> r.minThreshold == existing.minThreshold
    ensures input.minThreshold != 0 ==> r.minThreshold == input.minThreshold
  {
    existing.(quantity := existing.quantity + input.quantity,
              minThreshold := if input.minThreshold != 0 then input.minThreshold else existing.minThreshold,
              category := input.category)
  }

  /** `new Item(input)`. */
  function NewDocument(input: CreateItemInput): (r: Item)
    ensures RawOf(r) == RawItem(input.name, input.quantity, input.minThreshold, CategoryName(input.category))
  {
    Item(input.name, input.quantity, input.minThreshold, input.category)
  }

  /** `createItem`: merge into the item whose name matches ignoring case, or
      insert a new one; the document is validated before the single write. */
  function Create(s: Store, input: CreateItemInput): (r: Step<Result<StoredItem, seq<ValidationError>>>)
    requires s.Valid()
    ensures r.store.Valid()
    ensures r.result.Failure? ==> r.store == s
    ensures r.result.Success? ==> r.store.items == s.items[r.result.value.id := r.result.value.item]
  {
    var existing := FindByName(s, input.name);
    if existing.Some? then
      var id := existing.value;
      var saved := ValidateDocument(Merged(s.items[id], input));
      if saved.Failure? then Step(s, Failure(saved.error))
      else
        WriteKeepsValid(s, id, saved.value, s.nextId);
        Step(Store(s.items[id := saved.value], s.nextId), Success(StoredItem(id, saved.value)))
    else
      var created := ValidateDocument(NewDocument(input));
      if created.Failure? then Step(s, Failure(created.error))
      else
        WriteKeepsValid(s, s.nextId, created.value, s.nextId + 1);
        Step(Store(s.items[s.nextId := created.value], s.nextId + 1), Success(StoredItem(s.nextId, created.value)))
  }

  /** The validators `runValidators` applies to the paths an update supplies.
      A supplied category is typed by the GraphQL enum and always passes
      (`TypedCategoryValid`). */
  function PatchErrors(input: UpdateItemInput): (r: seq<ValidationError>)
    ensures r == [] <==>
              && (input.name.Some? ==> 1 <= |Trim(input.name.value)| <= MaxNameLength)
              && (input.quantity.Some? ==> input.quantity.value >= 0)
              && (input.minThreshold.Some? ==> input.minThreshold.value >= 0)
  {
    (if input.name.Some? then Reported(NameError(input.name.value)) else [])
    + (if input.quantity.Some? then Reported(QuantityError(input.quantity.value)) else [])
    + (if input.minThreshold.Some? then Reported(MinThresholdError(input.minThreshold.value)) else [])
  }

  /** The document after `$set` of the supplied fields (the name through the `trim` setter). */
  function Patched(item: Item, input: UpdateItemInput): (r: Item)
    ensures r.name == if input.name.Some? then Trim(input.name.value) else item.name
    ensures input.quantity.None? ==> r.quantity == item.quantity
    ensures input.quantity.Some? ==> r.quantity == input.quantity.value
    ensures input.minThreshold.None? ==> r.minThreshold == item.minThreshold
    ensures input.minThreshold.Some? ==> r.minThreshold == input.minThreshold.value
    ensures input.category.None? ==> r.category == item.category
    ensures input.category.Some? ==> r.category == input.category.value
  {
    Item(if input.name.Some? then Trim(input.name.value) else item.name,
         if input.quantity.Some? then input.quantity.value else item.quantity,
         if input.minThreshold.Some? then input.minThreshold.value else item.minThreshold,
         if input.category.Some? then input.category.value else item.category)
  }

  /** `findByIdAndUpdate(id, input, {new: true, runValidators: true})`: the update
      is validated first, then applied to the document if it exists. */
  function FindByIdAndUpdate(s: Store, id: ItemId, input: UpdateItemInput): (r: Step<Result<Option<StoredItem>, UpdateError>>)
    requires s.Valid()
    ensures r.store.Valid() && r.store.nextId == s.nextId && r.store.items.Keys == s.items.Keys
    ensures r.result.Failure? ==> r.store == s && r.result.error == Invalid(PatchErrors(input))
    ensures r.result.Success? <==> PatchErrors(input) == []
    ensures r.result == Success(None) <==> PatchErrors(input) == [] && id !in s.items
    ensures r.result.Success? && r.result.value.None? ==> r.store == s
    ensures r.result.Success? && r.result.value.Some? ==>
              && id in s.items
              && r.result.value.value == StoredItem(id, Patched(s.items[id], input))
              && r.store.items == s.items[id := Patched(s.items[id], input)]
  {
    var errors := PatchErrors(input);
    if errors != [] then Step(s, Failure(Invalid(errors)))
    else if id !in s.items then Step(s, Success(None))
    else
      var doc := Patched(s.items[id], input);
      Step(s.(items := s.items[id := doc]), Success(Some(StoredItem(id, doc))))
  }

  /** `updateItem`: QUICK mode with a quantity adds it to the stored quantity
      (unknown id: null; a result below zero: the error); any other call is a
      direct FULL-mode update. */
  function Update(s: Store, id: ItemId, input: UpdateItemInput, mode: string): (r: Step<Result<Option<StoredItem>, UpdateError>>)
    requires s.Valid()
    ensures r.store.Valid() && r.store.nextId == s.nextId && r.store.items.Keys == s.items.Keys
    ensures r.result.Failure? ==> r.store == s
    ensures r.result.Success? && r.result.value.None? ==> r.store == s && id !in s.items
    ensures r.result.Success? && r.result.value.Some? ==>
              && id in s.items && r.result.value.value.id == id
              && r.store.items == s.items[id := r.result.value.value.item]
  {
    if mode == "QUICK" && input.quantity.Some? then
      if id !in s.items then Step(s, Success(None))
      else
        var newQuantity := s.items[id].quantity + input.quantity.value;
        if newQuantity < 0 then Step(s, Failure(InvalidOperation(BelowZeroMessage)))
        else FindByIdAndUpdate(s, id, input.(quantity := Some(newQuantity)))
    else FindByIdAndUpdate(s, id, input)
  }

  /** `deleteItem` (`findByIdAndDelete`): the removed document, or null when no document has that id. */
  function Delete(s: Store, id: ItemId): (r: Step<Option<StoredItem>>)
    requires s.Valid()
    ensures r.store.Valid() && r.store.nextId == s.nextId
    ensures r.result.Some? <==> id in s.items
    ensures r.result.Some? ==> r.result.value == StoredItem(id, s.items[id])
    ensures r.store.items.Keys == s.items.Keys - {id}
    ensures forall other :: other in r.store.items ==> r.store.items[other] == s.items[other]
  {
    if id in s.items then Step(s.(items := s.items - {id}), Some(StoredItem(id, s.items[id])))
    else Step(s, None)
  }

  /** A name matching an existing item ignoring case merges into that item:
      no document is added, the quantities add up, a zero threshold keeps the
      stored one, the category is replaced, and the save succeeds exactly when
      the merged numbers are non-negative. */
  lemma CreateMerges(s: Store, input: CreateItemInput)
    requires s.Valid() && FindByName(s, input.name).Some?
    ensures var id := FindByName(s, input.name).value; var old_ := s.items[id]; var r := Create(s, input);
            && r.store.nextId == s.nextId
            && r.store.items.Keys == s.items.Keys
            && |r.store.items| == |s.items|
            && (r.result.Success? <==>
                  old_.quantity + input.quantity >= 0 && (input.minThreshold != 0 ==> input.minThreshold >= 0))
            && (r.result.Success? ==>
                  && r.result.value.id == id
                  && r.result.value.item.name == old_.name
                  && r.result.value.item.quantity == old_.quantity + input.quantity
                  && r.result.value.item.minThreshold == (if input.minThreshold == 0 then old_.minThreshold else input.minThreshold)
                  && r.result.value.item.category == input.category)
  {
    var id := FindByName(s, input.name).value;
    var doc := Merged(s.items[id], input);
    ValidateWithValidName(doc);
    CreateAtMatch(s, input);
    if ValidateDocument(doc).Success? {
      OverwriteKeepsKeys(s.items, id, doc);
    }
  }

  /** The step `createItem` takes once the lookup has found `id`. */
  lemma CreateAtMatch(s: Store, input: CreateItemInput)
    requires s.Valid() && FindByName(s, input.name).Some?
    ensures var id := FindByName(s, input.name).value; var saved := ValidateDocument(Merged(s.items[id], input));
            Create(s, input) == if saved.Failure? then Step(s, Failure(saved.error))
                                else Step(Store(s.items[id := saved.value], s.nextId), Success(StoredItem(id, saved.value)))
  {
  }

  /** Overwriting a present key keeps the key set and the size. */
  lemma OverwriteKeepsKeys(m: map<ItemId, Item>, id: ItemId, v: Item)
    requires id in m
    ensures m[id := v].Keys == m.Keys && |m[id := v]| == |m|
  {
    assert m[id := v].Keys == m.Keys;
  }

  /** A name matching no stored item ignoring case inserts one new document
      under a fresh id, carrying the input's fields with the name trimmed. */
  lemma CreateInserts(s: Store, input: CreateItemInput)
    requires s.Valid() && FindByName(s, input.name).None?
    ensures var r := Create(s, input);
            && (r.result.Success? <==>
                  1 <= |Trim(input.name)| <= MaxNameLength && input.quantity >= 0 && input.minThreshold >= 0)
            && (r.result.Success? ==>
                  && r.result.value.id == s.nextId
                  && r.result.value.id !in s.items
                  && r.result.value.item == Item(Trim(input.name), input.quantity, input.minThreshold, input.category)
                  && r.store.items.Keys == s.items.Keys + {s.nextId}
                  && |r.store.items| == |s.items| + 1
                  && r.store.nextId == s.nextId + 1)
  {
    var r := Create(s, input);
    if r.result.Success? {
      assert s.nextId !in s.items;
      assert r.store.items.Keys == s.items.Keys + {s.nextId};
    }
  }

  /** A QUICK update taking the stored quantity below zero throws the
      below-zero error and writes nothing. */
  lemma QuickRejectsBelowZero(s: Store, id: ItemId, input: UpdateItemInput)
    requires s.Valid() && id in s.items && input.quantity.Some?
    requires s.items[id].quantity + input.quantity.value < 0
    ensures Update(s, id, input, "QUICK") == Step(s, Failure(InvalidOperation(BelowZeroMessage)))
  {
  }

  /** A QUICK update that keeps the quantity non-negative stores exactly the
      sum, writes the other supplied fields, and leaves every other item as it
      was; it fails only on an invalid name or threshold. */
  lemma QuickApplies(s: Store, id: ItemId, input: UpdateItemInput)
    requires s.Valid() && id in s.items && input.quantity.Some?
    requires s.items[id].quantity + input.quantity.value >= 0
    ensures var r := Update(s, id, input, "QUICK"); var old_ := s.items[id];
            && (r.result.Success? <==>
                  && (input.name.Some? ==> 1 <= |Trim(input.name.value)| <= MaxNameLength)
                  && (input.minThreshold.Some? ==> input.minThreshold.value >= 0))
            && (r.result.Failure? ==> r.store == s)
            && (r.result.Success? ==>
                  && r.result.value.Some?
                  && id in r.store.items
                  && r.store.items[id].quantity == old_.quantity + input.quantity.value
                  && r.store.items[id] == Patched(old_, input.(quantity := Some(old_.quantity + input.quantity.value)))
                  && (forall other :: other in s.items && other != id ==> r.store.items[other] == s.items[other]))
  {
  }

  /** A QUICK update on an unknown id resolves to null and writes nothing. */
  lemma QuickUnknownId(s: Store, id: ItemId, input: UpdateItemInput)
    requires s.Valid() && id !in s.items && input.quantity.Some?
    ensures Update(s, id, input, "QUICK") == Step(s, Success(None))
  {
  }

  /** A QUICK update without a quantity is a FULL update. */
  lemma QuickWithoutQuantityIsFull(s: Store, id: ItemId, input: UpdateItemInput)
    requires s.Valid() && input.quantity.None?
    ensures Update(s, id, input, "QUICK") == Update(s, id, input, "FULL")
  {
  }

  /** Patching the same fields twice is patching them once. */
  lemma PatchedIdempotent(item: Item, input: UpdateItemInput)
    ensures Patched(Patched(item, input), input) == Patched(item, input)
  {
    if input.name.Some? {
      TrimIdempotent(input.name.value);
    }
  }

  /** A direct (FULL) update sets only the supplied fields, so applying the
      same input again changes nothing and returns the same document. */
  lemma FullIdempotent(s: Store, id: ItemId, input: UpdateItemInput, mode: string)
    requires s.Valid() && (mode != "QUICK" || input.quantity.None?)
    ensures var once := Update(s, id, input, mode);
            Update(once.store, id, input, mode) == once
  {
    var once := Update(s, id, input, mode);
    if once.result.Success? && once.result.value.Some? {
      PatchedIdempotent(s.items[id], input);
      assert once.store.items[id := Patched(once.store.items[id], input)] == once.store.items;
    }
  }

  /** The GraphQL `StockStatus` enum. */
  datatype ApiStockStatus = LOW | GOOD

  /** The `Item.stockStatus` field resolver: LOW exactly when `quantity <= minThreshold`. */
  function ItemStockStatus(item: Item): (r: ApiStockStatus)
    ensures r == ApiStockStatus.LOW <==> IsLowStock(item)
    ensures r == ApiStockStatus.LOW <==> StockStatusOf(item.quantity, item.minThreshold) == StockStatus.LOW
  {
    if item.quantity <= item.minThreshold then ApiStockStatus.LOW else ApiStockStatus.GOOD
  }

  /** The item collection as the resolvers see it. */
  class ItemStore {
    var items: map<ItemId, Item>
    var nextId: nat

    function State(): Store
      reads this
    {
      Store(items, nextId)
    }

    ghost predicate Valid()
      reads this
    {
      State().Valid()
    }

    constructor ()
      ensures Valid() && items == map[]
    {
      items := map[];
      nextId := 0;
    }

    /** `Query.items`. */
    method AllItems() returns (r: map<ItemId, Item>)
      ensures r == items
    {
      r := items;
    }

    /** `Query.item`: the document with that id, or null. */
    method ItemById(id: ItemId) returns (r: Option<Item>)
      ensures r.Some? <==> id in items
      ensures r.Some? ==> r.value == items[id]
    {
      if id in items {
        r := Some(items[id]);
      } else {
        r := None;
      }
    }

    /** `Query.lowStockItems`: the items whose `stockStatus` is LOW, the same
        documents `findLowStock` selects. */
    method LowStockItems() returns (r: map<ItemId, Item>)
      ensures forall id :: id in r <==> id in items && ItemStockStatus(items[id]) == ApiStockStatus.LOW
      ensures forall id :: id in r ==> r[id] == items[id]
      ensures r == FindLowStock(items)
    {
      r := map id | id in items && items[id].quantity <= items[id].minThreshold :: items[id];
    }

    /** `Mutation.createItem`. */
    method CreateItem(input: CreateItemInput) returns (r: Result<StoredItem, seq<ValidationError>>)
      requires Valid()
      modifies this
      ensures Valid()
      ensures State() == Create(old(State()), input).store
      ensures r == Create(old(State()), input).result
    {
      ghost var spec := Create(State(), input);
      var normalizedName := ToLower(input.name);
      var existing := FirstMatch(items, normalizedName, 0, nextId);
      assert existing == FindByName(State(), input.name);
      if existing.Some? {
        var id := existing.value;
        var doc := items[id];
        doc := doc.(quantity := doc.quantity + input.quantity);
        if input.minThreshold != 0 {
          doc := doc.(minThreshold := input.minThreshold);
        }
        // `input.category` is a required enum value, hence always truthy.
        doc := doc.(category := input.category);
        assert doc == Merged(items[id], input);
        var saved := ValidateDocument(doc);
        if saved.Failure? {
          assert spec == Step(State(), Failure(saved.error));
          return Failure(saved.error);
        }
        assert spec == Step(Store(items[id := saved.value], nextId), Success(StoredItem(id, saved.value)));
        items := items[id := saved.value];
        return Success(StoredItem(id, saved.value));
      }
      var created := ValidateDocument(NewDocument(input));
      if created.Failure? {
        assert spec == Step(State(), Failure(created.error));
        return Failure(created.error);
      }
      assert spec == Step(Store(items[nextId := created.value], nextId + 1), Success(StoredItem(nextId, created.value)));
      items := items[nextId := created.value];
      r := Success(StoredItem(nextId, created.value));
      nextId := nextId + 1;
    }

    /** `findByIdAndUpdate` with `runValidators`. */
    method ApplyUpdate(id: ItemId, input: UpdateItemInput) returns (r: Result<Option<StoredItem>, UpdateError>)
      requires Valid()
      modifies this
      ensures Valid()
      ensures State() == FindByIdAndUpdate(old(State()), id, input).store
      ensures r == FindByIdAndUpdate(old(State()), id, input).result
    {
      var errors := PatchErrors(input);
      if errors != [] {
        return Failure(Invalid(errors));
      }
      if id !in items {
        return Success(None);
      }
      var doc := items[id];
      if input.name.Some? {
        doc := doc.(name := Trim(input.name.value));
      }
      if input.quantity.Some? {
        doc := doc.(quantity := input.quantity.value);
      }
      if input.minThreshold.Some? {
        doc := doc.(minThreshold := input.minThreshold.value);
      }
      if input.category.Some? {
        doc := doc.(category := input.category.value);
      }
      items := items[id := doc];
      r := Success(Some(StoredItem(id, doc)));
    }

    /** `Mutation.updateItem`. */
    method UpdateItem(id: ItemId, input: UpdateItemInput, mode: string) returns (r: Result<Option<StoredItem>, UpdateError>)
      requires Valid()
      modifies this
      ensures Valid()
      ensures State() == Update(old(State()), id, input, mode).store
      ensures r == Update(old(State()), id, input, mode).result
    {
      if mode == "QUICK" && input.quantity.Some? {
        if id !in items {
          return Success(None);
        }
        var current := items[id];
        var newQuantity := current.quantity + input.quantity.value;
        if newQuantity < 0 {
          return Failure(InvalidOperation(BelowZeroMessage));
        }
        r := ApplyUpdate(id, input.(quantity := Some(newQuantity)));
        return;
      }
      r := ApplyUpdate(id, input);
    }

    /** `Mutation.deleteItem`: removes that one document and returns it, or null. */
    method DeleteItem(id: ItemId) returns (r: Option<StoredItem>)
      requires Valid()
      modifies this
      ensures Valid()
      ensures State() == Delete(old(State()), id).store
      ensures r == Delete(old(State()), id).result
    {
      if id in items {
        r := Some(StoredItem(id, items[id]));
        items := items - {id};
      } else {
        r := None;
      }
    }
  }
}
