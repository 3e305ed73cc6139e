/** The Mongoose `Item` model: the document's fields and their schema
    validators, the three-tier `stockStatus` virtual, the `isLowStock`
    instance method and the `findLowStock` static query. */
module ItemModel {
  import opened Wrappers
  import opened Strings

  /** Document ids; ObjectId generation is abstracted to fresh naturals. */
  type ItemId = nat

  datatype Category = FOOD | BEVERAGE | SUPPLIES | OTHER

  function CategoryName(c: Category): string {
    match c
    case FOOD => "FOOD"
    case BEVERAGE => "BEVERAGE"
    case SUPPLIES => "SUPPLIES"
    case OTHER => "OTHER"
  }

  /** The enum validator's view of a category string: one of the four names, or nothing. */
  function ParseCategory(s: string): (r: Option<Category>)
    ensures r.Some? ==> CategoryName(r.value) == s
    ensures r.None? ==> forall c: Category :: CategoryName(c) != s
  {
    if s == "FOOD" then Some(FOOD)
    else if s == "BEVERAGE" then Some(BEVERAGE)
    else if s == "SUPPLIES" then Some(SUPPLIES)
    else if s == "OTHER" then Some(OTHER)
    else None
  }

  lemma ParseCategoryName(c: Category)
    ensures ParseCategory(CategoryName(c)) == Some(c)
  {
  }

  /** An item document (timestamps left out). */
  datatype Item = Item(name: string, quantity: int, minThreshold: int, category: Category)

  datatype StockStatus = LOW | MEDIUM | GOOD

  /** The `stockStatus` virtual. Its MEDIUM test `quantity <= minThreshold * 1.5`
      is `2 * quantity <= 3 * minThreshold` on integers. */
  function StockStatusOf(quantity: int, minThreshold: int): (r: StockStatus)
    ensures r == LOW <==> quantity <= minThreshold
    ensures r == MEDIUM <==> minThreshold < quantity && 2 * quantity <= 3 * minThreshold
    ensures r == GOOD <==> minThreshold < quantity && 3 * minThreshold < 2 * quantity
  {
    if quantity <= minThreshold then LOW
    else if 2 * quantity <= 3 * minThreshold then MEDIUM
    else GOOD
  }

  /** The integer form of the 1.5 factor is exact: `q <= 1.5 * t` holds of the
      rational `1.5 * t` exactly when `2 * q <= 3 * t`. */
  lemma HalfFactorExact(q: int, t: int)
    ensures (2 * q <= 3 * t) <==> (q <= (3 * t) / 2)
  {
  }

  /** With a zero threshold there is no MEDIUM band. */
  lemma NoMediumAtZeroThreshold(quantity: int)
    ensures StockStatusOf(quantity, 0) != MEDIUM
  {
  }

  function Rank(s: StockStatus): nat {
    match s
    case LOW => 0
    case MEDIUM => 1
    case GOOD => 2
  }

  /** Raising the quantity never lowers the status. */
  lemma StockStatusMonotone(q1: int, q2: int, t: int)
    requires q1 <= q2
    ensures Rank(StockStatusOf(q1, t)) <= Rank(StockStatusOf(q2, t))
  {
  }

  /** The `isLowStock` instance method. */
  predicate IsLowStock(item: Item): (r: bool)
    ensures r <==> StockStatusOf(item.quantity, item.minThreshold) == LOW
  {
    item.quantity <= item.minThreshold
  }

  /** The `findLowStock` static: the documents with `quantity <= minThreshold`. */
  function FindLowStock(collection: map<ItemId, Item>): (r: map<ItemId, Item>)
    ensures forall id :: id in r <==> id in collection && IsLowStock(collection[id])
    ensures forall id :: id in r ==> r[id] == collection[id]
  {
    map id | id in collection && collection[id].quantity <= collection[id].minThreshold :: collection[id]
  }

  /** One failed validator: the path and the message the schema gives it. */
  datatype ValidationError = ValidationError(path: string, message: string)

  const MaxNameLength := 60

  const NameRequired := ValidationError("name", "Please provide a name for this item")
  const NameTooLong := ValidationError("name", "Name cannot be more than 60 characters")
  const QuantityNegative := ValidationError("quantity", "Quantity cannot be negative")
  const MinThresholdNegative := ValidationError("minThreshold", "Minimum threshold cannot be negative")
  const CategoryRequired := ValidationError("category", "Please provide a category")

  function InvalidCategory(value: string): ValidationError {
    ValidationError("category", value + " is not a valid category")
  }

  /** The `name` path: the `trim` setter, then `required`, then `maxlength: 60`;
      the first validator that fails is reported. */
  function NameError(name: string): (r: Option<ValidationError>)
    ensures r.None? <==> 1 <= |Trim(name)| <= MaxNameLength
    ensures r == Some(NameRequired) <==> Trim(name) == ""
  {
    var v := Trim(name);
    if v == "" then Some(NameRequired)
    else if |v| > MaxNameLength then Some(NameTooLong)
    else None
  }

  function QuantityError(quantity: int): (r: Option<ValidationError>)
    ensures r.None? <==> quantity >= 0
    ensures r.Some? ==> r.value == QuantityNegative
  {
    if quantity < 0 then Some(QuantityNegative) else None
  }

  function MinThresholdError(minThreshold: int): (r: Option<ValidationError>)
    ensures r.None? <==> minThreshold >= 0
    ensures r.Some? ==> r.value == MinThresholdNegative
  {
    if minThreshold < 0 then Some(MinThresholdNegative) else None
  }

  /** The `category` path: `trim`, then `required`, then the enum of four names. */
  function CategoryError(category: string): (r: Option<ValidationError>)
    ensures r.None? <==> ParseCategory(Trim(category)).Some?
  {
    var v := Trim(category);
    if v == "" then Some(CategoryRequired)
    else if ParseCategory(v).None? then Some(InvalidCategory(v))
    else None
  }

  /** A category that arrives typed by the GraphQL `Category` enum always passes
      the schema's enum validator. */
  lemma TypedCategoryValid(c: Category)
    ensures CategoryError(CategoryName(c)).None?
  {
    CategoryNameTrimmed(c);
    ParseCategoryName(c);
  }

  /** The reported error of one path, as a list of zero or one errors. */
  function Reported(check: Option<ValidationError>): (r: seq<ValidationError>)
    ensures r == [] <==> check.None?
    ensures check.Some? ==> r == [check.value]
  {
    if check.Some? then [check.value] else []
  }

  /** What the stored documents satisfy: a trimmed name of 1 to 60 characters
      and non-negative quantity and threshold. */
  ghost predicate ValidItem(item: Item) {
    && IsTrimmed(item.name)
    && 1 <= |item.name| <= MaxNameLength
    && item.quantity >= 0
    && item.minThreshold >= 0
  }

  /** The errors of the name, quantity and threshold paths, in schema order. */
  function FieldErrors(name: string, quantity: int, minThreshold: int): (r: seq<ValidationError>)
    ensures r == [] <==> 1 <= |Trim(name)| <= MaxNameLength && quantity >= 0 && minThreshold >= 0
  {
    Reported(NameError(name)) + Reported(QuantityError(quantity)) + Reported(MinThresholdError(minThreshold))
  }

  /** Casting and validation of a document whose category is already one of
      the enum's values, as `save()` runs them. */
  function ValidateDocument(doc: Item): (r: Result<Item, seq<ValidationError>>)
    ensures r.Success? <==> 1 <= |Trim(doc.name)| <= MaxNameLength && doc.quantity >= 0 && doc.minThreshold >= 0
    ensures r.Success? ==> ValidItem(r.value) && r.value == doc.(name := Trim(doc.name))
    ensures r.Failure? ==> r.error == FieldErrors(doc.name, doc.quantity, doc.minThreshold)
  {
    var errors := FieldErrors(doc.name, doc.quantity, doc.minThreshold);
    if errors != [] then Failure(errors) else Success(doc.(name := Trim(doc.name)))
  }

  /** Re-validating a document whose name is already valid, as `save()` does
      after a number changes: it passes exactly when both numbers are
      non-negative, and then it is stored as it is. */
  lemma ValidateWithValidName(doc: Item)
    requires IsTrimmed(doc.name) && 1 <= |doc.name| <= MaxNameLength
    ensures ValidateDocument(doc).Success? <==> doc.quantity >= 0 && doc.minThreshold >= 0
    ensures ValidateDocument(doc).Success? ==> ValidateDocument(doc).value == doc
  {
    TrimOfTrimmed(doc.name);
  }

  /** A document as given to `new Item(...)`, before casting. */
  datatype RawItem = RawItem(name: string, quantity: int, minThreshold: int, category: string)

  /** Casting and document validation of an untyped document: the category
      string must be one of the enum's four names once trimmed. */
  function Validate(raw: RawItem): (r: Result<Item, seq<ValidationError>>)
    ensures r.Success? <==>
              && 1 <= |Trim(raw.name)| <= MaxNameLength
              && raw.quantity >= 0 && raw.minThreshold >= 0
              && ParseCategory(Trim(raw.category)).Some?
    ensures r.Success? ==>
              && ValidItem(r.value)
              && r.value.name == Trim(raw.name)
              && r.value.quantity == raw.quantity
              && r.value.minThreshold == raw.minThreshold
              && CategoryName(r.value.category) == Trim(raw.category)
  {
    var errors := FieldErrors(raw.name, raw.quantity, raw.minThreshold) + Reported(CategoryError(raw.category));
    if errors != [] then Failure(errors)
    else
      var category := ParseCategory(Trim(raw.category)).value;
      Success(Item(Trim(raw.name), raw.quantity, raw.minThreshold, category))
  }

  /** A negative quantity or threshold, or a name that is empty once trimmed,
      is rejected with the schema's message for that path. */
  lemma ValidateReports(raw: RawItem)
    ensures raw.quantity < 0 ==> Validate(raw).Failure? && QuantityNegative in Validate(raw).error
    ensures raw.minThreshold < 0 ==> Validate(raw).Failure? && MinThresholdNegative in Validate(raw).error
    ensures Trim(raw.name) == "" ==> Validate(raw).Failure? && NameRequired in Validate(raw).error
  {
  }

  /** The raw form of a document. */
  function RawOf(item: Item): RawItem {
    RawItem(item.name, item.quantity, item.minThreshold, CategoryName(item.category))
  }

  lemma CategoryNameTrimmed(c: Category)
    ensures Trim(CategoryName(c)) == CategoryName(c)
  {
    assert IsTrimmed(CategoryName(c)) by {
      match c
      case FOOD =>
      case BEVERAGE =>
      case SUPPLIES =>
      case OTHER =>
    }
    TrimOfTrimmed(CategoryName(c));
  }

  /** For a typed document the untyped validator and the typed one agree. */
  lemma ValidateAgrees(doc: Item)
    ensures Validate(RawOf(doc)) == ValidateDocument(doc)
  {
    var raw := RawOf(doc);
    TypedCategoryValid(doc.category);
    ParseCategoryName(doc.category);
    CategoryNameTrimmed(doc.category);
    assert Reported(CategoryError(raw.category)) == [];
    assert FieldErrors(raw.name, raw.quantity, raw.minThreshold) + [] == FieldErrors(doc.name, doc.quantity, doc.minThreshold);
    if FieldErrors(doc.name, doc.quantity, doc.minThreshold) == [] {
      assert ParseCategory(Trim(raw.category)).value == doc.category;
    }
  }

  /** A valid document passes validation unchanged. */
  lemma ValidateValid(doc: Item)
    requires ValidItem(doc)
    ensures Validate(RawOf(doc)) == Success(doc)
  {
    ValidateAgrees(doc);
    ValidateWithValidName(doc);
  }
}
