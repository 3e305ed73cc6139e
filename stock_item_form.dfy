/** The item form used by the add and edit pages: its schema, its default
    values and its submit button's label. */
module StockItemForm {
  import opened Wrappers

  /** The form's values; the numbers are already numbers. */
  datatype ItemFormData = ItemFormData(name: string, category: string, quantity: int, minThreshold: int)

  /** A schema failure: the field and its message. */
  datatype Issue = Issue(path: string, message: string)

  const NameRequired := Issue("name", "Name is required")
  const QuantityTooSmall := Issue("quantity", "Quantity must be 0 or greater")
  const MinThresholdTooSmall := Issue("minThreshold", "Minimum threshold must be 0 or greater")

  /** The enum's values. */
  const Categories: set<string> := {"FOOD", "BEVERAGE", "SUPPLIES", "OTHER"}

  /** The schema library's message for a value outside the enum. */
  function InvalidCategory(received: string): Issue {
    Issue("category", "Invalid enum value. Expected 'FOOD' | 'BEVERAGE' | 'SUPPLIES' | 'OTHER', received '" + received + "'")
  }

  function NameIssues(name: string): seq<Issue> {
    if |name| < 1 then [NameRequired] else []
  }

  function CategoryIssues(category: string): seq<Issue> {
    if category in Categories then [] else [InvalidCategory(category)]
  }

  function QuantityIssues(quantity: int): seq<Issue> {
    if quantity < 0 then [QuantityTooSmall] else []
  }

  function MinThresholdIssues(minThreshold: int): seq<Issue> {
    if minThreshold < 0 then [MinThresholdTooSmall] else []
  }

  /** `formSchema.safeParse`: the data when every field passes, otherwise
      every field's issue, in the schema's field order. */
  function FormSchema(data: ItemFormData): (r: Result<ItemFormData, seq<Issue>>)
    ensures r.Success? <==>
              |data.name| >= 1 && data.category in Categories && data.quantity >= 0 && data.minThreshold >= 0
    ensures r.Success? ==> r.value == data
    ensures r.Failure? ==>
              r.error == NameIssues(data.name) + CategoryIssues(data.category) + QuantityIssues(data.quantity) + MinThresholdIssues(data.minThreshold)
  {
    var issues := NameIssues(data.name) + CategoryIssues(data.category) + QuantityIssues(data.quantity) + MinThresholdIssues(data.minThreshold);
    if issues == [] then Success(data) else Failure(issues)
  }

  /** Each rule's message appears exactly when its rule is broken; zero is an
      accepted quantity and threshold. */
  lemma SchemaMessages(data: ItemFormData)
    ensures (FormSchema(data).Failure? && NameRequired in FormSchema(data).error) <==> data.name == ""
    ensures data.quantity < 0 ==> FormSchema(data).Failure? && QuantityTooSmall in FormSchema(data).error
    ensures data.minThreshold < 0 ==> FormSchema(data).Failure? && MinThresholdTooSmall in FormSchema(data).error
    ensures data.category !in Categories ==> FormSchema(data).Failure? && InvalidCategory(data.category) in FormSchema(data).error
    ensures FormSchema(data).Failure? && data.quantity >= 0 ==> QuantityTooSmall !in FormSchema(data).error
  {
    var e := NameIssues(data.name) + CategoryIssues(data.category) + QuantityIssues(data.quantity) + MinThresholdIssues(data.minThreshold);
    assert InvalidCategory(data.category).path == "category";
    assert forall i :: 0 <= i < |e| && e[i].path == "name" ==> e[i] == NameRequired;
  }

  /** `initialData || {...}`: the page's data when given, else the blank item. */
  function DefaultValues(initialData: Option<ItemFormData>): (r: ItemFormData)
    ensures initialData.Some? ==> r == initialData.value
    ensures initialData.None? ==> r.name == "" && r.category == "FOOD" && r.quantity == 0 && r.minThreshold == 0
  {
    if initialData.Some? then initialData.value else ItemFormData("", "FOOD", 0, 0)
  }

  /** The blank item fails on its name alone. */
  lemma DefaultsFailOnlyOnName()
    ensures FormSchema(DefaultValues(None)) == Failure([NameRequired])
  {
    assert "FOOD" in Categories;
    assert CategoryIssues("FOOD") == [];
    assert NameIssues("") == [NameRequired];
    assert [NameRequired] + [] + [] + [] == [NameRequired];
  }

  datatype Mode = AddMode | EditMode

  /** The submit button's label: "Adding..." or "Saving..." while loading,
      otherwise "Add Item" or "Save Changes", by mode. */
  function SubmitLabel(mode: Mode, isLoading: bool): (r: string)
    ensures isLoading <==> r in {"Adding...", "Saving..."}
    ensures mode == AddMode ==> r in {"Add Item", "Adding..."}
    ensures mode == EditMode ==> r in {"Save Changes", "Saving..."}
  {
    match (mode, isLoading)
    case (AddMode, false) => "Add Item"
    case (AddMode, true) => "Adding..."
    case (EditMode, false) => "Save Changes"
    case (EditMode, true) => "Saving..."
  }

  /** Loading never shows the idle label, and the two modes never share one. */
  lemma LabelsDistinct(mode: Mode, other: Mode, isLoading: bool, otherLoading: bool)
    ensures SubmitLabel(mode, isLoading) == SubmitLabel(other, otherLoading) <==> mode == other && isLoading == otherLoading
  {
  }
}
