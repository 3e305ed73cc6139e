/** The add/update form: its text fields, the required-field guard, the
    `createItem` input it builds, and its completion and error handling. */
module AddUpdateStock {
  import opened Wrappers
  import opened Toasts
  import opened Strings

  /** The form's fields, as the inputs hold them. */
  datatype FormData = FormData(name: string, category: string, quantity: string, minThreshold: string)

  /** Empty fields, with the threshold preset to 10. */
  const InitialForm := FormData("", "", "", "10")

  /** The `createItem` input: name and category as typed, the numbers through
      `parseInt` (`None` is NaN). */
  datatype CreateRequest = CreateRequest(name: string, category: string, quantity: Option<int>, minThreshold: Option<int>)

  const RequiredMessage := "Please fill in all required fields"
  const AddedMessage := "Item added successfully!"
  const UpdatedMessage := "Item quantity updated successfully!"

  /** `handleSubmit`'s guard: name, category and quantity must be non-empty;
      the threshold is not checked. */
  function SubmitGuard(form: FormData): (r: Option<string>)
    ensures r.None? <==> form.name != "" && form.category != "" && form.quantity != ""
    ensures r.Some? ==> r.value == RequiredMessage
  {
    if form.name == "" || form.category == "" || form.quantity == "" then Some(RequiredMessage) else None
  }

  /** The input sent for a form that passed the guard. */
  function BuildRequest(form: FormData): (r: CreateRequest)
    ensures r.name == form.name && r.category == form.category
    ensures r.quantity == ParseInt(form.quantity) && r.minThreshold == ParseInt(form.minThreshold)
  {
    CreateRequest(form.name, form.category, ParseInt(form.quantity), ParseInt(form.minThreshold))
  }

  /** Numbers typed as the decimal form of an integer arrive as that integer,
      and the text fields arrive verbatim. */
  lemma RequestCarriesFields(form: FormData, q: int, t: int)
    requires form.quantity == IntToString(q) && form.minThreshold == IntToString(t)
    ensures BuildRequest(form) == CreateRequest(form.name, form.category, Some(q), Some(t))
  {
    ParseIntOfIntToString(q);
    ParseIntOfIntToString(t);
  }

  /** An emptied threshold still passes the guard and arrives as NaN. */
  lemma EmptyThresholdIsSent(form: FormData)
    requires form.name != "" && form.category != "" && form.quantity != "" && form.minThreshold == ""
    ensures SubmitGuard(form).None? && BuildRequest(form).minThreshold.None?
  {
  }

  /** `onCompleted`'s message: "added" only when the returned item has no
      (or an empty) `_id`. */
  function CompletionMessage(returnedId: Option<string>): (r: string)
    ensures r == AddedMessage <==> returnedId.None? || returnedId.value == ""
    ensures r == UpdatedMessage <==> returnedId.Some? && returnedId.value != ""
  {
    if returnedId.None? || returnedId.value == "" then AddedMessage else UpdatedMessage
  }

  /** The component's state. */
  class AddUpdateForm {
    var formData: FormData

    constructor ()
      ensures formData == InitialForm
    {
      formData := InitialForm;
    }

    method OnNameChange(value: string)
      modifies this
      ensures formData == old(formData).(name := value)
    {
      formData := formData.(name := value);
    }

    method OnCategoryChange(value: string)
      modifies this
      ensures formData == old(formData).(category := value)
    {
      formData := formData.(category := value);
    }

    method OnQuantityChange(value: string)
      modifies this
      ensures formData == old(formData).(quantity := value)
    {
      formData := formData.(quantity := value);
    }

    method OnMinThresholdChange(value: string)
      modifies this
      ensures formData == old(formData).(minThreshold := value)
    {
      formData := formData.(minThreshold := value);
    }

    /** `handleSubmit`: the guard's error, or the request to send. */
    method HandleSubmit() returns (request: Option<CreateRequest>, toast: Option<Toast>)
      ensures SubmitGuard(formData).Some? ==> request.None? && toast == Some(ErrorToast(RequiredMessage))
      ensures SubmitGuard(formData).None? ==> request == Some(BuildRequest(formData)) && toast.None?
    {
      if formData.name == "" || formData.category == "" || formData.quantity == "" {
        return None, Some(ErrorToast(RequiredMessage));
      }
      request := Some(CreateRequest(formData.name, formData.category, ParseInt(formData.quantity), ParseInt(formData.minThreshold)));
      toast := None;
    }

    /** `onCompleted`: the message, then the form is reset. */
    method OnCompleted(returnedId: Option<string>) returns (toast: Toast)
      modifies this
      ensures toast == SuccessToast(CompletionMessage(returnedId))
      ensures formData == InitialForm
    {
      var isNewItem := returnedId.None? || returnedId.value == "";
      toast := SuccessToast(if isNewItem then AddedMessage else UpdatedMessage);
      formData := FormData("", "", "", "10");
    }

    /** `onError`: the message; the form keeps what was typed. */
    method OnError(message: string) returns (toast: Toast)
      ensures toast == ErrorToast("Error: " + message)
    {
      toast := ErrorToast("Error: " + message);
    }
  }
}
