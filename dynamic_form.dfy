/** The inline single-field editor: the text shown while not editing, the
    rule on the edited value, and the edit flag that the pencil button
    flips and a successful save clears. */
module DynamicForm {
  import opened Common

  datatype InputType = Text | Textarea | Email | Number | Date | Select | Tel

  /** An entry of the `options` list of a select input. */
  datatype Opt = Opt(title: string, value: string)

  /** What the update function did: reported success, reported failure, or threw. */
  datatype Outcome = Succeeded | Failed | Threw

  /** An `updateFunction(id, fieldName, value)` call. */
  datatype Call = Call(id: string, fieldName: string, value: string)

  datatype Toast = SuccessToast(text: string) | ErrorToast(text: string)

  const Undefined := "Non défini"
  const DefaultSuccessMessage := "Mise a jour effectuee"
  const DefaultErrorMessage := "Oopse une erreur est intervenue"

  /** The value schema: a string of at least one code unit. */
  predicate ValueValid(v: string) {
    Utf16Length(v) >= 1
  }

  /** The edited value is valid exactly when it is not empty. */
  lemma ValueValidIffNonEmpty(v: string)
    ensures ValueValid(v) <==> v != ""
  {
    Utf16LengthBounds(v);
  }

  /** `options.find(opt => opt.value === v)`, as the position of the first
      option with that value. */
  function FindOption(options: seq<Opt>, v: string): (r: Option<nat>)
    ensures r.Some? ==> r.value < |options| && options[r.value].value == v
    ensures r.Some? ==> forall j :: 0 <= j < r.value ==> options[j].value != v
    ensures r.None? ==> forall j :: 0 <= j < |options| ==> options[j].value != v
  {
    if options == [] then None
    else if options[0].value == v then Some(0)
    else
      match FindOption(options[1..], v)
      case None => None
      case Some(i) => Some(i + 1)
  }

  /** `displayValue`: "Non défini" for a null or undefined value; for a
      select, the title of the matching option unless there is none or it
      is empty; otherwise the value itself. */
  function DisplayValue(initialData: Option<string>, inputType: InputType, options: Option<seq<Opt>>): string {
    match initialData
    case None => Undefined
    case Some(d) =>
      if inputType == Select then
        var found := if options.Some? then FindOption(options.value, d) else None;
        if found.Some? && options.value[found.value].title != "" then options.value[found.value].title else Undefined
      else d
  }

  /** A null or undefined value shows "Non défini"; a value of any other
      input type shows as itself, the empty string included. */
  lemma DisplayOfPlainValue(initialData: Option<string>, inputType: InputType, options: Option<seq<Opt>>)
    ensures initialData.None? ==> DisplayValue(initialData, inputType, options) == Undefined
    ensures initialData.Some? && inputType != Select ==> DisplayValue(initialData, inputType, options) == initialData.value
  {
  }

  /** A select shows the title of the first option whose value matches,
      or "Non défini" when that title is empty. */
  lemma SelectShowsFirstMatch(d: string, options: seq<Opt>, i: nat)
    requires i < |options| && options[i].value == d
    requires forall j :: 0 <= j < i ==> options[j].value != d
    ensures DisplayValue(Some(d), Select, Some(options)) == (if options[i].title != "" then options[i].title else Undefined)
  {
  }

  /** A select whose options do not contain the value, or that has no
      options, shows "Non défini". */
  lemma SelectWithoutMatchIsUndefined(d: string, options: Option<seq<Opt>>)
    requires options.Some? ==> forall j :: 0 <= j < |options.value| ==> options.value[j].value != d
    ensures DisplayValue(Some(d), Select, options) == Undefined
  {
  }

  /** The submit button is enabled only when nothing is being submitted and
      the value is valid. */
  predicate SubmitEnabled(isSubmitting: bool, value: string) {
    !isSubmitting && ValueValid(value)
  }

  /** So the button is enabled exactly when idle with a non-empty value. */
  lemma SubmitEnabledIff(isSubmitting: bool, value: string)
    ensures SubmitEnabled(isSubmitting, value) <==> !isSubmitting && value != ""
  {
    ValueValidIffNonEmpty(value);
  }

  class InlineEditor {
    const id: string
    const fieldName: string
    const successMessage: string
    const errorMessage: string
    var isEditing: bool
    var value: string

    /** A fresh editor, not editing, its value `initialData || ""`. */
    constructor (id: string, fieldName: string, initialData: Option<string>,
                 successMessage: Option<string>, errorMessage: Option<string>)
      ensures this.id == id && this.fieldName == fieldName
      ensures this.successMessage == successMessage.GetOr(DefaultSuccessMessage)
      ensures this.errorMessage == errorMessage.GetOr(DefaultErrorMessage)
      ensures !isEditing && value == initialData.GetOr("")
    {
      this.id := id;
      this.fieldName := fieldName;
      this.successMessage := successMessage.GetOr(DefaultSuccessMessage);
      this.errorMessage := errorMessage.GetOr(DefaultErrorMessage);
      isEditing := false;
      value := if Truthy(initialData) then initialData.value else "";
    }

    /** `toggleEdit`: flips the edit flag, so toggling twice restores it. */
    method ToggleEdit()
      modifies this
      ensures isEditing == !old(isEditing) && value == old(value)
    {
      isEditing := !isEditing;
    }

    /** A change typed into the field. */
    method Edit(v: string)
      modifies this
      ensures value == v && isEditing == old(isEditing)
    {
      value := v;
    }

    /** `form.handleSubmit(onSubmit)`: the form exists only while editing
        and refuses an empty value without calling anything; otherwise the
        update is called, and only a reported success leaves edit mode. */
    method Submit(outcome: Outcome) returns (call: Option<Call>, toast: Option<Toast>)
      modifies this
      ensures value == old(value)
      ensures !(old(isEditing) && ValueValid(value)) ==>
        call == None && toast == None && isEditing == old(isEditing)
      ensures old(isEditing) && ValueValid(value) ==>
        && call == Some(Call(id, fieldName, value))
        && (outcome.Succeeded? ==> toast == Some(SuccessToast(successMessage)) && !isEditing)
        && (!outcome.Succeeded? ==> toast == Some(ErrorToast(errorMessage)) && isEditing)
    {
      if !isEditing || !ValueValid(value) {
        return None, None;
      }
      call := Some(Call(id, fieldName, value));
      if outcome.Succeeded? {
        toast := Some(SuccessToast(successMessage));
        ToggleEdit();
      } else {
        toast := Some(ErrorToast(errorMessage));
      }
    }
  }
}
