/** The user form: the field rules and the password rule, which differ
    between creating a user and editing one, the request a submission
    sends, and the form state that a successful submission resets in
    create mode only. */
module UserForm {
  import opened Common

  /** The values the form holds; `password` may be left undefined. */
  datatype FormValues = FormValues(role: string, firstName: string, lastName: string, email: string, password: Option<string>)

  /** The user being edited (`data`); absent when creating one. */
  datatype UserData = UserData(id: string, firstName: string, lastName: string, fullName: string, email: string,
                               role: string, isActive: bool, createdAt: string)

  /** The payload `updateUser` receives. */
  datatype UpdatePayload = UpdatePayload(id: string, profilePicture: string, firstName: string, lastName: string,
                                         fullName: string, role: string, email: string, telephone: string,
                                         isActive: bool, password: string, createdAt: string)

  /** The server action a submission calls, with its arguments. */
  datatype UserRequest =
    | UpdateUser(userId: string, payload: UpdatePayload)
    | CreateUser(role: string, firstName: string, lastName: string, email: string, password: string)

  /** What the server action did: answered with success, answered with a
      refusal (and perhaps a message), or threw. */
  datatype Outcome = Succeeded | Refused(message: Option<string>) | Threw

  datatype Toast = Toast(destructive: bool, title: string, description: string)

  // ---------------------------------------------------------------------
  // Validation

  predicate MinLength(s: string, n: nat) {
    Utf16Length(s) >= n
  }

  /** The rules of `formSchema` on its four text fields. */
  predicate FieldsOk(host: Host, v: FormValues) {
    && MinLength(v.role, 2)
    && MinLength(v.firstName, 2)
    && MinLength(v.lastName, 2)
    && MinLength(v.email, 2) && host.isEmail(v.email)
  }

  /** The password `.refine`: on create a truthy password of at least three
      code units; on update, a truthy password shorter than three is the
      only one refused. */
  predicate PasswordOk(isUpdate: bool, password: Option<string>) {
    if !isUpdate then Truthy(password) && Utf16Length(password.value) >= 3
    else !(Truthy(password) && Utf16Length(password.value) > 0 && Utf16Length(password.value) < 3)
  }

  /** The resolver accepts the values: every field rule and the refinement. */
  predicate Accepts(host: Host, isUpdate: bool, v: FormValues) {
    FieldsOk(host, v) && PasswordOk(isUpdate, v.password)
  }

  /** On update the password is accepted exactly when it is absent, empty,
      or at least three code units long: lengths one and two are refused. */
  lemma UpdatePasswordRule(password: Option<string>)
    ensures PasswordOk(true, password) <==> !Truthy(password) || Utf16Length(password.value) >= 3
  {
    if password.Some? {
      Utf16LengthBounds(password.value);
    }
  }

  /** On create the password is accepted exactly when present with at least
      three code units, so the empty and the absent password are refused. */
  lemma CreatePasswordRule(password: Option<string>)
    ensures PasswordOk(false, password) <==> password.Some? && Utf16Length(password.value) >= 3
    ensures !PasswordOk(false, None) && !PasswordOk(false, Some(""))
  {
    if password.Some? && Utf16Length(password.value) >= 3 {
      assert password.value != "";
    }
  }

  /** Editing is the more lenient mode: what create accepts, update accepts. */
  lemma CreateAcceptanceImpliesUpdate(host: Host, v: FormValues)
    requires Accepts(host, false, v)
    ensures Accepts(host, true, v)
  {
    UpdatePasswordRule(v.password);
  }

  // ---------------------------------------------------------------------
  // Defaults and the request

  /** `defaultValues`: the edited user's fields, or empty ones. */
  function Defaults(data: Option<UserData>): (v: FormValues)
    ensures v.password == Some("")
    ensures data.None? ==> v == FormValues("", "", "", "", Some(""))
    ensures data.Some? ==> v.role == data.value.role && v.firstName == data.value.firstName
                           && v.lastName == data.value.lastName && v.email == data.value.email
  {
    match data
    case None => FormValues("", "", "", "", Some(""))
    case Some(u) => FormValues(u.role, u.firstName, u.lastName, u.email, Some(""))
  }

  /** The empty create form is never submitted as it stands. */
  lemma EmptyCreateFormRejected(host: Host)
    ensures !Accepts(host, false, Defaults(None))
  {
  }

  /** The server action `onSubmit` calls for accepted values. */
  function BuildRequest(data: Option<UserData>, v: FormValues): UserRequest {
    match data
    case Some(u) =>
      UpdateUser(u.id, UpdatePayload(u.id, "", v.firstName, v.lastName, v.firstName + " " + v.lastName,
                                     v.role, v.email, "", true,
                                     if Truthy(v.password) then v.password.value else "", ""))
    case None => CreateUser(v.role, v.firstName, v.lastName, v.email, v.password.GetOr(""))
  }

  /** Update is called exactly when a user is being edited; names, role
      and e-mail are the form's; the full name
      is the first name, one space, then the last name; and the password
      sent is never one the form refused: on create it is the entered one,
      on update it is the entered one if non-empty and `""` otherwise. */
  lemma RequestCarriesFormValues(host: Host, data: Option<UserData>, v: FormValues)
    requires Accepts(host, data.Some?, v)
    ensures var r := BuildRequest(data, v);
      && (r.UpdateUser? <==> data.Some?)
      && (r.UpdateUser? ==>
            var n := r.payload.fullName;
            && r.userId == data.value.id == r.payload.id
            && |n| == |v.firstName| + 1 + |v.lastName|
            && n[..|v.firstName|] == v.firstName && n[|v.firstName|] == ' '
            && n[|v.firstName| + 1..] == v.lastName
            && r.payload.firstName == v.firstName && r.payload.lastName == v.lastName
            && r.payload.role == v.role && r.payload.email == v.email
            && (r.payload.password == "" || Utf16Length(r.payload.password) >= 3)
            && (r.payload.password != "" ==> v.password == Some(r.payload.password))
            && (Truthy(v.password) ==> r.payload.password == v.password.value))
      && (r.CreateUser? ==>
            && r.role == v.role && r.email == v.email
            && r.firstName == v.firstName && r.lastName == v.lastName
            && Some(r.password) == v.password && Utf16Length(r.password) >= 3)
  {
    UpdatePasswordRule(v.password);
    var r := BuildRequest(data, v);
    if r.UpdateUser? {
      var n := r.payload.fullName;
      assert n == v.firstName + [' '] + v.lastName;
      assert n[..|v.firstName|] == v.firstName;
      assert n[|v.firstName| + 1..] == v.lastName;
    }
  }

  /** The toast shown after the server action answers. */
  function ResultToast(isUpdate: bool, outcome: Outcome): (t: Toast)
    ensures t.destructive <==> !outcome.Succeeded?
  {
    match outcome
    case Succeeded =>
      if isUpdate then Toast(false, "Utilisateur modifié", "L'utilisateur a été modifié avec succès")
      else Toast(false, "Utilisateur créé", "L'utilisateur a été créé avec succès")
    case Refused(message) => Toast(true, "Oups !", message.GetOr("Erreur inconnue"))
    case Threw =>
      Toast(true, "Oups !", if isUpdate then "Impossible de modifier l'utilisateur" else "Impossible de créer l'utilisateur")
  }

  // ---------------------------------------------------------------------
  // The form state

  class FormState {
    const data: Option<UserData>
    var values: FormValues
    var isSafeToReset: bool

    constructor (data: Option<UserData>)
      ensures this.data == data && values == Defaults(data) && !isSafeToReset
    {
      this.data := data;
      values := Defaults(data);
      isSafeToReset := false;
    }

    /** A change typed into the form. */
    method Edit(v: FormValues)
      modifies this
      ensures values == v && isSafeToReset == old(isSafeToReset)
    {
      values := v;
    }

    /** `form.handleSubmit(onSubmit)`: values the resolver refuses send
        nothing; accepted ones send the request and show a toast, and a
        success marks the form safe to reset. The values are not touched. */
    method Submit(host: Host, outcome: Outcome) returns (sent: Option<UserRequest>, toast: Option<Toast>)
      modifies this
      ensures values == old(values)
      ensures !Accepts(host, data.Some?, values) ==>
        sent == None && toast == None && isSafeToReset == old(isSafeToReset)
      ensures Accepts(host, data.Some?, values) ==>
        && sent == Some(BuildRequest(data, values))
        && toast == Some(ResultToast(data.Some?, outcome))
        && isSafeToReset == (old(isSafeToReset) || outcome.Succeeded?)
    {
      if !Accepts(host, data.Some?, values) {
        return None, None;
      }
      sent := Some(BuildRequest(data, values));
      toast := Some(ResultToast(data.Some?, outcome));
      if outcome.Succeeded? {
        isSafeToReset := true;
      }
    }

    /** The effect on `isSafeToReset`: once set, it clears the form back to
        its defaults when creating, keeps the values when editing, and
        clears the flag. */
    method ResetEffect()
      modifies this
      ensures !isSafeToReset
      ensures old(isSafeToReset) && data.None? ==> values == Defaults(None)
      ensures !(old(isSafeToReset) && data.None?) ==> values == old(values)
    {
      if !isSafeToReset {
        return;
      }
      if data.None? {
        values := Defaults(data);
      }
      isSafeToReset := false;
    }
  }
}
