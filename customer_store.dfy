/** The customer server actions over the `customer` table: building the
    inserted and updated rows (pure), and the table itself, a map from
    primary key to row that the actions read and change in place. The
    current user, the active organization, fresh ids and the clock are
    parameters. */
module CustomerStore {
  import opened Common
  import opened DateText
  import opened Schema
  import V = CustomerValidation

  const CreateFailedMessage := "Failed to create customer"
  const CreatedMessage := "Client créé avec succès"
  const NothingToUpdateMessage := "Aucune donnée valide à mettre à jour"
  const NotFoundMessage := "Client non trouvé"
  const UpdatedMessage := "Client mis à jour avec succès"
  const InvalidDataError := "Données de validation invalides"
  const UpdateFailedError := "Échec de la mise à jour du client"
  const CustomerNotFoundError := "Customer not found"
  const InvalidFieldError := "Invalid field name"
  const NoRowAffectedError := "Course not found or no changes made"
  const FieldUpdateFailedError := "Failed to update course"

  // ---------------------------------------------------------------------
  // The inserted row

  /** `x || null` on an optional text field. */
  function OrNull(o: Option<string>): (v: Value)
    ensures v == Null <==> !Truthy(o)
    ensures Truthy(o) ==> v == Str(o.value)
  {
    if Truthy(o) then Str(o.value) else Null
  }

  /** The cell of column `c` in the object literal `createCustomer` inserts. */
  function CreatedCell(v: V.CustomerInput, id: string, now: int, c: Column): Value {
    match c
    case Id => Str(id)
    case Ncc => Str(v.ncc)
    case CommercialRegister => OrNull(v.commercialRegister)
    case TaxIdentificationNumber => OrNull(v.taxIdentificationNumber)
    case LegalName => Str(v.legalName)
    case Acronym => OrNull(v.acronym)
    case LegalForm => Str(v.legalForm)
    case ActivityStartDate => Str(v.activityStartDate)
    case Manager => Str(v.manager)
    case MainActivity => Str(v.mainActivity)
    case SecondaryActivity => OrNull(v.secondaryActivity)
    case SalaryRegime => Str(v.salaryRegime)
    case TaxRegime => Str(v.taxRegime)
    case FiscalYearStart => Str(v.fiscalYearStart)
    case FiscalYearEnd => Str(v.fiscalYearEnd)
    case City => Str(v.city)
    case Municipality => Str(v.municipality)
    case District => OrNull(v.district)
    case Street => OrNull(v.street)
    case Plot => OrNull(v.plot)
    case Section => OrNull(v.section)
    case Block => OrNull(v.block)
    case Lot => OrNull(v.lot)
    case RegionalDirectorate => OrNull(v.regionalDirectorate)
    case Cdi => OrNull(v.cdi)
    case PostalBox => OrNull(v.postalBox)
    case Phone => Str(if Truthy(v.phone) then v.phone.value else "")
    case Email => OrNull(v.email)
    case Bank => OrNull(v.bank)
    case BankBranch => OrNull(v.bankBranch)
    case AccountNumber => OrNull(v.accountNumber)
    case OrganizationId => OrNull(v.organizationId)
    case CreatedBy => Null
    case CreatedAt | UpdatedAt => Stamp(now)
    case IsActive => Bool(true)
  }

  /** The row `createCustomer` inserts for a validated record. */
  function NewCustomerRow(v: V.CustomerInput, id: string, now: int): Row {
    map c: Column :: CreatedCell(v, id, now, c)
  }

  /** The optional text columns of the record other than `phone`. */
  predicate IsNullableInput(c: Column) {
    V.IsInputColumn(c) && !NotNull(c)
  }

  /** The required fields are stored as given, the row starts active and
      owned by no user, and both timestamps are the insertion time. */
  lemma NewRowCopiesRequiredFields(v: V.CustomerInput, id: string, now: int)
    ensures var r := NewCustomerRow(v, id, now);
      && r[Id] == Str(id) && r[IsActive] == Bool(DefaultIsActive) && r[CreatedBy] == Null
      && r[CreatedAt] == Stamp(now) && r[UpdatedAt] == Stamp(now)
      && (forall c :: V.IsInputColumn(c) && NotNull(c) && c != Phone ==> r[c] == Str(V.FieldOf(v, c).value))
  {
  }

  /** Each optional text field that is absent or empty is stored as NULL,
      any other as given; `phone` is stored as `""` instead of NULL. */
  lemma NewRowNormalisesOptionalFields(v: V.CustomerInput, id: string, now: int)
    ensures var r := NewCustomerRow(v, id, now);
      && (forall c :: IsNullableInput(c) ==>
            (r[c] == Null <==> !Truthy(V.FieldOf(v, c)))
            && (Truthy(V.FieldOf(v, c)) ==> r[c] == Str(V.FieldOf(v, c).value)))
      && r[Phone] == Str(if Truthy(v.phone) then v.phone.value else "")
  {
  }

  /** A record the validator accepts fits every column, provided its phone
      and e-mail fit their widths (the validator bounds neither) and its
      dates are calendar dates (the model leaves `new Date` opaque). */
  lemma AcceptedRecordFitsColumns(host: Host, v: V.CustomerInput, id: string, now: int)
    requires V.Accepts(host, v)
    requires v.phone.Some? ==> |v.phone.value| <= 20
    requires v.email.Some? ==> |v.email.value| <= 255
    requires CalendarDate(v.activityStartDate) && CalendarDate(v.fiscalYearStart) && CalendarDate(v.fiscalYearEnd)
    ensures RowValid(NewCustomerRow(v, id, now))
  {
    var r := NewCustomerRow(v, id, now);
    V.AcceptedNcc(host, v);
    V.AcceptedRecordBounds(host, v);
    V.AcceptedRecordWidths(host, v);
    V.AcceptedAddressWidths(host, v);
    V.AcceptedEnums(host, v);
    forall c: Column ensures c in r && Fits(c, r[c]) {
      assert r[c] == CreatedCell(v, id, now, c);
    }
  }

  /** The validator passes a 21-digit phone number, which the `varchar(20)`
      column then refuses (its excess is not spaces), so such a customer is
      never created. */
  lemma LongPhoneNeverStored(host: Host, v: V.CustomerInput, id: string, now: int, rows: map<string, Row>)
    requires v.phone == Some("012345678901234567890")
    ensures V.PhoneAccepted(v.phone.value)
    ensures !Storable(rows, None, NewCustomerRow(v, id, now))
  {
    V.LongPhoneAccepted();
    assert "012345678901234567890"[20] != ' ';
    assert !Admits(Phone, NewCustomerRow(v, id, now)[Phone]);
  }

  /** A phone padded with spaces past twenty characters passes the
      validator, and Postgres stores it cut to its first twenty. */
  lemma PaddedPhoneStoredTruncated(v: V.CustomerInput, id: string, now: int)
    requires v.phone == Some("0123456789               ")
    ensures V.PhoneAccepted(v.phone.value) && |v.phone.value| == 25
    ensures Admits(Phone, NewCustomerRow(v, id, now)[Phone])
    ensures Coerce(Phone, NewCustomerRow(v, id, now)[Phone]) == Str("0123456789          ")
  {
    var s := v.phone.value;
    assert forall i :: 0 <= i < |s| ==> V.IsPhoneChar(s[i]);
    assert SpacesFrom(s, 20);
    assert s[..20] == "0123456789          ";
  }

  // ---------------------------------------------------------------------
  // The updated row

  /** `updateData` as written: every validated field except
      `organizationId`, then `createdBy` from the current user, `updatedAt`
      from the clock, and `organizationId` from the active organization;
      drizzle skips a key whose value is `undefined`, so without an active
      organization that column keeps its value. */
  function PatchedRow(r: Row, fields: map<Column, string>, user: string, org: Option<string>, now: int): Row {
    var written := map c | c in fields && c != OrganizationId :: Str(fields[c]);
    var owned := (r + written)[CreatedBy := Str(user)][UpdatedAt := Stamp(now)];
    if org.Some? then owned[OrganizationId := Str(org.value)] else owned
  }

  /** The columns every update writes, whatever fields it supplies. */
  predicate IsOwnershipColumn(c: Column) {
    c == CreatedBy || c == UpdatedAt || c == OrganizationId
  }

  /** An update sets the owner to the current user, the timestamp to the
      write time, and the organization to the active one when there is one
      (a supplied `organizationId` is never written). */
  lemma PatchedRowOwnership(r: Row, fields: map<Column, string>, user: string, org: Option<string>, now: int)
    requires RowValid(r)
    ensures var r' := PatchedRow(r, fields, user, org, now);
      && r'.Keys == r.Keys
      && r'[CreatedBy] == Str(user) && r'[UpdatedAt] == Stamp(now)
      && r'[OrganizationId] == (if org.Some? then Str(org.value) else r[OrganizationId])
  {
  }

  /** Apart from those columns, an update writes the supplied fields and
      leaves every other cell as it was. */
  lemma PatchedRowChangesOnlyThoseFields(r: Row, fields: map<Column, string>, user: string, org: Option<string>, now: int)
    requires RowValid(r)
    ensures var r' := PatchedRow(r, fields, user, org, now);
      && (forall c :: c in fields && !IsOwnershipColumn(c) ==> r'[c] == Str(fields[c]))
      && (forall c :: c !in fields && !IsOwnershipColumn(c) ==> r'[c] == r[c])
  {
  }

  /** An update never moves the row: `id` is not an input field. */
  lemma PatchedRowKeepsId(r: Row, fields: map<Column, string>, user: string, org: Option<string>, now: int)
    requires Id in r && Id !in fields
    ensures PatchedRow(r, fields, user, org, now)[Id] == r[Id]
  {
  }

  /** A write the table accepts that keeps the row's key replaces the row
      where it stands with the row as stored. */
  lemma CommitInPlace(rows: map<string, Row>, id: string, row: Row)
    requires TableValid(rows) && id in rows && Storable(rows, Some(id), row) && row[Id] == Str(id)
    ensures Commit(rows, Some(id), row) == rows[id := Stored(row)]
    ensures TableValid(rows[id := Stored(row)])
  {
    CommitKeepsTableValid(rows, Some(id), row);
  }

  /** Every field an update writes converts to its column's type; the
      ownership columns are the server's own values. */
  predicate PatchConverts(fields: map<Column, string>) {
    forall c :: c in fields && !IsOwnershipColumn(c) ==> Converts(c, fields[c])
  }

  /** A patched row Postgres accepts passes the conversion check, so that
      check refuses nothing a write would have stored. */
  lemma StorablePatchConverts(rows: map<string, Row>, id: string, r: Row, fields: map<Column, string>,
                              user: string, org: Option<string>, now: int)
    requires RowValid(r) && Storable(rows, Some(id), PatchedRow(r, fields, user, org, now))
    ensures PatchConverts(fields)
  {
    PatchedRowChangesOnlyThoseFields(r, fields, user, org, now);
    var r' := PatchedRow(r, fields, user, org, now);
    forall c | c in fields && !IsOwnershipColumn(c) ensures Converts(c, fields[c]) {
      assert Admits(c, r'[c]);
      AdmittedTextConverts(c, fields[c]);
    }
  }

  // ---------------------------------------------------------------------
  // Outcomes

  datatype CreateResult = Created(row: Row, message: string) | CreateFailed(error: string)

  /** `{success: true, data, message}`, `{success: false, message}` or
      `{success: false, error}`. */
  datatype UpdateResult = Updated(row: Row, message: string) | Rejected(message: string) | UpdateFailed(error: string)

  datatype FieldResult = FieldUpdated | FieldFailed(error: string)

  // ---------------------------------------------------------------------
  // The table

  class CustomerTable {
    var rows: map<string, Row>

    ghost predicate Valid()
      reads this
    {
      TableValid(rows)
    }

    constructor ()
      ensures Valid() && rows == map[]
    {
      rows := map[];
    }

    /** `getSingleCustomer`: the row with that id, or the "Customer not
        found" error. */
    method GetSingleCustomer(id: string) returns (r: Result<Row, string>)
      requires Valid()
      ensures r.Success? <==> id in rows
      ensures r.Success? ==> r.value == rows[id] && r.value[Id] == Str(id)
      ensures r.Failure? ==> r.error == CustomerNotFoundError
    {
      if id in rows {
        r := Success(rows[id]);
      } else {
        r := Failure(CustomerNotFoundError);
      }
    }

    /** `createCustomer`: validate, build the row, insert it. A missing
        user, a refused record or a row the table refuses all end in the
        same error, with the table unchanged. */
    method CreateCustomer(host: Host, data: V.CustomerInput, currentUser: Option<string>, id: string, now: int)
      returns (r: CreateResult)
      requires Valid()
      modifies this
      ensures Valid()
      ensures var row := NewCustomerRow(data, id, now);
        if currentUser.Some? && V.Accepts(host, data) && Storable(old(rows), None, row)
        then r == Created(Stored(row), CreatedMessage) && rows == old(rows)[id := Stored(row)]
        else r == CreateFailed(CreateFailedMessage) && rows == old(rows)
    {
      if currentUser.None? {
        return CreateFailed(CreateFailedMessage);
      }
      var validated := V.Parse(host, data);
      if validated.None? {
        return CreateFailed(CreateFailedMessage);
      }
      V.ParseIsIdentityOnAccepted(host, data);
      var row := NewCustomerRow(validated.value, id, now);
      if !Storable(rows, None, row) {
        return CreateFailed(CreateFailedMessage);
      }
      CommitKeepsTableValid(rows, None, row);
      rows := Commit(rows, None, row);
      r := Created(Stored(row), CreatedMessage);
    }

    /** `updateCustomer`: validate the supplied fields and refuse an empty
        update; then the statement is bound, which refuses a field that
        does not convert to its column's type, and only then is a missing
        row reported; otherwise the fields are written together with the
        owner, the active organization and the timestamp. */
    method UpdateCustomer(host: Host, id: string, patch: map<Column, string>, currentUser: Option<string>,
                          activeOrganization: Option<string>, now: int)
      returns (r: UpdateResult)
      requires Valid()
      modifies this
      ensures Valid()
      ensures currentUser.None? ==> r == UpdateFailed(UpdateFailedError) && rows == old(rows)
      ensures currentUser.Some? && V.ParsePatch(host, patch).None? ==>
        r == UpdateFailed(InvalidDataError) && rows == old(rows)
      ensures currentUser.Some? && V.ParsePatch(host, patch) == Some(map[]) ==>
        r == Rejected(NothingToUpdateMessage) && rows == old(rows)
      ensures currentUser.Some? && V.ParsePatch(host, patch).Some? && V.ParsePatch(host, patch) != Some(map[])
              && !PatchConverts(V.ParsePatch(host, patch).value) ==>
        r == UpdateFailed(UpdateFailedError) && rows == old(rows)
      ensures currentUser.Some? && V.ParsePatch(host, patch).Some? && V.ParsePatch(host, patch) != Some(map[])
              && PatchConverts(V.ParsePatch(host, patch).value) && id !in old(rows) ==>
        r == Rejected(NotFoundMessage) && rows == old(rows)
      ensures currentUser.Some? && V.ParsePatch(host, patch).Some? && V.ParsePatch(host, patch) != Some(map[])
              && PatchConverts(V.ParsePatch(host, patch).value) && id in old(rows) ==>
        var row := PatchedRow(old(rows)[id], V.ParsePatch(host, patch).value, currentUser.value, activeOrganization, now);
        if Storable(old(rows), Some(id), row)
        then r == Updated(Stored(row), UpdatedMessage) && rows == old(rows)[id := Stored(row)]
        else r == UpdateFailed(UpdateFailedError) && rows == old(rows)
    {
      if currentUser.None? {
        return UpdateFailed(UpdateFailedError);
      }
      var validated := V.ParsePatch(host, patch);
      if validated.None? {
        return UpdateFailed(InvalidDataError);
      }
      if validated.value == map[] {
        return Rejected(NothingToUpdateMessage);
      }
      if !PatchConverts(validated.value) {
        return UpdateFailed(UpdateFailedError);
      }
      if id !in rows {
        return Rejected(NotFoundMessage);
      }
      var row := PatchedRow(rows[id], validated.value, currentUser.value, activeOrganization, now);
      if !Storable(rows, Some(id), row) {
        return UpdateFailed(UpdateFailedError);
      }
      V.ParsePatchKeepsDeclaredFields(host, patch);
      PatchedRowKeepsId(rows[id], validated.value, currentUser.value, activeOrganization, now);
      CommitInPlace(rows, id, row);
      rows := rows[id := Stored(row)];
      r := Updated(Stored(row), UpdatedMessage);
    }

    /** `deleteCustomer`: removes the row with that id, if any. */
    method DeleteCustomer(id: string)
      requires Valid()
      modifies this
      ensures Valid()
      ensures rows == old(rows) - {id}
    {
      rows := rows - {id};
    }

    /** `updateCourseField`: a write of one column named by the caller,
        checked against the table's own column names, together with
        `updatedAt`. Binding the statement refuses a value that does not
        convert to the column's type before any row is matched; a value
        written to `updatedAt` is overridden by the timestamp and never
        converted. */
    method UpdateCourseField(id: string, fieldName: string, value: string, now: int) returns (r: FieldResult)
      requires Valid()
      modifies this
      ensures Valid()
      ensures LookupColumn(fieldName).None? ==> r == FieldFailed(InvalidFieldError) && rows == old(rows)
      ensures LookupColumn(fieldName).Some? && !ValueConverts(LookupColumn(fieldName).value, value) ==>
        r == FieldFailed(FieldUpdateFailedError) && rows == old(rows)
      ensures LookupColumn(fieldName).Some? && ValueConverts(LookupColumn(fieldName).value, value) && id !in old(rows) ==>
        r == FieldFailed(NoRowAffectedError) && rows == old(rows)
      ensures LookupColumn(fieldName).Some? && ValueConverts(LookupColumn(fieldName).value, value) && id in old(rows) ==>
        var row := old(rows)[id][LookupColumn(fieldName).value := Str(value)][UpdatedAt := Stamp(now)];
        if Storable(old(rows), Some(id), row)
        then r == FieldUpdated && rows == Commit(old(rows), Some(id), row)
        else r == FieldFailed(FieldUpdateFailedError) && rows == old(rows)
    {
      var column := LookupColumn(fieldName);
      if column.None? {
        return FieldFailed(InvalidFieldError);
      }
      if !ValueConverts(column.value, value) {
        return FieldFailed(FieldUpdateFailedError);
      }
      if id !in rows {
        return FieldFailed(NoRowAffectedError);
      }
      var row := rows[id][column.value := Str(value)][UpdatedAt := Stamp(now)];
      if !Storable(rows, Some(id), row) {
        return FieldFailed(FieldUpdateFailedError);
      }
      CommitKeepsTableValid(rows, Some(id), row);
      rows := Commit(rows, Some(id), row);
      r := FieldUpdated;
    }
  }

  /** The value of a single-column write is bound to its column unless
      the column is `updatedAt`, whose key the timestamp overrides. */
  predicate ValueConverts(c: Column, value: string) {
    c == UpdatedAt || Converts(c, value)
  }

  /** A single-column write Postgres accepts passes the conversion check. */
  lemma StorableFieldWriteConverts(rows: map<string, Row>, id: string, r: Row, c: Column, value: string, now: int)
    requires Storable(rows, Some(id), r[c := Str(value)][UpdatedAt := Stamp(now)])
    ensures ValueConverts(c, value)
  {
    if c != UpdatedAt {
      assert Admits(c, r[c := Str(value)][UpdatedAt := Stamp(now)][c]);
      AdmittedTextConverts(c, value);
    }
  }

  /** A single-column write changes that column (`updatedAt` always ends
      as the write time) and no other cell of the row; a write of `id`
      gives the row a new key. */
  lemma FieldWriteChangesOnlyThatColumn(r: Row, c: Column, value: string, now: int)
    requires RowValid(r) && Writable(r[c := Str(value)][UpdatedAt := Stamp(now)])
    ensures var row := r[c := Str(value)][UpdatedAt := Stamp(now)];
      && KeyOf(row) == (if c == Id then value else KeyOf(r))
      && row[UpdatedAt] == Stamp(now)
      && (c != UpdatedAt ==> row[c] == Str(value))
      && (forall d :: d != c && d != UpdatedAt ==> row[d] == r[d])
  {
  }

  /** An insert that creates a second customer with an existing NCC fails. */
  lemma CreateWithTakenNccFails(rows: map<string, Row>, v: V.CustomerInput, id: string, now: int, k: string)
    requires TableValid(rows) && k in rows && rows[k][Ncc] == Str(v.ncc)
    ensures !Storable(rows, None, NewCustomerRow(v, id, now))
  {
    DuplicateNccRefused(rows, NewCustomerRow(v, id, now), k);
  }
}
