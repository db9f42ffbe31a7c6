# Customer dashboard core, modelled in Dafny

This project models the core of a small CRUD dashboard for accounting
customers. It covers five parts:

- **The customer validator.** This is the zod schema `CreateCustomerSchema`. It checks the NCC (a
  company identifier of seven upper-case alphanumerics), `YYYY-MM-DD` dates,
  the phone pattern, length bounds, the three closed enums and two cross-field
  date-order rules.
- **The database schema.** This covers the `customer` table's columns, SQL types, widths, NOT NULL and
  UNIQUE constraints and defaults, the enums, and the unique keys and defaults
  of the user, session, organization, member, invitation and subscription
  tables.
- **The customer server actions.** These are `getSingleCustomer`, `createCustomer`,
  `updateCustomer`, `deleteCustomer` and `updateCourseField`. They run over a
  table held in a class as a map from primary key to row.
- **The user form.** This covers its field and password rules, the request it sends in create
  and update mode, and its reset-after-success state.
- **Three client components.** The inline field editor has a display value, an edit flag and
  submit handling. The attachment list appends, removes the first occurrence and
  re-submits the whole list. The modal provider keeps `isOpen` and `modalContent`
  consistent.

Files:

- `common.dfy`: `Option`, `Result` and the JavaScript string length (UTF-16 code units).
  It also holds `Host`, the two library checks that stay opaque:
  - `new Date(s)` being a valid date;
  - zod's `.email()` format.
- `date_text.dfy`: date strings. `YYYY-MM-DD` strings are ordered by
  (year, month, day), and that order is proved to be plain string order. It
  also has the calendar check a Postgres `date` column applies.
- `schema.dfy`: the tables. A customer row is a map from column to cell.
  Postgres's acceptance of a write is the predicate `Storable`, and the row it
  then stores is `Stored`: a `varchar(w)` value longer than `w` whose excess
  characters are all spaces is cut to `w` characters rather than refused.
  `TableValid` (rows keyed by their own id, unique NCC) is preserved by every
  accepted write.
- `customer_validation.dfy`: the validator, as acceptance predicates per field
  and per record, and the parse of a partial record used by updates.
- `customer_store.dfy`: the rows the actions build (pure functions) and the
  `CustomerTable` class whose methods change the table.
- `user_form.dfy`, `dynamic_form.dfy`, `attachment_form.dfy`,
  `modal_provider.dfy`: the client components. Each has its pure rules as
  functions and its React state as a class whose methods update it.

Inputs from outside the code are parameters:

- the current user, or `None` where `getCurrentUser` throws;
- the active organization;
- the fresh id and the clock reading;
- the outcome of a server call or upload.

Some results the model exhibits:

- The validator bounds neither `phone` nor `email` while their columns are
  `varchar(20)` and `varchar(255)`. So `createCustomer` turns a record the
  validator accepts into "Failed to create customer" when its phone has more
  than 20 characters other than trailing spaces (`LongPhoneNeverStored`). A
  phone padded with spaces past 20 characters is stored cut to 20
  (`PaddedPhoneStoredTruncated`). `AcceptedRecordFitsColumns` therefore
  assumes both widths.
- In `updateCustomer`, `organizationId: activeOrganization?.id` is `undefined`
  when no organization is active. drizzle's `.set()` skips `undefined`, so the
  column then keeps its stored value. A supplied `organizationId` is never
  written.
- `updateCourseField` with `fieldName` `"updatedAt"` writes the timestamp,
  because the later key of the object literal wins. With `"id"` it re-keys the row.

## Model

| member | source | states |
|---|---|---|
| Common.Utf16LengthBounds | lib/validations/customer.ts:39-40 | a string's JavaScript length, which zod's `.max` bounds, is at least its character count, which `varchar(n)` bounds, and at most twice it |
| Common.Utf16Length | lib/validations/customer.ts:39 | JavaScript's `s.length`: one code unit per character of the Basic Multilingual Plane, two for any other (definition) |
| Common.Truthy | server/customers.ts:52 | an optional string is truthy exactly when present and non-empty (definition) |
| DateText.DigitsCompare | lib/validations/customer.ts:18 | two digit strings of one length compare as numbers exactly as they compare as strings, and are equal as numbers only when equal as strings |
| DateText.DateShape | lib/validations/customer.ts:18 | `^\d{4}-\d{2}-\d{2}$`: ten characters, digits around dashes at positions 4 and 7 (definition) |
| DateText.DateLe | lib/validations/customer.ts:83-95 | `new Date(a) <= new Date(b)` on two shaped dates, as (year, month, day) order (definition; its properties are the three lemmas below) |
| DateText.CalendarDate | db/schema.ts:140 | a `date` column takes a `YYYY-MM-DD` string whose month is 1 to 12 and whose day exists in that month, February 29 only in leap years (definition) |
| DateText.DateOrderIsStringOrder | lib/validations/customer.ts:83-95 | for `YYYY-MM-DD` strings the `new Date(a) <= new Date(b)` order is lexicographic string order |
| DateText.DateOrderAntisymmetric | lib/validations/customer.ts:83-95 | two dates each at or before the other are the same string |
| DateText.DateOrderTransitive | lib/validations/customer.ts:83-95 | the date order used by the refinements is transitive |
| Schema.EnumLabelsMatchTypes | db/schema.ts:5-11 | the label lists of `legal_form`, `salary_regime` and `tax_regime` each name every value of their type, and only those; labels of distinct values differ |
| Schema.RoleLabelsMatchType | db/schema.ts:97 | the `role` label list names every role, and only those; labels of distinct roles differ |
| Schema.LookupColumn | server/customers.ts:183-184 | a name is found exactly when some listed column has it, and the answer is a column of that name |
| Schema.ColumnsListsEveryColumn | db/schema.ts:128-187 | the key list of the `customer` table object holds every column |
| Schema.LookupColumnFindsNamedColumn | server/customers.ts:183-186 | the field-name check passes exactly for the names of the table's columns |
| Schema.TypeOf | db/schema.ts:128-187 | the SQL type of each `customer` column, with the widths of its `varchar` columns (definition) |
| Schema.NotNull | db/schema.ts:128-187 | the primary key and the columns declared `.notNull()` (definition) |
| Schema.Fits | db/schema.ts:128-187 | a stored cell has its column's kind, respects NOT NULL, its width, its enum labels and the calendar (definition) |
| Schema.Admits | db/schema.ts:128-187 | Postgres writes a value without error when it fits, or when it is a `varchar(w)` string whose characters past `w` are all spaces (definition) |
| Schema.VarCharAdmitsIff | db/schema.ts:171 | a `varchar(w)` column admits a string exactly when it has at most `w` characters or only spaces past the `w`th |
| Schema.Converts | db/schema.ts:128-187 | a text parameter converts to a column's type: any string for `text` and `varchar`, a label for an enum, a calendar date for `date`, none for boolean and timestamp (definition) |
| Schema.AdmittedTextConverts | db/schema.ts:128-187 | every string a column admits converts to its type |
| Schema.Coerce | db/schema.ts:171 | the value stored for an admitted value fits its column, and a value that already fits is stored unchanged |
| Schema.CoerceDropsOnlySpaces | db/schema.ts:171 | the stored string is a prefix of the written one, and every character dropped is a space |
| Schema.Stored | db/schema.ts:128-187 | the row stored for a writable row fits every column |
| Schema.StoredKeepsValidRow | db/schema.ts:128-187 | a row that already fits every column is writable and stored unchanged |
| Schema.KeyOf | db/schema.ts:129 | the key of a writable row is its `id`, which storing leaves unchanged |
| Schema.TableValid | db/schema.ts:129-132 | every row fits its columns and is keyed by its own `id`, and no two rows share an `ncc` (definition) |
| Schema.Storable | db/schema.ts:129-132 | a write is accepted when every cell is admitted and neither its key nor its stored `ncc` belongs to another row (definition) |
| Schema.Commit | db/schema.ts:129-132 | the table after an accepted write: the replaced key dropped, the stored row under its key (definition) |
| Schema.CommitKeepsTableValid | db/schema.ts:129-132 | every write Postgres accepts keeps rows keyed by their own id and `ncc` unique, and stores the written row, as Postgres coerces it, under its key |
| Schema.CommitReplacingKeepsOtherRows | db/schema.ts:129 | a write over one row stores it, as coerced, under its key, drops the old key, and leaves every other row unchanged |
| Schema.DuplicateNccRefused | db/schema.ts:132 | an insert whose `ncc` is already in the table is refused |
| Schema.PaddedNccCollides | db/schema.ts:132 | a seven-character `ncc` written with a trailing space is stored without it, so it collides with the same code already in the table |
| Schema.InsertUniqueKeepsKeysUnique | db/schema.ts:20 | an insert into a UNIQUE column succeeds exactly when its key is NULL or new, and then the column stays unique |
| Schema.InsertUnique | db/schema.ts:20 | an insert is refused exactly when its key is not NULL and already in the column (definition) |
| Schema.NullSlugsNeverCollide | db/schema.ts:88 | organizations without a slug never collide on the nullable unique `slug` |
| Schema.DuplicateEmailRefused | db/schema.ts:20 | a second user with an existing e-mail is refused |
| Schema.DuplicateTokenRefused | db/schema.ts:51 | a second session with an existing token is refused |
| Schema.NewMember | db/schema.ts:97-105 | a member's role is the given one, or, when omitted, the role labelled `member`, a `role` label |
| Schema.NewInvitation | db/schema.ts:122 | an invitation's status defaults to `pending` |
| Schema.NewSubscription | db/schema.ts:34-39 | a subscription's status defaults to `incomplete` and `cancelAtPeriodEnd` to false |
| Schema.SubscriptionStatusIsUnconstrained | db/schema.ts:34 | the default status is a `subscription_status` label, yet the text column also stores statuses outside that enum |
| CustomerValidation.ValidatorEnumsAreSchemaEnums | lib/validations/customer.ts:5-7 | the three validator enums accept exactly the labels of the database enums |
| CustomerValidation.NccAccepted | lib/validations/customer.ts:10-13 | `.min(1)`, `.length(7)` and `^[A-Z0-9]+$` (definition; `NccAcceptedIff` states it in characters) |
| CustomerValidation.ToUpperCase | lib/validations/customer.ts:14 | upper-casing keeps the length (ASCII letters only, see Left out) |
| CustomerValidation.ParseNcc | lib/validations/customer.ts:10-14 | the accepted NCC upper-cased, or failure (definition) |
| CustomerValidation.DateAccepted | lib/validations/customer.ts:16-19 | `.min(1)`, the `YYYY-MM-DD` shape and a string `new Date` parses (definition) |
| CustomerValidation.PhoneAccepted | lib/validations/customer.ts:21-24 | the empty string, or an optional `+` then one or more digits, JavaScript white space, dashes or parentheses (definition) |
| CustomerValidation.EmailAccepted | lib/validations/customer.ts:26-29 | the empty string or an e-mail address (definition) |
| CustomerValidation.FieldAccepted | lib/validations/customer.ts:32-82 | the rule of each declared field, none for server-managed columns (definition) |
| CustomerValidation.IsInputColumn | lib/validations/customer.ts:32-82 | the fields the schema declares: every column but `id`, `createdBy`, `createdAt`, `updatedAt` and `isActive` (definition) |
| CustomerValidation.DatesOrdered | lib/validations/customer.ts:83-95 | fiscal-year start on or before its end, activity start on or before fiscal-year start (definition) |
| CustomerValidation.Accepts | lib/validations/customer.ts:32-95 | every supplied field passes its rule and both refinements hold (definition) |
| CustomerValidation.Parse | lib/validations/customer.ts:32-95 | the accepted record with its NCC upper-cased, or failure (definition; `ParseIsIdentityOnAccepted` states its result) |
| CustomerValidation.NccAcceptedIff | lib/validations/customer.ts:10-13 | an NCC is accepted exactly when it has 7 characters, each `A`-`Z` or `0`-`9` |
| CustomerValidation.ParseNccIsIdentity | lib/validations/customer.ts:10-14 | the upper-casing transform returns every accepted NCC unchanged, so re-parsing is idempotent |
| CustomerValidation.PhoneExamples | lib/validations/customer.ts:21-24 | the empty phone and `--` are accepted, and no digit is required; a lone `+` and a letter are refused |
| CustomerValidation.LongPhoneAccepted | lib/validations/customer.ts:21-24 | the phone rule sets no length bound: 21 digits pass |
| CustomerValidation.DeclaredFields | server/customers.ts:110-111 | the supplied keys the schema declares, with their values (definition) |
| CustomerValidation.ParsePatch | server/customers.ts:110-111 | the partial parse: each declared supplied field checked, undeclared keys dropped, `ncc` upper-cased (definition; `ParsePatchKeepsDeclaredFields` states its result) |
| CustomerValidation.ParseIsIdentityOnAccepted | lib/validations/customer.ts:32-34 | parsing an accepted record returns it unchanged, and parsing the output again gives the same result |
| CustomerValidation.AcceptedNcc | lib/validations/customer.ts:10-13 | an accepted record's NCC has 7 characters, each from `A`-`Z` and `0`-`9` |
| CustomerValidation.AcceptedRecordBounds | lib/validations/customer.ts:39-59 | `legalName` and `manager` are 1 to 255 characters; `mainActivity`, `city` and `municipality` are non-empty |
| CustomerValidation.AcceptedRecordWidths | lib/validations/customer.ts:40-79 | `acronym` and `accountNumber`, when supplied, are at most 50 characters |
| CustomerValidation.AcceptedAddressWidths | lib/validations/customer.ts:62-70 | `plot`, `section`, `block`, `lot` and `postalBox`, when supplied, are at most 20 characters |
| CustomerValidation.AcceptedEnums | lib/validations/customer.ts:41-51 | an accepted record's legal form and regimes are labels of the database enums |
| CustomerValidation.AcceptedDatesOrdered | lib/validations/customer.ts:83-95 | in an accepted record, activity start ≤ fiscal-year start ≤ fiscal-year end, hence activity start ≤ fiscal-year end, in date and in string order |
| CustomerValidation.ParsePatchKeepsDeclaredFields | server/customers.ts:110-111 | an update is accepted exactly when each declared field it supplies passes its rule; parsing then only strips undeclared keys, so `id`, `createdBy`, `createdAt`, `updatedAt` and `isActive` never get through |
| CustomerStore.OrNull | server/customers.ts:52 | `x \|\| null` gives NULL exactly for an absent or empty field, and the field's text otherwise |
| CustomerStore.CreatedCell | server/customers.ts:49-85 | the cell of each column in the inserted object literal (definition; the two lemmas below state it) |
| CustomerStore.NewCustomerRow | server/customers.ts:49-85 | the inserted row, one cell per column (definition) |
| CustomerStore.NewRowCopiesRequiredFields | server/customers.ts:50-84 | the inserted row copies every required field unchanged, has the fresh id, `isActive` true, no `createdBy`, and both timestamps at the insertion time |
| CustomerStore.NewRowNormalisesOptionalFields | server/customers.ts:52-81 | each optional text field that is absent or empty is stored as NULL, any other as given; `phone` becomes `""` instead |
| CustomerStore.AcceptedRecordFitsColumns | server/customers.ts:46-88 | an accepted record whose phone and e-mail fit their columns and whose dates are calendar dates yields a row every column admits |
| CustomerStore.LongPhoneNeverStored | db/schema.ts:171 | a phone the validator accepts (21 digits, the excess not spaces) makes the insert fail on `varchar(20)` |
| CustomerStore.PaddedPhoneStoredTruncated | db/schema.ts:171 | a phone of ten digits and fifteen spaces passes the validator, `varchar(20)` admits it, and Postgres stores its first 20 characters |
| CustomerStore.CreateWithTakenNccFails | server/customers.ts:88 | creating a customer with an NCC already in the table fails |
| CustomerStore.PatchedRow | server/customers.ts:114-119 | the validated fields but `organizationId`, then owner, timestamp and active organization, an undefined one skipped (definition; the lemmas below state it) |
| CustomerStore.PatchedRowKeepsId | server/customers.ts:133-135 | an update never changes the row's `id`, since `id` is not a declared field |
| CustomerStore.PatchConverts | server/customers.ts:133-136 | every field an update writes, other than the server's ownership columns, converts to its column's type (definition) |
| CustomerStore.StorablePatchConverts | server/customers.ts:133-136 | a patched row Postgres accepts passes the conversion check, so that check refuses no update that would be stored |
| CustomerStore.CommitInPlace | server/customers.ts:133-136 | an accepted update that keeps the key replaces that row, as stored, where it stands, and the table stays valid |
| CustomerStore.PatchedRowOwnership | server/customers.ts:114-119 | an update sets `createdBy` to the current user, `updatedAt` to the write time, and `organizationId` to the active organization, or leaves it when there is none |
| CustomerStore.PatchedRowChangesOnlyThoseFields | server/customers.ts:114-136 | apart from those three columns, an update writes exactly the supplied fields and leaves every other cell as it was |
| CustomerStore.FieldWriteChangesOnlyThatColumn | server/customers.ts:189-198 | a single-column write changes that column and `updatedAt` (which ends as the write time) and no other cell; writing `id` re-keys the row |
| CustomerStore.ValueConverts | server/customers.ts:189-198 | the value is converted to its column's type unless the column is `updatedAt`, whose key the timestamp overrides (definition) |
| CustomerStore.StorableFieldWriteConverts | server/customers.ts:189-198 | a single-column write Postgres accepts passes the conversion check |
| CustomerStore.CustomerTable.constructor | db/schema.ts:128 | a new table is empty and valid |
| CustomerStore.CustomerTable.GetSingleCustomer | server/customers.ts:23-39 | returns the row with that id, whose `id` cell is that id, or "Customer not found" exactly when there is none |
| CustomerStore.CustomerTable.CreateCustomer | server/customers.ts:41-100 | inserts the normalised row exactly when there is a current user, the record is accepted and Postgres admits the row, and returns the row as stored (space padding past a width cut off); otherwise "Failed to create customer" with the table unchanged; the table stays valid |
| CustomerStore.CustomerTable.UpdateCustomer | server/customers.ts:102-167 | no user: generic error; invalid field: validation error; no fields: "Aucune donnée valide à mettre à jour"; a field that does not convert to its column's type: generic error, whether or not the row exists; no row: "Client non trouvé"; all with no write; otherwise the patched row, as Postgres stores it, replaces that row alone and is returned, or the generic error if Postgres refuses it |
| CustomerStore.CustomerTable.DeleteCustomer | server/customers.ts:169-176 | removes exactly the row with that id, keeping the table valid |
| CustomerStore.CustomerTable.UpdateCourseField | server/customers.ts:180-211 | an unknown field name gives "Invalid field name"; a value that does not convert to the column's type gives "Failed to update course" whether or not the row exists; a missing row then gives "Course not found or no changes made"; all with no write; otherwise the one-column write is committed as Postgres stores it (a value padded with spaces past its width is cut to it), or "Failed to update course" if Postgres refuses it |
| UserForm.UpdatePasswordRule | components/forms/UserForm.tsx:87-94 | on update, a password is accepted exactly when absent, empty or at least 3 long; lengths 1 and 2 are refused |
| UserForm.FieldsOk | components/forms/UserForm.tsx:37-54 | role, first name, last name and e-mail each at least 2 long, and the e-mail an address (definition) |
| UserForm.PasswordOk | components/forms/UserForm.tsx:80-95 | the password refinement in create and update mode (definition; the two lemmas below state it) |
| UserForm.Accepts | components/forms/UserForm.tsx:78-101 | the resolver: the field rules and the password refinement (definition) |
| UserForm.CreatePasswordRule | components/forms/UserForm.tsx:83-85 | on create, a password is accepted exactly when present and at least 3 long |
| UserForm.CreateAcceptanceImpliesUpdate | components/forms/UserForm.tsx:80-100 | every form create mode accepts is accepted in update mode |
| UserForm.Defaults | components/forms/UserForm.tsx:103-109 | default values are the edited user's, or all empty, with an empty password |
| UserForm.EmptyCreateFormRejected | components/forms/UserForm.tsx:103-109 | the empty create form fails validation |
| UserForm.BuildRequest | components/forms/UserForm.tsx:117-145 | the `updateUser` or `createUser` call `onSubmit` makes (definition; `RequestCarriesFormValues` states it) |
| UserForm.RequestCarriesFormValues | components/forms/UserForm.tsx:117-145 | update is sent exactly when a user is edited; names, role and e-mail are the form's; `fullName` is first name, one space, last name; on update a non-empty entered password is sent and otherwise `""`; the password sent is never one the form refuses |
| UserForm.ResultToast | components/forms/UserForm.tsx:146-169 | the toast is destructive exactly when the call did not succeed |
| UserForm.FormState.constructor | components/forms/UserForm.tsx:103-109 | the form starts at its default values, not marked for reset |
| UserForm.FormState.Edit | components/forms/UserForm.tsx:102 | a change sets the values and leaves the reset flag |
| UserForm.FormState.Submit | components/forms/UserForm.tsx:113-172 | refused values send nothing; accepted ones send the request, and only a success marks the form for reset; values untouched |
| UserForm.FormState.ResetEffect | components/forms/UserForm.tsx:176-184 | a pending reset clears the values to the defaults in create mode only, then clears the flag |
| DynamicForm.ValueValidIffNonEmpty | components/dynamic-form.tsx:60-62 | the edited value is valid exactly when non-empty |
| DynamicForm.ValueValid | components/dynamic-form.tsx:60-62 | `z.string().min(1)` (definition) |
| DynamicForm.DisplayValue | components/dynamic-form.tsx:168-172 | the text shown while not editing (definition; the three lemmas below state it) |
| DynamicForm.FindOption | components/dynamic-form.tsx:170 | finds the first option with the value, or reports that none has it |
| DynamicForm.DisplayOfPlainValue | components/dynamic-form.tsx:168-172 | null or undefined shows "Non défini"; other input types show the value itself, `""` included |
| DynamicForm.SelectShowsFirstMatch | components/dynamic-form.tsx:169-170 | a select shows the title of the first matching option, or "Non défini" if that title is empty |
| DynamicForm.SelectWithoutMatchIsUndefined | components/dynamic-form.tsx:169-170 | a select with no matching option, or no options, shows "Non défini" |
| DynamicForm.SubmitEnabled | components/dynamic-form.tsx:207 | `!(isSubmitting \|\| !isValid)` (definition) |
| DynamicForm.SubmitEnabledIff | components/dynamic-form.tsx:207 | submit is enabled exactly when not submitting and the value is non-empty |
| DynamicForm.InlineEditor.constructor | components/dynamic-form.tsx:54-71 | the editor starts not editing, with value `initialData \|\| ""` and the default messages |
| DynamicForm.InlineEditor.ToggleEdit | components/dynamic-form.tsx:54-55 | flips the edit flag, so two toggles restore it |
| DynamicForm.InlineEditor.Edit | components/dynamic-form.tsx:66-71 | a change sets the value and leaves the edit flag |
| DynamicForm.InlineEditor.Submit | components/dynamic-form.tsx:75-90 | an empty value calls nothing; otherwise the update is called, a success toast leaves edit mode, and a failure or throw stays in it |
| AttachmentForm.IndexOf | components/attachment-form.tsx:54 | -1 exactly when the name is absent; otherwise the position of its first occurrence |
| AttachmentForm.RemoveFirst | components/attachment-form.tsx:53-59 | the list without the first occurrence of a name (definition; the two lemmas below state it) |
| AttachmentForm.SpliceRemovesFirst | components/attachment-form.tsx:54-56 | splicing at `indexOf` removes exactly the first occurrence, keeping the order of the rest |
| AttachmentForm.RemoveFirstContents | components/attachment-form.tsx:53-59 | removing a present name shortens the list by one and takes one copy out; an absent name changes nothing |
| AttachmentForm.AttachmentList.constructor | components/attachment-form.tsx:19-22 | the list starts as the course's attachments, nothing sent |
| AttachmentForm.AttachmentList.Submit | components/attachment-form.tsx:25-37 | the whole current list is sent |
| AttachmentForm.AttachmentList.HandleFileChange | components/attachment-form.tsx:39-51 | a successful upload appends its name at the end and sends the list; a failure changes and sends nothing |
| AttachmentForm.AttachmentList.OnDelete | components/attachment-form.tsx:53-59 | the first occurrence is removed and the list sent; an absent name changes and sends nothing |
| ModalProvider.FalsyNodes | providers/modal-provider.tsx:32 | the falsy nodes are exactly null, undefined, false, zero, NaN, `0n` and `""` |
| ModalProvider.Falsy | providers/modal-provider.tsx:32 | `!modal` on a React node (definition) |
| ModalProvider.Consistent | providers/modal-provider.tsx:24-51 | open with truthy content, or closed with null content (definition) |
| ModalProvider.ConsistentMeansOpenIffContent | providers/modal-provider.tsx:24-26 | in every consistent state the modal is open exactly when its content is not null |
| ModalProvider.Provider.constructor | providers/modal-provider.tsx:24-26 | the provider starts closed with null content |
| ModalProvider.Provider.SetOpen | providers/modal-provider.tsx:28-45 | a falsy node changes nothing; any other is stored and opens the modal; consistency is kept |
| ModalProvider.Provider.SetClose | providers/modal-provider.tsx:47-51 | closes with null content whatever the state, so it is idempotent |
| ModalProvider.UseModal | providers/modal-provider.tsx:62-68 | returns the provider's context, or the "must be used within a ModalProvider" error exactly when there is none |

## Left out

- `new Date(s)` validity and zod's `.email()` format are opaque predicates in `Host`. The refinements' `new Date(a) <= new Date(b)` is modelled as (year, month, day) order. That is exact for real calendar days. It does not capture an engine that rolls an out-of-range day such as `2024-02-30` over into the next month.
- A Postgres `date` column is modelled as admitting exactly the `YYYY-MM-DD` strings that name a Gregorian day. Its other accepted input formats, and its rejection of year 0000, are not modelled.
- CustomerStore.CustomerTable.UpdateCustomer: validation of a partial update is per-field checks on the supplied keys. The two cross-field date refinements are not applied. In zod 3 a refined schema offers no `.partial()`, so as written the call may fail before any validation. That depends on the library version, which is not part of this model. A key supplied with the value `undefined` is not modelled: the partial parse keeps it, so it counts towards "data to update", and drizzle's `.set()` then skips it, so `updateCustomer(id, {ncc: undefined})` writes only `createdBy`, `updatedAt` and the active organization and reports success instead of "Aucune donnée valide à mettre à jour".
- CustomerValidation.ToUpperCase: upper-cases ASCII letters only. It matters only for the NCC, which is accepted only when already upper-case alphanumeric.
- CustomerStore.CustomerTable.UpdateCourseField: the value is a string, where the source accepts any value. Postgres's casts of text to boolean or timestamp are not modelled: a string written to `isActive`, `createdAt` or `updatedAt` is treated as refused. If the table object's keys include a non-column key (such as `enableRLS`), writing it is not modelled either.
- Schema.LookupColumnFindsNamedColumn: states that a name is found exactly when some column has it. It does not state that column names are pairwise distinct.
- Foreign keys and cascades are not modelled: `organizationId` and `createdBy` references, deletes cascading to accounting periods and documents. So `deleteCustomer` and its "Failed to delete customer" path always succeed in the model, and a dangling `organizationId` is not refused.
- Text cells are not checked for NUL characters, which Postgres refuses.
- `getCurrentUser` is a parameter (`None` when it throws). `getActiveOrganization` is taken not to throw. `server/users.ts` and `server/organizations.ts` are not part of this model.
- `getCustomers` returns the whole table. It is a plain read and is not modelled.
- Ids, clocks, toasts from the UI libraries, `router.refresh`, console logging and the database driver are outside the model. The two `new Date()` calls of `createCustomer` are taken as one instant `now`.
- The user form's `isView` state and password visibility toggle, and the rendering of every component, are not modelled.
- DynamicForm.InlineEditor.Submit: the save is atomic. A toggle made while the update call is pending would be flipped again by a successful save; that interleaving is not modelled.
- AttachmentForm.AttachmentList: the list is a sequence field that the methods reassign. The aliasing of `initialData.attachments` with the parent's props is not modelled. The course update the list is sent to, and its success toast, are recorded only as the sequence of lists sent.
- AttachmentForm.AttachmentList.HandleFileChange: an upload that throws (the call to `UploadCourseFile` is outside any `try`) rejects the handler with no toast; the model has only the reported failure, which shows the error message.
- ModalProvider.Provider.SetOpen: `setOpen` is `async` but awaits nothing, so it is modelled as a synchronous update. React's batching of the two state updates is taken as one step.
