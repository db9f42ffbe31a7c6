/** The customer validator: the acceptance predicate of the zod schema
    `CreateCustomerSchema`, field by field, with its two cross-field date
    refinements, and the NCC upper-casing transform. Lengths are
    JavaScript lengths (UTF-16 code units), as zod measures them. */
module CustomerValidation {
  import opened Common
  import opened DateText
  import Schema

  // ---------------------------------------------------------------------
  // The three enums, as the validator lists them

  const LegalFormLiterals: seq<string> :=
    ["sarl", "sa", "sasu", "sas", "eurl", "individual", "sole_proprietorship", "other"]
  const SalaryRegimeLiterals: seq<string> := ["general", "agricultural"]
  const TaxRegimeLiterals: seq<string> := ["normal_real", "simplified_real", "micro", "other"]

  /** The validator accepts exactly the labels the database enums declare. */
  lemma ValidatorEnumsAreSchemaEnums()
    ensures forall s :: s in LegalFormLiterals <==> s in Schema.LegalFormLabels
    ensures forall s :: s in SalaryRegimeLiterals <==> s in Schema.SalaryRegimeLabels
    ensures forall s :: s in TaxRegimeLiterals <==> s in Schema.TaxRegimeLabels
  {
  }

  // ---------------------------------------------------------------------
  // Field rules

  predicate IsUpperAlnum(c: char) {
    'A' <= c <= 'Z' || '0' <= c <= '9'
  }

  /** `nccSchema` before its transform: `.min(1)`, `.length(7)` and
      `/^[A-Z0-9]+$/`. */
  predicate NccAccepted(s: string) {
    && Utf16Length(s) >= 1
    && Utf16Length(s) == 7
    && |s| >= 1 && (forall i :: 0 <= i < |s| ==> IsUpperAlnum(s[i]))
  }

  /** An NCC is accepted exactly when it is seven characters, each `A`-`Z`
      or `0`-`9`. */
  lemma NccAcceptedIff(s: string)
    ensures NccAccepted(s) <==> |s| == 7 && forall i :: 0 <= i < |s| ==> IsUpperAlnum(s[i])
  {
    if forall i :: 0 <= i < |s| ==> IsUpperAlnum(s[i]) {
      Utf16LengthOfBmp(s);
    }
  }

  function UpperChar(c: char): char {
    if 'a' <= c <= 'z' then (c as int - 32) as char else c
  }

  /** `toUpperCase`, on the ASCII letters. */
  function ToUpperCase(s: string): (u: string)
    ensures |u| == |s|
  {
    seq(|s|, i requires 0 <= i < |s| => UpperChar(s[i]))
  }

  /** `nccSchema.parse`: the accepted NCC, upper-cased. */
  function ParseNcc(s: string): Option<string> {
    if NccAccepted(s) then Some(ToUpperCase(s)) else None
  }

  /** Upper-casing changes no accepted NCC, so parsing returns its input
      and parsing again gives the same answer. */
  lemma ParseNccIsIdentity(s: string)
    requires NccAccepted(s)
    ensures ParseNcc(s) == Some(s)
    ensures ParseNcc(ParseNcc(s).value) == ParseNcc(s)
  {
    assert ToUpperCase(s) == s;
  }

  /** `dateSchema`: `.min(1)`, the `YYYY-MM-DD` shape, and a string
      `new Date` accepts. */
  predicate DateAccepted(host: Host, s: string) {
    Utf16Length(s) >= 1 && DateShape(s) && host.dateParses(s)
  }

  /** JavaScript's `\s`: the white-space and line-terminator code points. */
  predicate IsJsSpace(c: char) {
    var n := c as int;
    || n == 0x09 || n == 0x0A || n == 0x0B || n == 0x0C || n == 0x0D || n == 0x20
    || n == 0xA0 || n == 0x1680 || (0x2000 <= n <= 0x200A)
    || n == 0x2028 || n == 0x2029 || n == 0x202F || n == 0x205F || n == 0x3000 || n == 0xFEFF
  }

  /** The class `[\d\s\-\(\)]`. */
  predicate IsPhoneChar(c: char) {
    IsDigit(c) || IsJsSpace(c) || c == '-' || c == '(' || c == ')'
  }

  /** `/^\+?[\d\s\-\(\)]+$/`: an optional `+`, then at least one character
      of the class. */
  predicate PhoneShape(s: string) {
    || (|s| >= 1 && forall i :: 0 <= i < |s| ==> IsPhoneChar(s[i]))
    || (|s| >= 2 && s[0] == '+' && forall i :: 1 <= i < |s| ==> IsPhoneChar(s[i]))
  }

  /** `phoneSchema` on a supplied value: the pattern, or the empty string. */
  predicate PhoneAccepted(s: string) {
    s == "" || PhoneShape(s)
  }

  /** No digit is required: dashes alone pass, a lone `+` does not. */
  lemma PhoneExamples()
    ensures PhoneAccepted("") && PhoneAccepted("--") && PhoneAccepted("+225 07 08 09 10")
    ensures !PhoneAccepted("+") && !PhoneAccepted("07a")
  {
    var dashes, local := "--", "+225 07 08 09 10";
    assert forall i :: 0 <= i < |dashes| ==> IsPhoneChar(dashes[i]);
    assert local[0] == '+' && forall i :: 1 <= i < |local| ==> IsPhoneChar(local[i]);
    assert !IsPhoneChar('+');
    assert !IsPhoneChar('a');
    assert "07a"[2] == 'a';
  }

  /** `emailSchema` on a supplied value: an e-mail address, or the empty string. */
  predicate EmailAccepted(host: Host, s: string) {
    s == "" || host.isEmail(s)
  }

  /** `z.string().min(1).max(n)` */
  predicate RequiredMax(s: string, n: nat) {
    1 <= Utf16Length(s) <= n
  }

  /** The rule of the schema for a field of the customer record. Columns
      the schema does not declare have no rule: the parser drops them. */
  predicate FieldAccepted(host: Host, c: Schema.Column, s: string) {
    match c
    case Ncc => NccAccepted(s)
    case LegalName | Manager => RequiredMax(s, 255)
    case MainActivity | City | Municipality => Utf16Length(s) >= 1
    case Acronym | AccountNumber => Utf16Length(s) <= 50
    case Plot | Section | Block | Lot | PostalBox => Utf16Length(s) <= 20
    case LegalForm => s in LegalFormLiterals
    case SalaryRegime => s in SalaryRegimeLiterals
    case TaxRegime => s in TaxRegimeLiterals
    case ActivityStartDate | FiscalYearStart | FiscalYearEnd => DateAccepted(host, s)
    case Phone => PhoneAccepted(s)
    case Email => EmailAccepted(host, s)
    case CommercialRegister | TaxIdentificationNumber | SecondaryActivity | District | Street
       | RegionalDirectorate | Cdi | Bank | BankBranch | OrganizationId => true
    case Id | CreatedBy | CreatedAt | UpdatedAt | IsActive => false
  }

  /** The fields `CreateCustomerSchema` declares. */
  predicate IsInputColumn(c: Schema.Column) {
    !(c in {Schema.Id, Schema.CreatedBy, Schema.CreatedAt, Schema.UpdatedAt, Schema.IsActive})
  }

  // ---------------------------------------------------------------------
  // The customer record

  /** `CreateCustomerInput`; `None` is an absent optional field. */
  datatype CustomerInput = CustomerInput(
    ncc: string,
    commercialRegister: Option<string>,
    taxIdentificationNumber: Option<string>,
    legalName: string,
    acronym: Option<string>,
    legalForm: string,
    activityStartDate: string,
    manager: string,
    mainActivity: string,
    secondaryActivity: Option<string>,
    salaryRegime: string,
    taxRegime: string,
    fiscalYearStart: string,
    fiscalYearEnd: string,
    city: string,
    municipality: string,
    district: Option<string>,
    street: Option<string>,
    plot: Option<string>,
    section: Option<string>,
    block: Option<string>,
    lot: Option<string>,
    regionalDirectorate: Option<string>,
    cdi: Option<string>,
    postalBox: Option<string>,
    phone: Option<string>,
    email: Option<string>,
    bank: Option<string>,
    bankBranch: Option<string>,
    accountNumber: Option<string>,
    organizationId: Option<string>)

  /** The value the record gives the field of column `c`, if supplied. */
  function FieldOf(d: CustomerInput, c: Schema.Column): Option<string> {
    match c
    case Ncc => Some(d.ncc)
    case CommercialRegister => d.commercialRegister
    case TaxIdentificationNumber => d.taxIdentificationNumber
    case LegalName => Some(d.legalName)
    case Acronym => d.acronym
    case LegalForm => Some(d.legalForm)
    case ActivityStartDate => Some(d.activityStartDate)
    case Manager => Some(d.manager)
    case MainActivity => Some(d.mainActivity)
    case SecondaryActivity => d.secondaryActivity
    case SalaryRegime => Some(d.salaryRegime)
    case TaxRegime => Some(d.taxRegime)
    case FiscalYearStart => Some(d.fiscalYearStart)
    case FiscalYearEnd => Some(d.fiscalYearEnd)
    case City => Some(d.city)
    case Municipality => Some(d.municipality)
    case District => d.district
    case Street => d.street
    case Plot => d.plot
    case Section => d.section
    case Block => d.block
    case Lot => d.lot
    case RegionalDirectorate => d.regionalDirectorate
    case Cdi => d.cdi
    case PostalBox => d.postalBox
    case Phone => d.phone
    case Email => d.email
    case Bank => d.bank
    case BankBranch => d.bankBranch
    case AccountNumber => d.accountNumber
    case OrganizationId => d.organizationId
    case Id | CreatedBy | CreatedAt | UpdatedAt | IsActive => None
  }

  /** Every supplied field satisfies its rule. */
  predicate FieldsAccepted(host: Host, d: CustomerInput) {
    forall c: Schema.Column :: FieldOf(d, c).Some? ==> FieldAccepted(host, c, FieldOf(d, c).value)
  }

  /** The two `.refine` rules: fiscal-year start on or before its end, and
      activity start on or before the fiscal-year start. */
  predicate DatesOrdered(d: CustomerInput) {
    && DateShape(d.activityStartDate) && DateShape(d.fiscalYearStart) && DateShape(d.fiscalYearEnd)
    && DateLe(d.fiscalYearStart, d.fiscalYearEnd)
    && DateLe(d.activityStartDate, d.fiscalYearStart)
  }

  /** `CreateCustomerSchema` accepts the record. */
  predicate Accepts(host: Host, d: CustomerInput) {
    FieldsAccepted(host, d) && DatesOrdered(d)
  }

  /** `CreateCustomerSchema.parse`: the validated record, or failure. */
  function Parse(host: Host, d: CustomerInput): Option<CustomerInput> {
    if Accepts(host, d) then Some(d.(ncc := ToUpperCase(d.ncc))) else None
  }

  /** Parsing an accepted record returns it unchanged, so validating the
      validated output again accepts it and changes nothing. */
  lemma ParseIsIdentityOnAccepted(host: Host, d: CustomerInput)
    requires Accepts(host, d)
    ensures Parse(host, d) == Some(d)
    ensures Parse(host, Parse(host, d).value) == Parse(host, d)
  {
    assert FieldOf(d, Schema.Ncc).Some?;
    ParseNccIsIdentity(d.ncc);
  }

  /** The rule of one field, out of an accepted record. */
  lemma RuleHolds(host: Host, d: CustomerInput, c: Schema.Column)
    requires FieldsAccepted(host, d) && FieldOf(d, c).Some?
    ensures FieldAccepted(host, c, FieldOf(d, c).value)
  {
  }

  /** An accepted record's NCC is seven characters from `A`-`Z` and `0`-`9`. */
  lemma AcceptedNcc(host: Host, d: CustomerInput)
    requires Accepts(host, d)
    ensures |d.ncc| == 7 && forall i :: 0 <= i < 7 ==> IsUpperAlnum(d.ncc[i])
  {
    RuleHolds(host, d, Schema.Ncc);
    NccAcceptedIff(d.ncc);
  }

  /** An accepted record's required text fields are non-empty, and its
      names at most 255 characters. */
  lemma AcceptedRecordBounds(host: Host, d: CustomerInput)
    requires Accepts(host, d)
    ensures 1 <= |d.legalName| <= 255 && 1 <= |d.manager| <= 255
    ensures d.mainActivity != "" && d.city != "" && d.municipality != ""
  {
    RequiredShorterInCharacters(host, d, Schema.LegalName);
    RequiredShorterInCharacters(host, d, Schema.Manager);
    RequiredShorterInCharacters(host, d, Schema.MainActivity);
    RequiredShorterInCharacters(host, d, Schema.City);
    RequiredShorterInCharacters(host, d, Schema.Municipality);
  }

  /** The width bounds an accepted record promises, in characters: the
      acronym and the account number. */
  lemma AcceptedRecordWidths(host: Host, d: CustomerInput)
    requires Accepts(host, d)
    ensures d.acronym.Some? ==> |d.acronym.value| <= 50
    ensures d.accountNumber.Some? ==> |d.accountNumber.value| <= 50
  {
    OptionalShorterInCharacters(host, d, Schema.Acronym);
    OptionalShorterInCharacters(host, d, Schema.AccountNumber);
  }

  /** The width bounds of the address fields of an accepted record. */
  lemma AcceptedAddressWidths(host: Host, d: CustomerInput)
    requires Accepts(host, d)
    ensures d.plot.Some? ==> |d.plot.value| <= 20
    ensures d.section.Some? ==> |d.section.value| <= 20
    ensures d.block.Some? ==> |d.block.value| <= 20
    ensures d.lot.Some? ==> |d.lot.value| <= 20
    ensures d.postalBox.Some? ==> |d.postalBox.value| <= 20
  {
    OptionalShorterInCharacters(host, d, Schema.Plot);
    OptionalShorterInCharacters(host, d, Schema.Section);
    OptionalShorterInCharacters(host, d, Schema.Block);
    OptionalShorterInCharacters(host, d, Schema.Lot);
    OptionalShorterInCharacters(host, d, Schema.PostalBox);
  }

  /** An accepted record's enum fields carry labels of the database enums. */
  lemma AcceptedEnums(host: Host, d: CustomerInput)
    requires Accepts(host, d)
    ensures d.legalForm in Schema.LegalFormLabels
    ensures d.salaryRegime in Schema.SalaryRegimeLabels
    ensures d.taxRegime in Schema.TaxRegimeLabels
  {
    RuleHolds(host, d, Schema.Column.LegalForm);
    RuleHolds(host, d, Schema.Column.SalaryRegime);
    RuleHolds(host, d, Schema.Column.TaxRegime);
  }

  lemma RequiredShorterInCharacters(host: Host, d: CustomerInput, c: Schema.Column)
    requires FieldsAccepted(host, d) && FieldOf(d, c).Some?
    ensures var s := FieldOf(d, c).value; |s| <= Utf16Length(s) <= 2 * |s|
    ensures FieldAccepted(host, c, FieldOf(d, c).value)
  {
    RuleHolds(host, d, c);
    Utf16LengthBounds(FieldOf(d, c).value);
  }

  lemma OptionalShorterInCharacters(host: Host, d: CustomerInput, c: Schema.Column)
    requires FieldsAccepted(host, d)
    ensures FieldOf(d, c).Some? ==> |FieldOf(d, c).value| <= Utf16Length(FieldOf(d, c).value)
    ensures FieldOf(d, c).Some? ==> FieldAccepted(host, c, FieldOf(d, c).value)
  {
    if FieldOf(d, c).Some? {
      RuleHolds(host, d, c);
      Utf16LengthBounds(FieldOf(d, c).value);
    }
  }

  /** The refinements chain: activity start is on or before the fiscal-year
      end, and all three comparisons agree with plain string order. */
  lemma AcceptedDatesOrdered(host: Host, d: CustomerInput)
    requires Accepts(host, d)
    ensures DateLe(d.activityStartDate, d.fiscalYearEnd)
    ensures LexLe(d.activityStartDate, d.fiscalYearStart)
    ensures LexLe(d.fiscalYearStart, d.fiscalYearEnd)
    ensures LexLe(d.activityStartDate, d.fiscalYearEnd)
  {
    DateOrderTransitive(d.activityStartDate, d.fiscalYearStart, d.fiscalYearEnd);
    DateOrderIsStringOrder(d.activityStartDate, d.fiscalYearStart);
    DateOrderIsStringOrder(d.fiscalYearStart, d.fiscalYearEnd);
    DateOrderIsStringOrder(d.activityStartDate, d.fiscalYearEnd);
  }

  /** A phone number is never bounded by the validator: twenty-one digits pass. */
  lemma LongPhoneAccepted()
    ensures PhoneAccepted("012345678901234567890") && |"012345678901234567890"| == 21
  {
    var s := "012345678901234567890";
    assert forall i :: 0 <= i < |s| ==> IsDigit(s[i]);
  }
  // ---------------------------------------------------------------------
  // Partial records

  /** The keys of an update the schema declares, with their values. */
  function DeclaredFields(patch: map<Schema.Column, string>): map<Schema.Column, string> {
    map c | c in patch && IsInputColumn(c) :: patch[c]
  }

  /** `UpdateCustomerSchema.parse` on the fields of an update: undeclared
      keys are stripped, every supplied field must satisfy its rule, and
      `ncc` is upper-cased. */
  function ParsePatch(host: Host, patch: map<Schema.Column, string>): Option<map<Schema.Column, string>> {
    var fields := DeclaredFields(patch);
    if forall c :: c in fields ==> FieldAccepted(host, c, fields[c])
    then Some(map c | c in fields :: if c == Schema.Ncc then ToUpperCase(fields[c]) else fields[c])
    else None
  }

  /** An update is accepted exactly when each declared field it supplies
      passes its rule, and then parsing only drops the undeclared keys:
      the server-managed columns never come through. */
  lemma ParsePatchKeepsDeclaredFields(host: Host, patch: map<Schema.Column, string>)
    ensures ParsePatch(host, patch).Some? <==>
      forall c :: c in patch && IsInputColumn(c) ==> FieldAccepted(host, c, patch[c])
    ensures ParsePatch(host, patch).Some? ==> ParsePatch(host, patch).value == DeclaredFields(patch)
    ensures ParsePatch(host, patch).Some? ==> forall c :: c in ParsePatch(host, patch).value ==> IsInputColumn(c)
  {
    var fields := DeclaredFields(patch);
    if forall c :: c in patch && IsInputColumn(c) ==> FieldAccepted(host, c, patch[c]) {
      assert forall c :: c in fields ==> FieldAccepted(host, c, fields[c]);
      if Schema.Ncc in fields {
        ParseNccIsIdentity(fields[Schema.Ncc]);
      }
    } else {
      var c :| c in patch && IsInputColumn(c) && !FieldAccepted(host, c, patch[c]);
      assert c in fields;
    }
  }
}
