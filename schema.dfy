/** The relational schema: the enumerated types, the columns of the
    `customer` table with their SQL types, widths, NOT NULL and UNIQUE
    constraints and defaults, and the other tables' unique keys and
    defaults. What Postgres enforces on a write is stated here as
    predicates over rows. */
module Schema {
  import opened Common
  import opened DateText

  // ---------------------------------------------------------------------
  // Enumerated types

  /** `legal_form` */
  datatype LegalForm = Sarl | Sa | Sasu | Sas | Eurl | Individual | SoleProprietorship | Other

  function LegalFormLabel(f: LegalForm): string {
    match f
    case Sarl => "sarl"
    case Sa => "sa"
    case Sasu => "sasu"
    case Sas => "sas"
    case Eurl => "eurl"
    case Individual => "individual"
    case SoleProprietorship => "sole_proprietorship"
    case Other => "other"
  }

  /** The labels of `legal_form`, in declaration order. */
  const LegalFormLabels: seq<string> :=
    ["sarl", "sa", "sasu", "sas", "eurl", "individual", "sole_proprietorship", "other"]

  /** `salary_regime` */
  datatype SalaryRegime = General | Agricultural

  function SalaryRegimeLabel(r: SalaryRegime): string {
    match r
    case General => "general"
    case Agricultural => "agricultural"
  }

  const SalaryRegimeLabels: seq<string> := ["general", "agricultural"]

  /** `tax_regime` */
  datatype TaxRegime = NormalReal | SimplifiedReal | Micro | OtherRegime

  function TaxRegimeLabel(r: TaxRegime): string {
    match r
    case NormalReal => "normal_real"
    case SimplifiedReal => "simplified_real"
    case Micro => "micro"
    case OtherRegime => "other"
  }

  const TaxRegimeLabels: seq<string> := ["normal_real", "simplified_real", "micro", "other"]

  /** `role`, the type of `member.role` */
  datatype Role = Member | Admin | Owner | SuperAdmin

  function RoleLabel(r: Role): string {
    match r
    case Member => "member"
    case Admin => "admin"
    case Owner => "owner"
    case SuperAdmin => "super_admin"
  }

  const RoleLabels: seq<string> := ["member", "admin", "owner", "super_admin"]

  /** `subscription_status`: declared, but no column has this type. */
  const SubscriptionStatusLabels: seq<string> := ["active", "canceled", "incomplete", "past_due", "trialing"]

  /** The label lists of `legal_form`, `salary_regime` and `tax_regime`
      each name every value of their type exactly once. */
  lemma EnumLabelsMatchTypes()
    ensures forall f: LegalForm :: LegalFormLabel(f) in LegalFormLabels
    ensures forall s :: s in LegalFormLabels ==> exists f: LegalForm :: LegalFormLabel(f) == s
    ensures forall f, g: LegalForm :: LegalFormLabel(f) == LegalFormLabel(g) ==> f == g
    ensures forall r: SalaryRegime :: SalaryRegimeLabel(r) in SalaryRegimeLabels
    ensures forall s :: s in SalaryRegimeLabels ==> exists r: SalaryRegime :: SalaryRegimeLabel(r) == s
    ensures forall r, q: SalaryRegime :: SalaryRegimeLabel(r) == SalaryRegimeLabel(q) ==> r == q
    ensures forall r: TaxRegime :: TaxRegimeLabel(r) in TaxRegimeLabels
    ensures forall s :: s in TaxRegimeLabels ==> exists r: TaxRegime :: TaxRegimeLabel(r) == s
    ensures forall r, q: TaxRegime :: TaxRegimeLabel(r) == TaxRegimeLabel(q) ==> r == q
  {
    forall s | s in LegalFormLabels ensures exists f: LegalForm :: LegalFormLabel(f) == s {
      if s == "sarl" { assert LegalFormLabel(Sarl) == s; }
      else if s == "sa" { assert LegalFormLabel(Sa) == s; }
      else if s == "sasu" { assert LegalFormLabel(Sasu) == s; }
      else if s == "sas" { assert LegalFormLabel(Sas) == s; }
      else if s == "eurl" { assert LegalFormLabel(Eurl) == s; }
      else if s == "individual" { assert LegalFormLabel(Individual) == s; }
      else if s == "sole_proprietorship" { assert LegalFormLabel(SoleProprietorship) == s; }
      else { assert LegalFormLabel(Other) == s; }
    }
    forall s | s in SalaryRegimeLabels ensures exists r: SalaryRegime :: SalaryRegimeLabel(r) == s {
      if s == "general" { assert SalaryRegimeLabel(General) == s; }
      else { assert SalaryRegimeLabel(Agricultural) == s; }
    }
    forall s | s in TaxRegimeLabels ensures exists r: TaxRegime :: TaxRegimeLabel(r) == s {
      if s == "normal_real" { assert TaxRegimeLabel(NormalReal) == s; }
      else if s == "simplified_real" { assert TaxRegimeLabel(SimplifiedReal) == s; }
      else if s == "micro" { assert TaxRegimeLabel(Micro) == s; }
      else { assert TaxRegimeLabel(OtherRegime) == s; }
    }
  }

  /** The `role` label list names each role exactly once. */
  lemma RoleLabelsMatchType()
    ensures forall r: Role :: RoleLabel(r) in RoleLabels
    ensures forall s :: s in RoleLabels ==> exists r: Role :: RoleLabel(r) == s
    ensures forall r, q: Role :: RoleLabel(r) == RoleLabel(q) ==> r == q
  {
    forall s | s in RoleLabels ensures exists r: Role :: RoleLabel(r) == s {
      if s == "member" { assert RoleLabel(Member) == s; }
      else if s == "admin" { assert RoleLabel(Admin) == s; }
      else if s == "owner" { assert RoleLabel(Owner) == s; }
      else { assert RoleLabel(SuperAdmin) == s; }
    }
  }

  // ---------------------------------------------------------------------
  // The customer table

  /** The columns of `customer`, named as the table object's keys. */
  datatype Column =
    | Id | Ncc | CommercialRegister | TaxIdentificationNumber
    | LegalName | Acronym | LegalForm | ActivityStartDate | Manager
    | MainActivity | SecondaryActivity
    | SalaryRegime | TaxRegime
    | FiscalYearStart | FiscalYearEnd
    | City | Municipality | District | Street | Plot | Section | Block | Lot
    | RegionalDirectorate | Cdi | PostalBox
    | Phone | Email
    | Bank | BankBranch | AccountNumber
    | OrganizationId | CreatedBy
    | CreatedAt | UpdatedAt | IsActive

  /** The keys of the `customer` table object, in declaration order. */
  const Columns: seq<Column> := [
    Id, Ncc, CommercialRegister, TaxIdentificationNumber,
    LegalName, Acronym, Column.LegalForm, ActivityStartDate, Manager,
    MainActivity, SecondaryActivity,
    Column.SalaryRegime, Column.TaxRegime,
    FiscalYearStart, FiscalYearEnd,
    City, Municipality, District, Street, Plot, Section, Block, Lot,
    RegionalDirectorate, Cdi, PostalBox,
    Phone, Email,
    Bank, BankBranch, AccountNumber,
    OrganizationId, CreatedBy,
    CreatedAt, UpdatedAt, IsActive]

  function ColumnName(c: Column): string {
    match c
    case Id => "id"
    case Ncc => "ncc"
    case CommercialRegister => "commercialRegister"
    case TaxIdentificationNumber => "taxIdentificationNumber"
    case LegalName => "legalName"
    case Acronym => "acronym"
    case LegalForm => "legalForm"
    case ActivityStartDate => "activityStartDate"
    case Manager => "manager"
    case MainActivity => "mainActivity"
    case SecondaryActivity => "secondaryActivity"
    case SalaryRegime => "salaryRegime"
    case TaxRegime => "taxRegime"
    case FiscalYearStart => "fiscalYearStart"
    case FiscalYearEnd => "fiscalYearEnd"
    case City => "city"
    case Municipality => "municipality"
    case District => "district"
    case Street => "street"
    case Plot => "plot"
    case Section => "section"
    case Block => "block"
    case Lot => "lot"
    case RegionalDirectorate => "regionalDirectorate"
    case Cdi => "cdi"
    case PostalBox => "postalBox"
    case Phone => "phone"
    case Email => "email"
    case Bank => "bank"
    case BankBranch => "bankBranch"
    case AccountNumber => "accountNumber"
    case OrganizationId => "organizationId"
    case CreatedBy => "createdBy"
    case CreatedAt => "createdAt"
    case UpdatedAt => "updatedAt"
    case IsActive => "isActive"
  }

  /** `Object.keys(customer).includes(name)`, answered with the column so named. */
  function LookupColumn(name: string, cols: seq<Column> := Columns): (r: Option<Column>)
    ensures r.Some? <==> exists i :: 0 <= i < |cols| && ColumnName(cols[i]) == name
    ensures r.Some? ==> r.value in cols && ColumnName(r.value) == name
  {
    if cols == [] then None
    else if ColumnName(cols[0]) == name then Some(cols[0])
    else LookupColumn(name, cols[1..])
  }

  lemma ColumnsListsEveryColumn(c: Column)
    ensures c in Columns
  {
  }

  /** Looking up a name succeeds exactly when some column has that name,
      and then answers a column so named. */
  lemma LookupColumnFindsNamedColumn(name: string)
    ensures LookupColumn(name).Some? <==> exists c: Column :: ColumnName(c) == name
    ensures LookupColumn(name).Some? ==> ColumnName(LookupColumn(name).value) == name
  {
    if c: Column :| ColumnName(c) == name {
      ColumnsListsEveryColumn(c);
      var i :| 0 <= i < |Columns| && Columns[i] == c;
      assert ColumnName(Columns[i]) == name;
    }
  }

  /** The SQL type of a column. */
  datatype SqlType = TextType | VarChar(width: nat) | EnumType(labels: seq<string>) | DateType | TimestampType | BooleanType

  function TypeOf(c: Column): SqlType {
    match c
    case Ncc => VarChar(7)
    case Acronym => VarChar(50)
    case LegalForm => EnumType(LegalFormLabels)
    case SalaryRegime => EnumType(SalaryRegimeLabels)
    case TaxRegime => EnumType(TaxRegimeLabels)
    case ActivityStartDate | FiscalYearStart | FiscalYearEnd => DateType
    case Plot | Section | Block | Lot | PostalBox => VarChar(20)
    case Phone => VarChar(20)
    case Email => VarChar(255)
    case AccountNumber => VarChar(50)
    case CreatedAt | UpdatedAt => TimestampType
    case IsActive => BooleanType
    case _ => TextType
  }

  /** The columns declared `.notNull()` (and the primary key). */
  predicate NotNull(c: Column) {
    c in {Id, Ncc, LegalName, Column.LegalForm, ActivityStartDate, Manager, MainActivity,
          Column.SalaryRegime, Column.TaxRegime, FiscalYearStart, FiscalYearEnd, City, Municipality, Phone}
  }

  /** A cell of a row. Timestamps are whole milliseconds. */
  datatype Value = Null | Str(s: string) | Bool(b: bool) | Stamp(t: int)

  /** Whether `v` fits column `c` as stored: the right kind of value, the
      NOT NULL constraint, a `varchar` width, an enum label, a calendar date. */
  predicate Fits(c: Column, v: Value) {
    match v
    case Null => !NotNull(c)
    case Str(s) =>
      (match TypeOf(c)
       case TextType => true
       case VarChar(w) => |s| <= w
       case EnumType(labels) => s in labels
       case DateType => CalendarDate(s)
       case _ => false)
    case Bool(_) => TypeOf(c) == BooleanType
    case Stamp(_) => TypeOf(c) == TimestampType
  }

  /** The characters of `s` past position `w` are all spaces. */
  predicate SpacesFrom(s: string, w: nat) {
    forall i :: w <= i < |s| ==> s[i] == ' '
  }

  /** Whether Postgres writes `v` into column `c` without raising an error:
      a value that fits, or a value too long for its `varchar(w)` whose
      characters past the width are all spaces. */
  predicate Admits(c: Column, v: Value) {
    || Fits(c, v)
    || (v.Str? && TypeOf(c).VarChar? && SpacesFrom(v.s, TypeOf(c).width))
  }

  /** The value Postgres stores for `v`: a `varchar(w)` string longer than
      `w` is cut to its first `w` characters; any other value is kept. */
  function Coerce(c: Column, v: Value): (u: Value)
    ensures Admits(c, v) ==> Fits(c, u)
    ensures Fits(c, v) ==> u == v
  {
    match TypeOf(c)
    case VarChar(w) => if v.Str? && |v.s| > w then Str(v.s[..w]) else v
    case _ => v
  }

  /** An admitted string is stored as a prefix of itself, and only spaces
      are dropped: padding past a column's width is the one thing lost. */
  lemma CoerceDropsOnlySpaces(c: Column, v: Value)
    requires Admits(c, v) && v.Str?
    ensures var u := Coerce(c, v);
      && u.Str? && |u.s| <= |v.s| && v.s[..|u.s|] == u.s
      && SpacesFrom(v.s, |u.s|)
  {
  }

  /** A `varchar(w)` column admits a string exactly when it is at most `w`
      characters long or all its characters past `w` are spaces. */
  lemma VarCharAdmitsIff(c: Column, s: string)
    requires TypeOf(c).VarChar?
    ensures Admits(c, Str(s)) <==> |s| <= TypeOf(c).width || SpacesFrom(s, TypeOf(c).width)
  {
  }

  /** Whether Postgres converts a text parameter to the type of column `c`.
      It does so when binding the statement, before any row is matched:
      an enum takes only its labels and a `date` only a calendar date;
      `text` and `varchar` take any string (a width is checked only when a
      row is written); text for a boolean or timestamp column is refused,
      as in `Fits`. */
  predicate Converts(c: Column, s: string) {
    match TypeOf(c)
    case EnumType(labels) => s in labels
    case DateType => CalendarDate(s)
    case TextType | VarChar(_) => true
    case _ => false
  }

  /** Every string a column admits converts to its type, so a parameter
      that does not convert is refused whether or not a row matches. */
  lemma AdmittedTextConverts(c: Column, s: string)
    requires Admits(c, Str(s))
    ensures Converts(c, s)
  {
  }

  type Row = map<Column, Value>

  /** A row as the table holds it: a cell for every column, each fitting. */
  predicate RowValid(r: Row) {
    forall c: Column :: c in r && Fits(c, r[c])
  }

  /** A row that Postgres writes without raising an error. */
  predicate Writable(r: Row) {
    forall c: Column :: c in r && Admits(c, r[c])
  }

  /** The row Postgres stores for a writable row. */
  function Stored(r: Row): (r': Row)
    requires Writable(r)
    ensures RowValid(r')
  {
    map c: Column :: Coerce(c, r[c])
  }

  /** A row that already fits is stored as it is. */
  lemma StoredKeepsValidRow(r: Row)
    requires RowValid(r)
    ensures Writable(r) && Stored(r) == r
  {
    assert Writable(r);
    assert Stored(r).Keys == r.Keys;
  }

  /** The state of the `customer` table: rows by primary key. Each row
      carries its own key in `id`, and `ncc` is unique. */
  predicate TableValid(rows: map<string, Row>) {
    && (forall k :: k in rows ==> RowValid(rows[k]) && rows[k][Id] == Str(k))
    && (forall k, k' :: k in rows && k' in rows && k != k' ==> rows[k][Ncc] != rows[k'][Ncc])
  }

  /** The primary key of a writable row; `id` is text, so it is stored
      unchanged. */
  function KeyOf(r: Row): (k: string)
    requires Writable(r)
    ensures Stored(r)[Id] == r[Id] == Str(k)
  {
    assert Admits(Id, r[Id]);
    r[Id].s
  }

  /** Whether Postgres accepts writing `r`, either as a new row
      (`replacing` is None) or over the row whose key is `replacing`:
      every cell is admitted, and neither the primary key nor the stored
      `ncc` collides with another row. */
  predicate Storable(rows: map<string, Row>, replacing: Option<string>, r: Row) {
    && Writable(r)
    && (KeyOf(r) in rows ==> replacing == Some(KeyOf(r)))
    && (forall k :: k in rows && Some(k) != replacing && Ncc in rows[k] ==> rows[k][Ncc] != Coerce(Ncc, r[Ncc]))
  }

  /** The table after the write `Storable` allows. */
  function Commit(rows: map<string, Row>, replacing: Option<string>, r: Row): map<string, Row>
    requires Writable(r)
  {
    (if replacing.Some? then rows - {replacing.value} else rows)[KeyOf(r) := Stored(r)]
  }

  /** Every write Postgres accepts keeps the table's constraints, and
      stores the written row as Postgres coerces it. */
  lemma CommitKeepsTableValid(rows: map<string, Row>, replacing: Option<string>, r: Row)
    requires TableValid(rows) && Storable(rows, replacing, r)
    ensures TableValid(Commit(rows, replacing, r))
    ensures KeyOf(r) in Commit(rows, replacing, r)
    ensures Commit(rows, replacing, r)[KeyOf(r)] == Stored(r)
  {
    var rows' := Commit(rows, replacing, r);
    assert Stored(r)[Ncc] == Coerce(Ncc, r[Ncc]);
    forall k, k' | k in rows' && k' in rows' && k != k'
      ensures rows'[k][Ncc] != rows'[k'][Ncc]
    {
      if k == KeyOf(r) {
        assert k' in rows && Some(k') != replacing;
      } else if k' == KeyOf(r) {
        assert k in rows && Some(k) != replacing;
      }
    }
  }

  /** A write over the row with key `id` stores the new row under its own
      key, drops the old key, and leaves every other row as it was. */
  lemma CommitReplacingKeepsOtherRows(rows: map<string, Row>, id: string, r: Row)
    requires TableValid(rows) && id in rows && Storable(rows, Some(id), r)
    ensures var rows' := Commit(rows, Some(id), r);
      && KeyOf(r) in rows' && rows'[KeyOf(r)] == Stored(r)
      && rows'.Keys == rows.Keys - {id} + {KeyOf(r)}
      && (forall k :: k in rows && k != id ==> k in rows' && rows'[k] == rows[k])
  {
    var rows' := Commit(rows, Some(id), r);
    forall k | k in rows && k != id ensures k in rows' && rows'[k] == rows[k] {
      assert k != KeyOf(r);
    }
  }

  /** A second customer with an `ncc` already in the table is refused. */
  lemma DuplicateNccRefused(rows: map<string, Row>, r: Row, k: string)
    requires TableValid(rows) && k in rows && Ncc in r && rows[k][Ncc] == r[Ncc]
    ensures !Storable(rows, None, r)
  {
    assert Fits(Ncc, r[Ncc]);
  }

  /** A seven-character `ncc` padded with a space is stored without it,
      so it collides with the same code already in the table. */
  lemma PaddedNccCollides(rows: map<string, Row>, r: Row, k: string, ncc: string)
    requires TableValid(rows) && k in rows && rows[k][Ncc] == Str(ncc) && |ncc| == 7
    requires Ncc in r && r[Ncc] == Str(ncc + " ")
    ensures !Storable(rows, None, r)
  {
    assert (ncc + " ")[..7] == ncc;
  }

  // ---------------------------------------------------------------------
  // The other tables: unique keys and defaults

  datatype UserRow = UserRow(id: string, name: string, email: string, emailVerified: bool)
  datatype SessionRow = SessionRow(id: string, token: string, userId: string)
  datatype OrganizationRow = OrganizationRow(id: string, name: string, slug: Option<string>)
  datatype MemberRow = MemberRow(id: string, organizationId: string, userId: string, role: Role)
  datatype InvitationRow = InvitationRow(id: string, organizationId: string, email: string, role: Option<string>, status: string)
  datatype SubscriptionRow = SubscriptionRow(id: string, plan: string, referenceId: string, status: Option<string>, cancelAtPeriodEnd: Option<bool>)

  /** A key of a UNIQUE column; `None` is SQL NULL, which never collides. */
  predicate UniqueKeys<R>(rows: seq<R>, key: R -> Option<string>) {
    forall i, j :: 0 <= i < j < |rows| && key(rows[i]).Some? ==> key(rows[i]) != key(rows[j])
  }

  /** An insert into a table with a UNIQUE column: refused exactly when
      the new key is not NULL and already present. */
  function InsertUnique<R>(rows: seq<R>, r: R, key: R -> Option<string>): (res: Option<seq<R>>)
  {
    if key(r).Some? && exists i :: 0 <= i < |rows| && key(rows[i]) == key(r) then None
    else Some(rows + [r])
  }

  /** An insert that goes through keeps the column unique, and one that
      collides leaves the table as it was. */
  lemma InsertUniqueKeepsKeysUnique<R>(rows: seq<R>, r: R, key: R -> Option<string>)
    requires UniqueKeys(rows, key)
    ensures var res := InsertUnique(rows, r, key);
      && (res.Some? <==> key(r).None? || forall i :: 0 <= i < |rows| ==> key(rows[i]) != key(r))
      && (res.Some? ==> res.value == rows + [r] && UniqueKeys(res.value, key))
  {
    var res := InsertUnique(rows, r, key);
    if res.Some? {
      var rows' := res.value;
      forall i, j | 0 <= i < j < |rows'| && key(rows'[i]).Some?
        ensures key(rows'[i]) != key(rows'[j])
      {
        if j == |rows| {
          assert rows'[j] == r;
          assert rows'[i] == rows[i];
        } else {
          assert rows'[i] == rows[i] && rows'[j] == rows[j];
        }
      }
    }
  }

  /** `user.email` is UNIQUE and NOT NULL. */
  function UserEmail(u: UserRow): Option<string> { Some(u.email) }
  /** `session.token` is UNIQUE and NOT NULL. */
  function SessionToken(s: SessionRow): Option<string> { Some(s.token) }
  /** `organization.slug` is UNIQUE but nullable. */
  function OrganizationSlug(o: OrganizationRow): Option<string> { o.slug }

  /** Any number of organizations may have no slug. */
  lemma NullSlugsNeverCollide(orgs: seq<OrganizationRow>, o: OrganizationRow)
    requires o.slug.None?
    ensures InsertUnique(orgs, o, OrganizationSlug) == Some(orgs + [o])
  {
  }

  /** A second user with the same e-mail is refused. */
  lemma DuplicateEmailRefused(users: seq<UserRow>, u: UserRow, i: nat)
    requires i < |users| && users[i].email == u.email
    ensures InsertUnique(users, u, UserEmail).None?
  {
    assert UserEmail(users[i]) == UserEmail(u);
  }

  /** A second session with the same token is refused. */
  lemma DuplicateTokenRefused(sessions: seq<SessionRow>, t: SessionRow, i: nat)
    requires i < |sessions| && sessions[i].token == t.token
    ensures InsertUnique(sessions, t, SessionToken).None?
  {
    assert SessionToken(sessions[i]) == SessionToken(t);
  }

  /** A member row as inserted; an omitted role takes the default `member`. */
  function NewMember(id: string, organizationId: string, userId: string, role: Option<Role>): (m: MemberRow)
    ensures role.Some? ==> m.role == role.value
    ensures role.None? ==> RoleLabel(m.role) == "member" && RoleLabel(m.role) in RoleLabels
  {
    MemberRow(id, organizationId, userId, role.GetOr(Member))
  }

  /** An invitation as inserted; an omitted status takes the default `pending`. */
  function NewInvitation(id: string, organizationId: string, email: string, role: Option<string>, status: Option<string>): (v: InvitationRow)
    ensures status.None? ==> v.status == "pending"
    ensures status.Some? ==> v.status == status.value
  {
    InvitationRow(id, organizationId, email, role, status.GetOr("pending"))
  }

  /** A subscription as inserted: `status` defaults to `incomplete`,
      `cancelAtPeriodEnd` to false. The status column is plain text, so
      values outside `subscription_status` are stored too. */
  function NewSubscription(id: string, plan: string, referenceId: string, status: Option<string>, cancelAtPeriodEnd: Option<bool>): (s: SubscriptionRow)
    ensures status.None? ==> s.status == Some("incomplete")
    ensures status.Some? ==> s.status == status
    ensures cancelAtPeriodEnd.None? ==> s.cancelAtPeriodEnd == Some(false)
    ensures cancelAtPeriodEnd.Some? ==> s.cancelAtPeriodEnd == cancelAtPeriodEnd
  {
    SubscriptionRow(id, plan, referenceId, Some(status.GetOr("incomplete")), Some(cancelAtPeriodEnd.GetOr(false)))
  }

  /** The default status of a subscription is one of the declared
      statuses, but the column accepts others as well. */
  lemma SubscriptionStatusIsUnconstrained()
    ensures NewSubscription("s", "p", "r", None, None).status.value in SubscriptionStatusLabels
    ensures NewSubscription("s", "p", "r", Some("unpaid"), None).status.value !in SubscriptionStatusLabels
  {
  }

  /** `customer.is_active` defaults to true. */
  const DefaultIsActive: bool := true
}
