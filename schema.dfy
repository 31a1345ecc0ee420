/**
 * The two tables of the persisted schema, `users` and `leads_midnight_ravers`,
 * with their column constraints (not-null by typing, varchar length bounds,
 * defaults, the unique `openId`, storage-assigned serial ids), and what the
 * storage engine does on INSERT and on INSERT ... ON CONFLICT DO UPDATE.
 */
module Schema {
  import opened Wrappers

  /** A point in time in milliseconds; stands for JavaScript `Date` values and `timestamp` columns. */
  type Timestamp = int

  // varchar(n) bounds of the `users` table
  const OpenIdMax: nat := 64
  const UserEmailMax: nat := 320
  const LoginMethodMax: nat := 64
  const RoleMax: nat := 20

  // varchar(n) bounds of the `leads_midnight_ravers` table
  const FullNameMax: nat := 255
  const LeadEmailMax: nat := 320
  const PhoneMax: nat := 50
  const InstagramMax: nat := 100

  /** Default of the `role` column, and the role the owner identifier is given. */
  const DefaultRole := "user"
  const AdminRole := "admin"

  /**
   * One column of an insert or update record: not mentioned at all (`undefined`),
   * explicitly `null`, or a value.
   */
  datatype Field<+T> = Absent | Null | Value(value: T)

  /** The value of a nullable column after the record `f` has been written over `current`. */
  function Assign(f: Field<string>, current: Option<string>): Option<string> {
    match f
    case Absent => current
    case Null => None
    case Value(s) => Some(s)
  }

  /** Storage refuses the character U+0000 in every character column, `text` included. */
  predicate NoNul(s: string) {
    forall i :: 0 <= i < |s| ==> s[i] != '\0'
  }

  /** A string storage accepts in a varchar(max) column. */
  predicate TextFits(s: string, max: nat) {
    |s| <= max && NoNul(s)
  }

  /** A nullable varchar(max) column: NULL or an accepted string. */
  predicate NullableFits(v: Option<string>, max: nat) {
    v.None? || TextFits(v.value, max)
  }

  /** A field written into a nullable varchar(max) column is accepted by storage. */
  predicate FieldFits(f: Field<string>, max: nat) {
    !f.Value? || TextFits(f.value, max)
  }

  // ---------------------------------------------------------------- users

  /** A row of `users`; `name`, `email` and `loginMethod` are the nullable columns. */
  datatype UserRow = UserRow(
    id: nat,
    openId: string,
    name: Option<string>,
    email: Option<string>,
    loginMethod: Option<string>,
    role: string,
    createdAt: Timestamp,
    updatedAt: Timestamp,
    lastSignedIn: Timestamp)

  /**
   * Every character column of the row holds a string storage accepts: within its
   * declared length (`name` is `text`, unbounded) and free of U+0000.
   */
  predicate UserRowFits(r: UserRow) {
    && TextFits(r.openId, OpenIdMax)
    && (r.name.None? || NoNul(r.name.value))
    && NullableFits(r.email, UserEmailMax)
    && NullableFits(r.loginMethod, LoginMethodMax)
    && TextFits(r.role, RoleMax)
  }

  /**
   * The insert type of `users`: `openId` is required, the nullable columns may be
   * absent or null, the defaulted columns may be absent.
   */
  datatype InsertUser = InsertUser(
    id: Option<nat>,
    openId: string,
    name: Field<string>,
    email: Field<string>,
    loginMethod: Field<string>,
    role: Option<string>,
    createdAt: Option<Timestamp>,
    updatedAt: Option<Timestamp>,
    lastSignedIn: Option<Timestamp>)

  /**
   * The columns besides `openId` that an insert record or a conflict update set
   * may carry; a column that is `Absent`/`None` is not part of the record.
   */
  datatype ColumnSet = ColumnSet(
    name: Field<string>,
    email: Field<string>,
    loginMethod: Field<string>,
    role: Option<string>,
    lastSignedIn: Option<Timestamp>)
  {
    /** No column at all: `Object.keys(set).length === 0`. */
    predicate IsEmpty() {
      name.Absent? && email.Absent? && loginMethod.Absent? && role.None? && lastSignedIn.None?
    }

    /** Every string the record writes is accepted by its column. */
    predicate Fits() {
      && (!name.Value? || NoNul(name.value))
      && FieldFits(email, UserEmailMax)
      && FieldFits(loginMethod, LoginMethodMax)
      && (role.None? || TextFits(role.value, RoleMax))
    }

    /** No string of the record contains U+0000: storage refuses such a parameter as soon as it is bound. */
    predicate NoNuls() {
      && (!name.Value? || NoNul(name.value))
      && (!email.Value? || NoNul(email.value))
      && (!loginMethod.Value? || NoNul(loginMethod.value))
      && (role.None? || NoNul(role.value))
    }
  }

  /** The row an INSERT creates from `values`, with the column defaults filled in. */
  function NewUserRow(id: nat, openId: string, values: ColumnSet, now: Timestamp): UserRow {
    UserRow(
      id, openId,
      Assign(values.name, None), Assign(values.email, None), Assign(values.loginMethod, None),
      values.role.GetOr(DefaultRole),
      now, now,
      values.lastSignedIn.GetOr(now))
  }

  /** The row after `DO UPDATE SET updateSet`: only the columns of the set are written. */
  function UpdatedUserRow(row: UserRow, updateSet: ColumnSet): UserRow {
    row.(
      name := Assign(updateSet.name, row.name),
      email := Assign(updateSet.email, row.email),
      loginMethod := Assign(updateSet.loginMethod, row.loginMethod),
      role := updateSet.role.GetOr(row.role),
      lastSignedIn := updateSet.lastSignedIn.GetOr(row.lastSignedIn))
  }

  /** A new row is accepted exactly when its identifier and the insert record are. */
  lemma NewUserRowFits(id: nat, openId: string, values: ColumnSet, now: Timestamp)
    ensures UserRowFits(NewUserRow(id, openId, values, now)) <==> TextFits(openId, OpenIdMax) && values.Fits()
  {
  }

  /** An accepted row stays accepted after an update exactly when the update set is accepted. */
  lemma UpdatedUserRowFits(row: UserRow, updateSet: ColumnSet)
    requires UserRowFits(row)
    ensures UserRowFits(UpdatedUserRow(row, updateSet)) <==> updateSet.Fits()
  {
  }

  /** The `users` table: rows keyed by the unique `openId`, and the serial counter for `id`. */
  datatype UserTable = UserTable(rows: map<string, UserRow>, nextId: nat)
  {
    /**
     * The table constraints: each row is stored under its own `openId` (so `openId`
     * is unique and not null), every varchar fits, and ids are distinct serial values.
     */
    ghost predicate Valid() {
      && (forall k :: k in rows ==> rows[k].openId == k && UserRowFits(rows[k]) && rows[k].id < nextId)
      && (forall k, k' :: k in rows && k' in rows && rows[k].id == rows[k'].id ==> k == k')
    }

    /**
     * `INSERT INTO users VALUES (openId, values) ON CONFLICT (openId) DO UPDATE SET updateSet`,
     * as one atomic step; `None` is the error storage raises when a value of the
     * insert record, or of the update set on a conflict, is not accepted by its column,
     * or when any string parameter contains U+0000.
     */
    function Upsert(openId: string, values: ColumnSet, updateSet: ColumnSet, now: Timestamp): (r: Option<UserTable>)
      requires Valid()
      // every parameter of the statement is bound, the update set's included, before a conflict is looked for
      ensures openId !in rows ==> (r.Some? <==> TextFits(openId, OpenIdMax) && values.Fits() && updateSet.NoNuls())
      // the VALUES row is checked against the column types before any conflict is looked for
      ensures openId in rows ==> (r.Some? <==> values.Fits() && updateSet.Fits())
      ensures r.Some? ==> r.value.Valid()
      ensures r.Some? ==> r.value.rows.Keys == rows.Keys + {openId}
      ensures r.Some? ==> forall k :: k in rows && k != openId ==> r.value.rows[k] == rows[k]
      // first contact: a fresh id and the column defaults
      ensures r.Some? && openId !in rows ==>
        var row := r.value.rows[openId];
        && (forall k :: k in rows ==> rows[k].id != row.id)
        && row.role == (if values.role.Some? then values.role.value else DefaultRole)
        && row.createdAt == now && row.updatedAt == now
        && row.lastSignedIn == (if values.lastSignedIn.Some? then values.lastSignedIn.value else now)
        && (values.name.Absent? ==> row.name.None?)
        && (values.email.Absent? ==> row.email.None?)
        && (values.loginMethod.Absent? ==> row.loginMethod.None?)
      // conflict: id, openId, createdAt and updatedAt are kept; an absent column is kept
      ensures r.Some? && openId in rows ==>
        var before, row := rows[openId], r.value.rows[openId];
        && row.id == before.id && row.openId == before.openId
        && row.createdAt == before.createdAt && row.updatedAt == before.updatedAt
        && (updateSet.name.Absent? ==> row.name == before.name)
        && (updateSet.email.Absent? ==> row.email == before.email)
        && (updateSet.loginMethod.Absent? ==> row.loginMethod == before.loginMethod)
        && (updateSet.role.None? ==> row.role == before.role)
        && (updateSet.lastSignedIn.None? ==> row.lastSignedIn == before.lastSignedIn)
      // every column that is written gets exactly the written value
      ensures r.Some? ==>
        var written, row := (if openId in rows then updateSet else values), r.value.rows[openId];
        && (written.name.Null? ==> row.name.None?)
        && (written.name.Value? ==> row.name == Some(written.name.value))
        && (written.email.Null? ==> row.email.None?)
        && (written.email.Value? ==> row.email == Some(written.email.value))
        && (written.loginMethod.Null? ==> row.loginMethod.None?)
        && (written.loginMethod.Value? ==> row.loginMethod == Some(written.loginMethod.value))
        && (written.role.Some? ==> row.role == written.role.value)
        && (written.lastSignedIn.Some? ==> row.lastSignedIn == written.lastSignedIn.value)
    {
      if openId in rows then
        var row := UpdatedUserRow(rows[openId], updateSet);
        UpdatedUserRowFits(rows[openId], updateSet);
        if values.Fits() && updateSet.Fits() then Some(UserTable(rows[openId := row], nextId)) else None
      else
        var row := NewUserRow(nextId, openId, values, now);
        NewUserRowFits(nextId, openId, values, now);
        if TextFits(openId, OpenIdMax) && values.Fits() && updateSet.NoNuls() then Some(UserTable(rows[openId := row], nextId + 1)) else None
    }
  }

  // ---------------------------------------------------------------- leads

  /** A row of `leads_midnight_ravers`; every column is not-null. */
  datatype LeadRow = LeadRow(
    id: nat,
    fullName: string,
    email: string,
    phone: string,
    instagram: string,
    createdAt: Timestamp)

  /** The four user-supplied lead columns are accepted: within their varchar bounds and free of U+0000. */
  predicate LeadColumnsFit(fullName: string, email: string, phone: string, instagram: string) {
    && TextFits(fullName, FullNameMax) && TextFits(email, LeadEmailMax)
    && TextFits(phone, PhoneMax) && TextFits(instagram, InstagramMax)
  }

  /** The insert type of the leads table: `id` and `createdAt` have storage defaults. */
  datatype InsertLead = InsertLead(
    id: Option<nat>,
    fullName: string,
    email: string,
    phone: string,
    instagram: string,
    createdAt: Option<Timestamp>)

  /**
   * The leads table in insertion order, with the serial counter for `id`. No column
   * is unique: nothing stops two rows from carrying the same four values.
   */
  datatype LeadTable = LeadTable(rows: seq<LeadRow>, nextId: nat)
  {
    ghost predicate Valid() {
      && (forall i :: 0 <= i < |rows| ==>
            LeadColumnsFit(rows[i].fullName, rows[i].email, rows[i].phone, rows[i].instagram) && rows[i].id < nextId)
      && (forall i, j :: 0 <= i < j < |rows| ==> rows[i].id < rows[j].id)
    }

    /**
     * `INSERT INTO leads_midnight_ravers (full_name, email, phone, instagram) VALUES (...)`:
     * `id` and `created_at` come from storage; `None` is the error storage raises
     * when a value is longer than its column allows.
     */
    function Insert(fullName: string, email: string, phone: string, instagram: string, now: Timestamp): (r: Option<LeadTable>)
      requires Valid()
      ensures r.Some? <==> LeadColumnsFit(fullName, email, phone, instagram)
      ensures r.Some? ==> r.value.Valid()
      ensures r.Some? ==> |r.value.rows| == |rows| + 1 && r.value.rows[..|rows|] == rows
      ensures r.Some? ==>
        var row := r.value.rows[|rows|];
        && row.fullName == fullName && row.email == email && row.phone == phone && row.instagram == instagram
        && row.createdAt == now
        && (forall i :: 0 <= i < |rows| ==> rows[i].id != row.id)
    {
      if LeadColumnsFit(fullName, email, phone, instagram) then
        Some(LeadTable(rows + [LeadRow(nextId, fullName, email, phone, instagram, now)], nextId + 1))
      else
        None
    }
  }
}
