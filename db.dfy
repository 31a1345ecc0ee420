/**
 * The server's data-access layer: shaping a partial user record into the insert
 * values and the conflict-update set, the keyed upsert, the user lookup, lead
 * creation and listing, and how each of them behaves when there is no database.
 */
module Db {
  import opened Wrappers
  import opened Schema

  datatype Error =
    | MissingIdentifier   // "User openId is required for upsert"
    | StorageUnavailable  // "Database not available"
    | PersistenceError    // the write was rejected by storage and re-raised

  // ------------------------------------------------------------ field shaping

  /** The three nullable text columns that `upsertUser` copies, in the order it visits them. */
  datatype TextColumn = NameColumn | EmailColumn | LoginMethodColumn

  const TextColumns: seq<TextColumn> := [NameColumn, EmailColumn, LoginMethodColumn]

  /** `user[field]` for a text column. */
  function Supplied(user: InsertUser, c: TextColumn): Field<string> {
    match c
    case NameColumn => user.name
    case EmailColumn => user.email
    case LoginMethodColumn => user.loginMethod
  }

  /** `set[field]` for a text column. */
  function TextOf(s: ColumnSet, c: TextColumn): Field<string> {
    match c
    case NameColumn => s.name
    case EmailColumn => s.email
    case LoginMethodColumn => s.loginMethod
  }

  /** `set[field] = v`. */
  function WithText(s: ColumnSet, c: TextColumn, v: Field<string>): (r: ColumnSet)
    ensures TextOf(r, c) == v
    ensures forall d :: d != c ==> TextOf(r, d) == TextOf(s, d)
    ensures r.role == s.role && r.lastSignedIn == s.lastSignedIn
  {
    match c
    case NameColumn => s.(name := v)
    case EmailColumn => s.(email := v)
    case LoginMethodColumn => s.(loginMethod := v)
  }

  /** The empty record `{}`. */
  const NoColumns := ColumnSet(Absent, Absent, Absent, None, None)

  /** `values` (besides `openId`) and `updateSet` as `upsertUser` hands them to storage. */
  datatype UpsertSets = UpsertSets(values: ColumnSet, updateSet: ColumnSet)

  /** The role `upsertUser` writes, if any: an explicit role, else 'admin' for the owner. */
  function ResolvedRole(user: InsertUser, ownerId: string): Option<string> {
    if user.role.Some? then user.role
    else if user.openId == ownerId then Some(AdminRole)
    else None
  }

  /**
   * What `upsertUser` builds before it writes: `now` is the clock reading used for
   * the missing `lastSignedIn`, `ownerId` the configured owner identifier.
   */
  function ShapeUpsert(user: InsertUser, ownerId: string, now: Timestamp): (s: UpsertSets)
    // an absent text field is in neither record; a present one, null included, is in both
    ensures forall c :: TextOf(s.values, c) == Supplied(user, c) && TextOf(s.updateSet, c) == Supplied(user, c)
    // role resolution
    ensures user.role.Some? ==> s.values.role == user.role && s.updateSet.role == user.role
    ensures user.role.None? && user.openId == ownerId ==>
      s.values.role == Some(AdminRole) && s.updateSet.role == Some(AdminRole)
    ensures user.role.None? && user.openId != ownerId ==> s.values.role.None? && s.updateSet.role.None?
    // the insert always carries lastSignedIn: the supplied one, else now
    ensures s.values.lastSignedIn.Some?
    ensures user.lastSignedIn.Some? ==> s.values.lastSignedIn == user.lastSignedIn
    ensures user.lastSignedIn.None? ==> s.values.lastSignedIn == Some(now)
    // the update set is never empty
    ensures !s.updateSet.IsEmpty()
    ensures user.lastSignedIn.Some? ==> s.updateSet.lastSignedIn == user.lastSignedIn
    // without a supplied lastSignedIn, the update touches it only when nothing else was shaped
    ensures user.lastSignedIn.None? ==>
      (s.updateSet.lastSignedIn.Some? <==>
         user.name.Absent? && user.email.Absent? && user.loginMethod.Absent? && ResolvedRole(user, ownerId).None?)
    ensures s.updateSet.lastSignedIn.Some? ==> s.updateSet.lastSignedIn == s.values.lastSignedIn
  {
    var shaped := ColumnSet(user.name, user.email, user.loginMethod, ResolvedRole(user, ownerId), user.lastSignedIn);
    var values := shaped.(lastSignedIn := Some(user.lastSignedIn.GetOr(now)));
    var updateSet := if shaped.IsEmpty() then shaped.(lastSignedIn := Some(now)) else shaped;
    UpsertSets(values, updateSet)
  }

  /**
   * The step-by-step construction of the two records: the `forEach(assignNullable)`
   * over the text columns, then `lastSignedIn`, the role, the `lastSignedIn`
   * default and the non-empty fallback.
   */
  method BuildUpsertSets(user: InsertUser, ownerId: string, now: Timestamp) returns (values: ColumnSet, updateSet: ColumnSet)
    ensures UpsertSets(values, updateSet) == ShapeUpsert(user, ownerId, now)
  {
    values := NoColumns;
    updateSet := NoColumns;
    for i := 0 to |TextColumns|
      invariant values.role.None? && values.lastSignedIn.None? && updateSet == values
      invariant forall j :: 0 <= j < i ==> TextOf(values, TextColumns[j]) == Supplied(user, TextColumns[j])
      invariant forall j :: i <= j < |TextColumns| ==> TextOf(values, TextColumns[j]).Absent?
    {
      var c := TextColumns[i];
      var v := Supplied(user, c);
      if !v.Absent? {
        values := WithText(values, c, v);
        updateSet := WithText(updateSet, c, v);
      }
    }
    assert values == ColumnSet(user.name, user.email, user.loginMethod, None, None) by {
      assert TextOf(values, TextColumns[0]) == user.name;
      assert TextOf(values, TextColumns[1]) == user.email;
      assert TextOf(values, TextColumns[2]) == user.loginMethod;
    }

    if user.lastSignedIn.Some? {
      values := values.(lastSignedIn := user.lastSignedIn);
      updateSet := updateSet.(lastSignedIn := user.lastSignedIn);
    }
    if user.role.Some? {
      values := values.(role := user.role);
      updateSet := updateSet.(role := user.role);
    } else if user.openId == ownerId {
      values := values.(role := Some(AdminRole));
      updateSet := updateSet.(role := Some(AdminRole));
    }

    if values.lastSignedIn.None? {
      values := values.(lastSignedIn := Some(now));
    }
    if updateSet.IsEmpty() {
      updateSet := updateSet.(lastSignedIn := Some(now));
    }
  }

  // ------------------------------------------------------------ operations on the tables

  /**
   * The outcome of `upsertUser` on the users table: `Ok` with the table afterwards
   * (the unchanged table when there is no database), or the error raised.
   */
  function UpsertUserOutcome(available: bool, t: UserTable, user: InsertUser, ownerId: string, now: Timestamp): (r: Result<UserTable, Error>)
    requires t.Valid()
    // a missing identifier is refused before storage is looked at
    ensures user.openId == "" ==> r == Err(MissingIdentifier)
    // no database: a silent no-op
    ensures user.openId != "" && !available ==> r == Ok(t)
    ensures r.Err? ==> r.error != StorageUnavailable
    ensures r.Err? && user.openId != "" ==> r.error == PersistenceError
    ensures r.Ok? ==> r.value.Valid()
    // after a successful write exactly one row carries the identifier, and no other row changed
    ensures r.Ok? && available && user.openId != "" ==>
      && user.openId in r.value.rows
      && (forall k :: k in r.value.rows && r.value.rows[k].openId == user.openId ==> k == user.openId)
      && r.value.rows.Keys == t.rows.Keys + {user.openId}
      && (forall k :: k in t.rows && k != user.openId ==> r.value.rows[k] == t.rows[k])
  {
    if user.openId == "" then Err(MissingIdentifier)
    else if !available then Ok(t)
    else
      var s := ShapeUpsert(user, ownerId, now);
      match t.Upsert(user.openId, s.values, s.updateSet, now)
      case Some(t') => Ok(t')
      case None => Err(PersistenceError)
  }

  /** The four columns `createLead` maps from its argument; the caller's id and createdAt are dropped. */
  function LeadData(lead: InsertLead): (string, string, string, string) {
    (lead.fullName, lead.email, lead.phone, lead.instagram)
  }

  /** The outcome of `createLead` on the leads table. */
  function CreateLeadOutcome(available: bool, t: LeadTable, lead: InsertLead, now: Timestamp): (r: Result<LeadTable, Error>)
    requires t.Valid()
    ensures !available ==> r == Err(StorageUnavailable)
    ensures available ==> (r.Ok? <==> LeadColumnsFit(lead.fullName, lead.email, lead.phone, lead.instagram))
    ensures available && r.Err? ==> r.error == PersistenceError
    // exactly one row is appended, carrying the four input fields verbatim, and
    // an id and createdAt chosen by storage
    ensures r.Ok? ==>
      && r.value.Valid()
      && |r.value.rows| == |t.rows| + 1
      && r.value.rows[..|t.rows|] == t.rows
      && var row := r.value.rows[|t.rows|];
         && row.fullName == lead.fullName && row.email == lead.email
         && row.phone == lead.phone && row.instagram == lead.instagram
         && row.createdAt == now
         && (forall i :: 0 <= i < |t.rows| ==> t.rows[i].id != row.id)
  {
    if !available then Err(StorageUnavailable)
    else
      var (fullName, email, phone, instagram) := LeadData(lead);
      match t.Insert(fullName, email, phone, instagram, now)
      case Some(t') => Ok(t')
      case None => Err(PersistenceError)
  }

  /**
   * `createLead` maps only the four user-supplied columns: whatever `id` and
   * `createdAt` the caller puts in the record, storage chooses both.
   */
  lemma CallerKeysIgnored(available: bool, t: LeadTable, lead: InsertLead, id: Option<nat>, createdAt: Option<Timestamp>, now: Timestamp)
    requires t.Valid()
    ensures CreateLeadOutcome(available, t, lead, now) == CreateLeadOutcome(available, t, lead.(id := id, createdAt := createdAt), now)
    ensures var r := CreateLeadOutcome(available, t, lead.(id := id, createdAt := createdAt), now);
      r.Ok? ==> r.value.rows[|t.rows|].id == t.nextId && r.value.rows[|t.rows|].createdAt == now
  {
  }

  // ------------------------------------------------------------ the store

  /**
   * The process-wide storage handle with the two tables behind it. `available`
   * stands for `getDb()` returning a live connection; it never changes here.
   */
  class Store {
    var available: bool
    var users: UserTable
    var leads: LeadTable

    ghost predicate Valid()
      reads this
    {
      users.Valid() && leads.Valid()
    }

    constructor (available: bool)
      ensures Valid() && this.available == available
      ensures users.rows == map[] && leads.rows == []
    {
      this.available := available;
      users := UserTable(map[], 1);
      leads := LeadTable([], 1);
    }

    /** `upsertUser(user)` with the configured owner identifier and the current time. */
    method UpsertUser(user: InsertUser, ownerId: string, now: Timestamp) returns (r: Result<(), Error>)
      requires Valid()
      modifies this
      ensures Valid()
      ensures available == old(available) && leads == old(leads)
      ensures var o := UpsertUserOutcome(old(available), old(users), user, ownerId, now);
        && (r.Ok? <==> o.Ok?)
        && (o.Ok? ==> users == o.value)
        && (o.Err? ==> r.error == o.error && users == old(users))
    {
      if user.openId == "" {
        return Err(MissingIdentifier);
      }
      if !available {
        return Ok(());
      }
      var values, updateSet := BuildUpsertSets(user, ownerId, now);
      var written := users.Upsert(user.openId, values, updateSet, now);
      if written.None? {
        return Err(PersistenceError);
      }
      users := written.value;
      r := Ok(());
    }

    /**
     * `getUserByOpenId(openId)`: the matching row, or `undefined`; a key storage
     * cannot bind (one containing U+0000) makes the query raise.
     */
    method GetUserByOpenId(openId: string) returns (r: Result<Option<UserRow>, Error>)
      requires Valid()
      ensures !available ==> r == Ok(None)
      ensures available && !NoNul(openId) ==> r == Err(PersistenceError)
      ensures available && NoNul(openId) ==>
        r.Ok? && (r.value.Some? <==> exists k :: k in users.rows && users.rows[k].openId == openId)
      ensures r.Ok? && r.value.Some? ==>
        r.value.value.openId == openId && openId in users.rows && r.value.value == users.rows[openId]
    {
      if !available {
        return Ok(None);
      }
      if !NoNul(openId) {
        return Err(PersistenceError);
      }
      if openId in users.rows {
        r := Ok(Some(users.rows[openId]));
      } else {
        r := Ok(None);
      }
    }

    /** `createLead(lead)`: appends one row, or raises. */
    method CreateLead(lead: InsertLead, now: Timestamp) returns (r: Result<(), Error>)
      requires Valid()
      modifies this
      ensures Valid()
      ensures available == old(available) && users == old(users)
      ensures var o := CreateLeadOutcome(old(available), old(leads), lead, now);
        && (r.Ok? <==> o.Ok?)
        && (o.Ok? ==> leads == o.value)
        && (o.Err? ==> r.error == o.error && leads == old(leads))
    {
      if !available {
        return Err(StorageUnavailable);
      }
      var (fullName, email, phone, instagram) := LeadData(lead);
      var inserted := leads.Insert(fullName, email, phone, instagram, now);
      if inserted.None? {
        return Err(PersistenceError);
      }
      leads := inserted.value;
      r := Ok(());
    }

    /** `getAllLeads()`: every lead row, in insertion order, or raises. */
    method GetAllLeads() returns (r: Result<seq<LeadRow>, Error>)
      requires Valid()
      ensures !available ==> r == Err(StorageUnavailable)
      ensures available ==> r.Ok? && r.value == leads.rows
    {
      if !available {
        return Err(StorageUnavailable);
      }
      r := Ok(leads.rows);
    }
  }

  // ------------------------------------------------------------ properties across calls

  /** A user record that supplies nothing but the identifier. */
  function BareUser(openId: string): InsertUser {
    InsertUser(None, openId, Absent, Absent, Absent, None, None, None, None)
  }

  /**
   * Two logins of a non-owner identifier that supply nothing else leave exactly
   * one row for it, whose `lastSignedIn` is the second login's time.
   */
  lemma RepeatedLoginRefreshesLastSignedIn(t: UserTable, x: string, ownerId: string, now1: Timestamp, now2: Timestamp)
    requires t.Valid() && x != "" && x != ownerId && TextFits(x, OpenIdMax)
    ensures UpsertUserOutcome(true, t, BareUser(x), ownerId, now1).Ok?
    ensures var t1 := UpsertUserOutcome(true, t, BareUser(x), ownerId, now1).value;
      var r := UpsertUserOutcome(true, t1, BareUser(x), ownerId, now2);
      && r.Ok?
      && x in r.value.rows
      && (forall k :: k in r.value.rows && r.value.rows[k].openId == x ==> k == x)
      && r.value.rows[x].lastSignedIn == now2
  {
  }

  /**
   * For the owner, a record without role, name, email, login method or
   * lastSignedIn shapes to `{role: 'admin'}`; that update set is not empty, so a
   * second such login does NOT refresh `lastSignedIn`.
   */
  lemma OwnerReloginKeepsLastSignedIn(t: UserTable, ownerId: string, now1: Timestamp, now2: Timestamp)
    requires t.Valid() && ownerId != "" && TextFits(ownerId, OpenIdMax)
    ensures UpsertUserOutcome(true, t, BareUser(ownerId), ownerId, now1).Ok?
    ensures var t1 := UpsertUserOutcome(true, t, BareUser(ownerId), ownerId, now1).value;
      var r := UpsertUserOutcome(true, t1, BareUser(ownerId), ownerId, now2);
      && r.Ok?
      && r.value.rows[ownerId].role == AdminRole
      && r.value.rows[ownerId].lastSignedIn == t1.rows[ownerId].lastSignedIn
  {
  }

  /** Without an explicit role, the owner identifier ends up with role 'admin', inserted or updated. */
  lemma OwnerIsAdmin(t: UserTable, user: InsertUser, ownerId: string, now: Timestamp)
    requires t.Valid() && user.openId == ownerId && user.role.None?
    requires UpsertUserOutcome(true, t, user, ownerId, now).Ok?
    ensures UpsertUserOutcome(true, t, user, ownerId, now).value.rows[ownerId].role == AdminRole
  {
  }

  /** A name supplied on one login survives a later login that omits it: absent is not null. */
  lemma OmittedNameIsKept(t: UserTable, y: string, a: string, ownerId: string, now1: Timestamp, now2: Timestamp)
    requires t.Valid() && y != ""
    requires UpsertUserOutcome(true, t, BareUser(y).(name := Value(a)), ownerId, now1).Ok?
    ensures var t1 := UpsertUserOutcome(true, t, BareUser(y).(name := Value(a)), ownerId, now1).value;
      var r := UpsertUserOutcome(true, t1, BareUser(y), ownerId, now2);
      && r.Ok?
      && r.value.rows[y].name == Some(a)
  {
  }

  /** The same lead submitted twice gives two rows with the same four fields and distinct ids. */
  lemma DuplicateLeadsAreDistinctRows(t: LeadTable, lead: InsertLead, now1: Timestamp, now2: Timestamp)
    requires t.Valid() && LeadColumnsFit(lead.fullName, lead.email, lead.phone, lead.instagram)
    ensures CreateLeadOutcome(true, t, lead, now1).Ok?
    ensures var t1 := CreateLeadOutcome(true, t, lead, now1).value;
      var r := CreateLeadOutcome(true, t1, lead, now2);
      && r.Ok?
      && |r.value.rows| == |t.rows| + 2
      && var a, b := r.value.rows[|t.rows|], r.value.rows[|t.rows| + 1];
         && a.id != b.id
         && (a.fullName, a.email, a.phone, a.instagram) == (b.fullName, b.email, b.phone, b.instagram)
  {
  }
}
