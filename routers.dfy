/**
 * The `leads` procedures of the request router: the input schema of
 * `leads.create`, its sequencing with `createLead`, and `leads.list`.
 */
module Routers {
  import opened Wrappers
  import opened Schema
  import Db

  /** The parsed input of `leads.create`: exactly the four declared keys. */
  datatype CreateLeadInput = CreateLeadInput(fullName: string, email: string, phone: string, instagram: string)

  /** One validation issue: the offending key and the schema's message for it. */
  datatype Issue = Issue(path: string, message: string)

  const FullNameRequired := "Nome completo é obrigatório"
  const EmailInvalid := "Email inválido"
  const PhoneRequired := "Telefone é obrigatório"
  const InstagramRequired := "Instagram é obrigatório"

  /**
   * The issues the input schema reports, key by key in declaration order. Only
   * `min(1)` and the email syntax are checked, not the storage lengths; `isEmail`
   * stands for the validator library's email check.
   */
  function Issues(input: CreateLeadInput, isEmail: string -> bool): (r: seq<Issue>)
    ensures r == [] <==>
      |input.fullName| >= 1 && isEmail(input.email) && |input.phone| >= 1 && |input.instagram| >= 1
    ensures input.fullName == "" <==> Issue("fullName", FullNameRequired) in r
    ensures !isEmail(input.email) <==> Issue("email", EmailInvalid) in r
    ensures input.phone == "" <==> Issue("phone", PhoneRequired) in r
    ensures input.instagram == "" <==> Issue("instagram", InstagramRequired) in r
    // one issue per failing key and no other
    ensures |r| == (if input.fullName == "" then 1 else 0) + (if !isEmail(input.email) then 1 else 0)
      + (if input.phone == "" then 1 else 0) + (if input.instagram == "" then 1 else 0)
  {
    (if |input.fullName| < 1 then [Issue("fullName", FullNameRequired)] else [])
    + (if !isEmail(input.email) then [Issue("email", EmailInvalid)] else [])
    + (if |input.phone| < 1 then [Issue("phone", PhoneRequired)] else [])
    + (if |input.instagram| < 1 then [Issue("instagram", InstagramRequired)] else [])
  }

  /** The record `leads.create` passes to `createLead`: the parsed input as it is. */
  function AsInsertLead(input: CreateLeadInput): (lead: InsertLead)
    ensures lead.id.None? && lead.createdAt.None?
    ensures (lead.fullName, lead.email, lead.phone, lead.instagram) == (input.fullName, input.email, input.phone, input.instagram)
  {
    InsertLead(None, input.fullName, input.email, input.phone, input.instagram, None)
  }

  /** What a caller of the router sees go wrong. */
  datatype RouteError =
    | Invalid(issues: seq<Issue>)  // rejected by the input schema; the handler never ran
    | Failed(error: Db.Error)      // raised by the data-access layer

  /** `{ success: true }` */
  datatype CreateResponse = CreateResponse(success: bool)

  /** `leads.create`: validate, then `await createLead(input)`, then `{ success: true }`. */
  method Create(store: Db.Store, input: CreateLeadInput, isEmail: string -> bool, now: Timestamp)
    returns (r: Result<CreateResponse, RouteError>)
    requires store.Valid()
    modifies store
    ensures store.Valid()
    // invalid input never reaches storage
    ensures Issues(input, isEmail) != [] ==> r == Err(Invalid(Issues(input, isEmail))) && unchanged(store)
    // valid input is handed to createLead unchanged; its failure propagates
    ensures Issues(input, isEmail) == [] ==>
      var o := Db.CreateLeadOutcome(old(store.available), old(store.leads), AsInsertLead(input), now);
      && (o.Ok? ==> r == Ok(CreateResponse(true)) && store.leads == o.value)
      && (o.Err? ==> r == Err(Failed(o.error)) && store.leads == old(store.leads))
      && store.users == old(store.users) && store.available == old(store.available)
  {
    var issues := Issues(input, isEmail);
    if issues != [] {
      return Err(Invalid(issues));
    }
    var created := store.CreateLead(AsInsertLead(input), now);
    if created.Err? {
      return Err(Failed(created.error));
    }
    r := Ok(CreateResponse(true));
  }

  /** `leads.list`: exactly what `getAllLeads` returns. */
  method List(store: Db.Store) returns (r: Result<seq<LeadRow>, RouteError>)
    requires store.Valid()
    ensures !store.available ==> r == Err(Failed(Db.StorageUnavailable))
    ensures store.available ==> r == Ok(store.leads.rows)
  {
    var all := store.GetAllLeads();
    if all.Err? {
      return Err(Failed(all.error));
    }
    r := Ok(all.value);
  }

  /**
   * A phone number longer than its column passes validation and is then refused
   * by storage: the schema checks only that it is not empty.
   */
  lemma OverlongPhoneFailsAfterValidation(input: CreateLeadInput, isEmail: string -> bool, t: LeadTable, now: Timestamp)
    requires t.Valid()
    requires input.fullName != "" && isEmail(input.email) && input.instagram != ""
    requires |input.phone| > PhoneMax
    ensures Issues(input, isEmail) == []
    ensures Db.CreateLeadOutcome(true, t, AsInsertLead(input), now) == Err(Db.PersistenceError)
  {
  }

  /** On valid input that fits the columns, the created lead is what `leads.list` shows last. */
  lemma CreatedLeadIsListed(input: CreateLeadInput, isEmail: string -> bool, t: LeadTable, now: Timestamp)
    requires t.Valid() && Issues(input, isEmail) == []
    requires LeadColumnsFit(input.fullName, input.email, input.phone, input.instagram)
    ensures Db.CreateLeadOutcome(true, t, AsInsertLead(input), now).Ok?
    ensures var rows := Db.CreateLeadOutcome(true, t, AsInsertLead(input), now).value.rows;
      && rows[..|t.rows|] == t.rows
      && |rows| == |t.rows| + 1
      && rows[|t.rows|].fullName == input.fullName && rows[|t.rows|].email == input.email
      && rows[|t.rows|].phone == input.phone && rows[|t.rows|].instagram == input.instagram
  {
  }
}
