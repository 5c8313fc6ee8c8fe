/**
 * What the client service guarantees: which names, phone numbers and
 * e-mail addresses it accepts, what CreateClient and UpdateClient store,
 * and the invariants their writes keep: unique phone numbers and e-mail
 * addresses, and loyalty points never negative.
 */
module ClientRules {
  import opened Wrappers
  import opened Store
  import opened GoStrings
  import opened ClientService

  // ---------------------------------------------------------------- invariants

  /** Rows sit under their own id, below the next id the sequence hands out. */
  ghost predicate ClientWf(t: ClientTables) {
    forall id :: id in t.clients ==> t.clients[id].id == id && id < t.nextClientId
  }

  /** The unique keys clients_phone_number_key and clients_email_key. */
  ghost predicate UniqueKeys(t: ClientTables) {
    && (forall a, b ::
          (a in t.clients && b in t.clients && t.clients[a].phoneNumber.Some?
           && t.clients[a].phoneNumber == t.clients[b].phoneNumber) ==> a == b)
    && (forall a, b ::
          (a in t.clients && b in t.clients && t.clients[a].email.Some?
           && t.clients[a].email == t.clients[b].email) ==> a == b)
  }

  /** No client has negative loyalty points, and no stored birth date is Go's zero time. */
  ghost predicate ClientValues(t: ClientTables) {
    forall id :: id in t.clients ==>
      t.clients[id].loyaltyPoints >= 0 && t.clients[id].dateOfBirth != Some(ZeroTime)
  }

  ghost predicate ClientInvariant(t: ClientTables) {
    ClientWf(t) && UniqueKeys(t) && ClientValues(t)
  }

  // ---------------------------------------------------------------- the data checks

  /** The name rule: required on create; on update the empty name passes, white space alone never does. */
  predicate NameValid(fullName: string, isUpdate: bool) {
    if isUpdate then fullName == "" || TrimSpace(fullName) != "" else TrimSpace(fullName) != ""
  }

  /** The phone and e-mail rules, given the client the data belongs to. */
  predicate ContactValid(t: ClientTables, phone: Option<string>, email: Option<string>, isUpdate: bool, clientId: int) {
    && (phone.Some? && !isUpdate ==> TrimSpace(phone.value) != "")
    && (phone.Some? && TrimSpace(phone.value) != "" ==> !PhoneHeldByOther(t, TrimSpace(phone.value), clientId))
    && (email.Some? && email.value != "" ==> EmailPattern(ToLower(TrimSpace(email.value))))
  }

  /**
   * validateClientData accepts exactly the data meeting the name and contact
   * rules; a bad name is reported before the phone, and a number another
   * client holds as ErrPhoneNumberExists.
   */
  lemma ClientDataOutcome(
    t: ClientTables, fullName: string, phone: Option<string>, email: Option<string>, isUpdate: bool, clientId: int)
    ensures var r := ClientDataChecked(t, fullName, phone, email, isUpdate, clientId);
      && (r.Ok? <==> NameValid(fullName, isUpdate) && ContactValid(t, phone, email, isUpdate, clientId))
      && (!NameValid(fullName, isUpdate) ==> r == Err(ClientValidation))
      && (r == Err(PhoneNumberExists) <==>
            NameValid(fullName, isUpdate) && phone.Some? && TrimSpace(phone.value) != ""
            && PhoneHeldByOther(t, TrimSpace(phone.value), clientId))
  {
  }

  /** The three cases of the name rule: empty, white space only, and a real name. */
  lemma NameRuleCases(name: string)
    ensures NameValid("", true) && !NameValid("", false)
    ensures name != "" && TrimSpace(name) == "" ==> !NameValid(name, true) && !NameValid(name, false)
    ensures TrimSpace(name) != "" ==> NameValid(name, true) && NameValid(name, false)
  {
    assert TrimSpace("") == "" by {
      TrimSpaceEmpty("");
    }
  }

  /**
   * With the unique phone key in place, a client's own (trimmed) number is
   * never taken: an update that keeps or resubmits it passes the phone check.
   */
  lemma OwnPhoneNotTaken(t: ClientTables, id: int)
    requires ClientWf(t) && UniqueKeys(t)
    requires id in t.clients && t.clients[id].phoneNumber.Some?
    ensures !PhoneHeldByOther(t, t.clients[id].phoneNumber.value, id)
  {
  }

  /** The pattern is over lower-case text: the upper-case letters the service's lower-casing removes never match. */
  lemma EmailPatternLowerCase(s: string, i: int)
    requires EmailPattern(s) && 0 <= i < |s|
    ensures !('A' <= s[i] <= 'Z') && s[i] != ' '
  {
    var at, tld :| 0 <= at < |s| && 2 <= tld <= 4 && EmailSplit(s, at, tld);
    var dot := |s| - tld - 1;
    if i < at {
      assert LocalChar(s[i]);
    } else if at < i < dot {
      assert DomainChar(s[i]);
    } else if dot < i {
      assert LowerLetter(s[i]);
    }
  }

  /** Two addresses: one the pattern accepts, one without a top-level domain it refuses. */
  lemma EmailPatternExamples()
    ensures EmailPattern("ann@mail.kz")
    ensures !EmailPattern("ann@kz")
  {
    assert EmailSplit("ann@mail.kz", 3, 2);
  }

  // ---------------------------------------------------------------- CreateClient

  /** The requests CreateClient stores, unique keys aside. */
  predicate NewClientValid(t: ClientTables, req: CreateClientRequest, parseDay: string -> Option<Time>, now: Time) {
    && NameValid(req.fullName, false)
    && ContactValid(t, req.phoneNumber, req.email, false, 0)
    && DateOfBirth(req.dateOfBirth, parseDay, now).Ok?
    && req.loyaltyPoints.GetOr(0) >= 0
  }

  /** The row CreateClient builds from a valid request. */
  function NewClientRow(t: ClientTables, req: CreateClientRequest, parseDay: string -> Option<Time>, now: Time): Client
    requires DateOfBirth(req.dateOfBirth, parseDay, now).Ok?
  {
    Client(
      t.nextClientId, req.fullName, req.phoneNumber, req.email,
      StoredDate(DateOfBirth(req.dateOfBirth, parseDay, now).value), req.loyaltyPoints.GetOr(0), req.notes, now, now)
  }

  /**
   * CreateClient stores exactly the valid requests whose phone number and
   * e-mail address no other client holds; loyalty points default to 0, and
   * negative ones are refused once the other checks pass.
   */
  lemma CreateClientOutcome(t: ClientTables, req: CreateClientRequest, parseDay: string -> Option<Time>, now: Time)
    ensures var r := CreateClientSpec(t, req, parseDay, now);
      && (r.Ok? <==> NewClientValid(t, req, parseDay, now) && KeyConflict(t, NewClientRow(t, req, parseDay, now)).None?)
      && ((NameValid(req.fullName, false) && ContactValid(t, req.phoneNumber, req.email, false, 0)
           && DateOfBirth(req.dateOfBirth, parseDay, now).Ok? && req.loyaltyPoints.GetOr(0) < 0)
          ==> r == Err(ClientValidation))
      && (r.Ok? ==>
            var row := NewClientRow(t, req, parseDay, now);
            r.value == Saved(t.(clients := t.clients[row.id := row], nextClientId := row.id + 1), row))
  {
    ClientDataOutcome(t, req.fullName, req.phoneNumber, req.email, false, 0);
  }

  /**
   * An e-mail address another client already has passes the data checks
   * and is refused by the unique key: ErrEmailExists.
   */
  lemma CreateClientEmailTaken(t: ClientTables, req: CreateClientRequest, parseDay: string -> Option<Time>, now: Time)
    requires ClientWf(t)
    requires NewClientValid(t, req, parseDay, now)
    requires req.phoneNumber.None? && req.email.Some?
    requires exists k :: k in t.clients && t.clients[k].email == req.email
    ensures CreateClientSpec(t, req, parseDay, now) == Err(EmailExists)
  {
    CreateClientOutcome(t, req, parseDay, now);
    ClientDataOutcome(t, req.fullName, req.phoneNumber, req.email, false, 0);
    var k :| k in t.clients && t.clients[k].email == req.email;
    assert k != t.nextClientId;
  }

  /** CreateClient keeps the invariant. */
  lemma CreateClientKeeps(t: ClientTables, req: CreateClientRequest, parseDay: string -> Option<Time>, now: Time)
    requires ClientInvariant(t)
    ensures var r := CreateClientSpec(t, req, parseDay, now);
      r.Ok? ==> ClientInvariant(r.value.tables)
  {
    CreateClientOutcome(t, req, parseDay, now);
    var r := CreateClientSpec(t, req, parseDay, now);
    if r.Ok? {
      var row := NewClientRow(t, req, parseDay, now);
      WriteKeeps(t, row.id, row);
    }
  }

  /** Writing a row under its own id keeps the invariant when it clashes with no other row and its values are in range. */
  lemma WriteKeeps(t: ClientTables, id: int, row: Client)
    requires ClientInvariant(t) && row.id == id && (id in t.clients || id == t.nextClientId)
    requires KeyConflict(t, row).None? && row.loyaltyPoints >= 0 && row.dateOfBirth != Some(ZeroTime)
    ensures ClientInvariant(t.(clients := t.clients[id := row], nextClientId := if id in t.clients then t.nextClientId else id + 1))
  {
  }

  // ---------------------------------------------------------------- UpdateClient

  /** The merged values UpdateClient validates. */
  predicate UpdateDataValid(t: ClientTables, id: int, req: UpdateClientRequest)
    requires id in t.clients
  {
    var stored := t.clients[id];
    NameValid(req.fullName.GetOr(stored.fullName), true)
    && ContactValid(t, req.phoneNumber.Or(stored.phoneNumber), req.email.Or(stored.email), true, id)
  }

  /**
   * UpdateClient on an existing client: the merged data is validated, the
   * date of birth and loyalty points checked, and every field absent from
   * the request keeps its stored value; the id and creation time never
   * change.
   */
  lemma UpdateClientOutcome(t: ClientTables, id: int, req: UpdateClientRequest, parseDay: string -> Option<Time>, now: Time)
    requires ClientInvariant(t) && id in t.clients
    ensures var r := UpdateClientSpec(t, id, req, parseDay, now);
      var stored := t.clients[id];
      && (!UpdateDataValid(t, id, req) ==> r.Err? && r.error in {ClientValidation, PhoneNumberExists})
      && ((UpdateDataValid(t, id, req) && req.loyaltyPoints.Some? && req.loyaltyPoints.value < 0
           && (req.dateOfBirth.Some? ==> DateOfBirth(req.dateOfBirth, parseDay, now).Ok?))
          ==> r == Err(ClientValidation))
      && (r.Ok? ==>
            var row := r.value.client;
            && UpdateDataValid(t, id, req)
            && r.value.tables == t.(clients := t.clients[id := row])
            && row.id == id && row.createdAt == stored.createdAt && row.updatedAt == now
            && row.fullName == req.fullName.GetOr(stored.fullName)
            && row.phoneNumber == req.phoneNumber.Or(stored.phoneNumber)
            && row.email == req.email.Or(stored.email)
            && row.loyaltyPoints == req.loyaltyPoints.GetOr(stored.loyaltyPoints) && row.loyaltyPoints >= 0
            && row.notes == req.notes.Or(stored.notes)
            && (req.dateOfBirth.None? ==> row.dateOfBirth == stored.dateOfBirth)
            && (req.dateOfBirth.Some? ==> row.dateOfBirth == StoredDate(DateOfBirth(req.dateOfBirth, parseDay, now).value)))
  {
    var stored := t.clients[id];
    ClientDataOutcome(
      t, req.fullName.GetOr(stored.fullName), req.phoneNumber.Or(stored.phoneNumber), req.email.Or(stored.email), true, id);
  }

  /** UpdateClient keeps the invariant. */
  lemma UpdateClientKeeps(t: ClientTables, id: int, req: UpdateClientRequest, parseDay: string -> Option<Time>, now: Time)
    requires ClientInvariant(t)
    ensures var r := UpdateClientSpec(t, id, req, parseDay, now);
      r.Ok? ==> ClientInvariant(r.value.tables)
  {
    var r := UpdateClientSpec(t, id, req, parseDay, now);
    if r.Ok? {
      UpdateClientOutcome(t, id, req, parseDay, now);
      WriteKeeps(t, id, r.value.client);
    }
  }
}
