/**
 * The client service: the venue's customers, with an optional phone number
 * (kept unique), e-mail address, date of birth and loyalty points. It checks
 * a request's data, merges partial updates into the stored client and maps
 * the database's unique-key refusals onto its own errors.
 */
module ClientService {
  import opened Wrappers
  import opened Store
  import opened GoStrings

  // ---------------------------------------------------------------- data

  /** A row of clients. */
  datatype Client = Client(
    id: int, fullName: string, phoneNumber: Option<string>, email: Option<string>,
    dateOfBirth: Option<Time>, loyaltyPoints: int, notes: Option<string>,
    createdAt: Time, updatedAt: Time)

  datatype ClientTables = ClientTables(clients: map<int, Client>, nextClientId: int)

  /** The service's errors; `DuplicateData` is a unique-key refusal it does not classify. */
  datatype ClientError =
    | ClientNotFound
    | PhoneNumberExists
    | EmailExists
    | ClientValidation
    | DateFormat
    | DuplicateData(constraint: string)

  /** The tables after a successful write, and the client read back. */
  datatype Saved = Saved(tables: ClientTables, client: Client)

  datatype CreateClientRequest = CreateClientRequest(
    fullName: string, phoneNumber: Option<string>, email: Option<string>, dateOfBirth: Option<string>,
    loyaltyPoints: Option<int>, notes: Option<string>)

  /** An update request; an absent field keeps the stored value. */
  datatype UpdateClientRequest = UpdateClientRequest(
    fullName: Option<string>, phoneNumber: Option<string>, email: Option<string>, dateOfBirth: Option<string>,
    loyaltyPoints: Option<int>, notes: Option<string>)

  /** The unique keys of the clients table. */
  const PhoneKey: string := "clients_phone_number_key"
  const EmailKey: string := "clients_email_key"

  // ---------------------------------------------------------------- e-mail pattern

  predicate LowerLetter(c: char) { 'a' <= c <= 'z' }
  predicate Digit(c: char) { '0' <= c <= '9' }

  /** [a-z0-9._%+\-] */
  predicate LocalChar(c: char) {
    LowerLetter(c) || Digit(c) || c == '.' || c == '_' || c == '%' || c == '+' || c == '-'
  }

  /** [a-z0-9.\-] */
  predicate DomainChar(c: char) {
    LowerLetter(c) || Digit(c) || c == '.' || c == '-'
  }

  /**
   * `s` read as local part, '@' at index `at`, domain, and a final dot
   * followed by a top-level domain of `tld` letters.
   */
  predicate EmailSplit(s: string, at: int, tld: int) {
    var dot := |s| - tld - 1;
    && 0 < at && at + 1 < dot && 2 <= tld <= 4
    && s[at] == '@' && s[dot] == '.'
    && (forall j :: 0 <= j < at ==> LocalChar(s[j]))
    && (forall j :: at < j < dot ==> DomainChar(s[j]))
    && (forall j :: dot < j < |s| ==> LowerLetter(s[j]))
  }

  /** The service's pattern ^[a-z0-9._%+\-]+@[a-z0-9.\-]+\.[a-z]{2,4}$. */
  predicate EmailPattern(s: string) {
    exists at, tld :: 0 <= at < |s| && 2 <= tld <= 4 && EmailSplit(s, at, tld)
  }

  // ---------------------------------------------------------------- checks

  /** Some other client (by row id) holds exactly the phone number `phone`. */
  predicate PhoneHeldByOther(t: ClientTables, phone: string, clientId: int) {
    exists k :: k in t.clients && t.clients[k].phoneNumber == Some(phone) && t.clients[k].id != clientId
  }

  /**
   * validateClientData: the name, the phone number and the e-mail address,
   * in that order. A blank name is refused on create; a name of white space
   * only is refused always, but the empty name passes on update. A supplied
   * phone is trimmed; blank, it is refused on create and skipped on update;
   * otherwise no other client may hold it. A non-empty e-mail must match
   * the pattern once trimmed and lower-cased.
   */
  function ClientDataChecked(
    t: ClientTables, fullName: string, phone: Option<string>, email: Option<string>, isUpdate: bool,
    clientId: int): (r: Result<(), ClientError>)
    ensures r.Err? ==> r.error in {ClientValidation, PhoneNumberExists}
  {
    if TrimSpace(fullName) == "" && !isUpdate then Err(ClientValidation)
    else if fullName != "" && TrimSpace(fullName) == "" then Err(ClientValidation)
    else if phone.Some? && TrimSpace(phone.value) == "" && !isUpdate then Err(ClientValidation)
    else if phone.Some? && TrimSpace(phone.value) != "" && PhoneHeldByOther(t, TrimSpace(phone.value), clientId) then
      Err(PhoneNumberExists)
    else if email.Some? && email.value != "" && !EmailPattern(ToLower(TrimSpace(email.value))) then
      Err(ClientValidation)
    else Ok(())
  }

  /**
   * parseDateOfBirth: absent or blank is no date; otherwise `parseDay`
   * (time.Parse with the "2006-01-02" layout, applied to the text as given)
   * must accept it, and the day must not be after `now`.
   */
  function DateOfBirth(text: Option<string>, parseDay: string -> Option<Time>, now: Time)
    : (r: Result<Option<Time>, ClientError>)
    ensures r == Ok(None) <==> text.None? || TrimSpace(text.value) == ""
    ensures r == Err(DateFormat) <==> text.Some? && TrimSpace(text.value) != "" && parseDay(text.value).None?
    ensures r == Err(ClientValidation) <==>
      text.Some? && TrimSpace(text.value) != "" && parseDay(text.value).Some? && parseDay(text.value).value > now
    ensures r.Ok? && r.value.Some? ==> r.value == parseDay(text.value) && r.value.value <= now
  {
    if text.None? || TrimSpace(text.value) == "" then Ok(None)
    else
      match parseDay(text.value)
      case None => Err(DateFormat)
      case Some(day) => if day > now then Err(ClientValidation) else Ok(Some(day))
  }

  /** The repository writes Go's zero time as NULL. */
  function StoredDate(d: Option<Time>): (r: Option<Time>)
    ensures r.Some? ==> r == d && r.value != ZeroTime
    ensures d.Some? && d.value != ZeroTime ==> r == d
  {
    if d.Some? && d.value == ZeroTime then None else d
  }

  /** The unique key a row would break against the other rows (phone number checked first), if any. */
  function KeyConflict(t: ClientTables, row: Client): (key: Option<string>)
    ensures key.Some? ==> key.value in {PhoneKey, EmailKey}
  {
    if row.phoneNumber.Some?
       && exists k :: k in t.clients && k != row.id && t.clients[k].phoneNumber == row.phoneNumber then
      Some(PhoneKey)
    else if row.email.Some? && exists k :: k in t.clients && k != row.id && t.clients[k].email == row.email then
      Some(EmailKey)
    else None
  }

  /** How CreateClient and UpdateClient report a unique-key refusal: by the key named in its text. */
  function DuplicateError(key: string, phoneGiven: bool, emailGiven: bool): (e: ClientError)
    ensures e == PhoneNumberExists <==> phoneGiven && key == PhoneKey
    ensures e == EmailExists <==> emailGiven && key == EmailKey && !(phoneGiven && key == PhoneKey)
  {
    if phoneGiven && key == PhoneKey then PhoneNumberExists
    else if emailGiven && key == EmailKey then EmailExists
    else DuplicateData(key)
  }

  // ---------------------------------------------------------------- operations

  /** GetClientByID. */
  function ClientLookup(t: ClientTables, id: int): (r: Result<Client, ClientError>)
    ensures r.Err? <==> id !in t.clients
    ensures r.Err? ==> r.error == ClientNotFound
    ensures r.Ok? ==> r.value == t.clients[id]
  {
    if id in t.clients then Ok(t.clients[id]) else Err(ClientNotFound)
  }

  /**
   * CreateClient: the data checks, the date of birth, loyalty points
   * defaulting to 0 and never negative; then the insert, which the unique
   * keys may refuse.
   */
  function CreateClientSpec(t: ClientTables, req: CreateClientRequest, parseDay: string -> Option<Time>, now: Time)
    : (r: Result<Saved, ClientError>)
    ensures r.Ok? ==> r.value.client.loyaltyPoints >= 0 && r.value.client.id == t.nextClientId
  {
    match ClientDataChecked(t, req.fullName, req.phoneNumber, req.email, false, 0)
    case Err(e) => Err(e)
    case Ok(_) =>
      match DateOfBirth(req.dateOfBirth, parseDay, now)
      case Err(e) => Err(e)
      case Ok(dob) =>
        var points := req.loyaltyPoints.GetOr(0);
        if points < 0 then Err(ClientValidation)
        else
          var row := Client(
            t.nextClientId, req.fullName, req.phoneNumber, req.email, StoredDate(dob), points, req.notes, now, now);
          match KeyConflict(t, row)
          case Some(key) => Err(DuplicateError(key, req.phoneNumber.Some?, req.email.Some?))
          case None => Ok(Saved(t.(clients := t.clients[row.id := row], nextClientId := row.id + 1), row))
  }

  /** UpdateClient's merge into the fetched client, after the data checks: date of birth, then loyalty points. */
  function ClientMerged(stored: Client, req: UpdateClientRequest, parseDay: string -> Option<Time>, now: Time)
    : (r: Result<Client, ClientError>)
    ensures r.Err? ==> r.error in {DateFormat, ClientValidation}
  {
    var dob := if req.dateOfBirth.Some? then DateOfBirth(req.dateOfBirth, parseDay, now) else Ok(stored.dateOfBirth);
    if dob.Err? then Err(dob.error)
    else if req.loyaltyPoints.Some? && req.loyaltyPoints.value < 0 then Err(ClientValidation)
    else
      Ok(stored.(
        fullName := req.fullName.GetOr(stored.fullName),
        phoneNumber := req.phoneNumber.Or(stored.phoneNumber),
        email := req.email.Or(stored.email),
        dateOfBirth := dob.value,
        loyaltyPoints := req.loyaltyPoints.GetOr(stored.loyaltyPoints),
        notes := req.notes.Or(stored.notes)))
  }

  /** The repository's UPDATE of row `c.id`: every column but the id and the creation time. */
  function ClientWritten(t: ClientTables, c: Client, now: Time): (row: Client)
    requires c.id in t.clients
  {
    t.clients[c.id].(
      fullName := c.fullName, phoneNumber := c.phoneNumber, email := c.email,
      dateOfBirth := StoredDate(c.dateOfBirth), loyaltyPoints := c.loyaltyPoints, notes := c.notes,
      updatedAt := now)
  }

  /**
   * UpdateClient: the data checks run on the merged name, phone and e-mail
   * (the client's own phone number does not count as taken); then the
   * merge, the write and the read-back.
   */
  function UpdateClientSpec(t: ClientTables, id: int, req: UpdateClientRequest, parseDay: string -> Option<Time>, now: Time)
    : (r: Result<Saved, ClientError>)
    ensures id !in t.clients ==> r == Err(ClientNotFound)
  {
    if id !in t.clients then Err(ClientNotFound)
    else
      var stored := t.clients[id];
      match ClientDataChecked(
        t, req.fullName.GetOr(stored.fullName), req.phoneNumber.Or(stored.phoneNumber),
        req.email.Or(stored.email), true, id)
      case Err(e) => Err(e)
      case Ok(_) =>
        match ClientMerged(stored, req, parseDay, now)
        case Err(e) => Err(e)
        case Ok(c) =>
          if c.id !in t.clients then Err(ClientNotFound)
          else
            var row := ClientWritten(t, c, now);
            match KeyConflict(t, row)
            case Some(key) => Err(DuplicateError(key, req.phoneNumber.Some?, req.email.Some?))
            case None =>
              var written := t.(clients := t.clients[c.id := row]);
              Ok(Saved(written, written.clients[id]))
  }

  // ---------------------------------------------------------------- the store

  /** The clients table. */
  class ClientStore {
    var clients: map<int, Client>
    var nextClientId: int

    function State(): ClientTables
      reads this
    {
      ClientTables(clients, nextClientId)
    }

    constructor (t: ClientTables)
      ensures State() == t
    {
      clients, nextClientId := t.clients, t.nextClientId;
    }
  }

  method CreateClient(db: ClientStore, req: CreateClientRequest, parseDay: string -> Option<Time>, now: Time)
    returns (r: Result<Client, ClientError>)
    modifies db
    ensures var s := CreateClientSpec(old(db.State()), req, parseDay, now);
      if s.Ok? then db.State() == s.value.tables && r == Ok(s.value.client)
      else db.State() == old(db.State()) && r == Err(s.error)
  {
    var checked := ClientDataChecked(db.State(), req.fullName, req.phoneNumber, req.email, false, 0);
    if checked.Err? {
      return Err(checked.error);
    }
    var dob := DateOfBirth(req.dateOfBirth, parseDay, now);
    if dob.Err? {
      return Err(dob.error);
    }
    var points := 0;
    if req.loyaltyPoints.Some? {
      points := req.loyaltyPoints.value;
      if points < 0 {
        return Err(ClientValidation);
      }
    }
    var row := Client(
      db.nextClientId, req.fullName, req.phoneNumber, req.email, StoredDate(dob.value), points, req.notes, now, now);
    var conflict := KeyConflict(db.State(), row);
    if conflict.Some? {
      return Err(DuplicateError(conflict.value, req.phoneNumber.Some?, req.email.Some?));
    }
    db.clients := db.clients[row.id := row];
    db.nextClientId := row.id + 1;
    r := Ok(row);
  }

  /** The field-by-field merge of UpdateClient on the fetched client; reads nothing else. */
  method MergeClient(stored: Client, req: UpdateClientRequest, parseDay: string -> Option<Time>, now: Time)
    returns (r: Result<Client, ClientError>)
    ensures r == ClientMerged(stored, req, parseDay, now)
  {
    var client := stored;
    if req.fullName.Some? {
      client := client.(fullName := req.fullName.value);
    }
    if req.phoneNumber.Some? {
      client := client.(phoneNumber := req.phoneNumber);
    }
    if req.email.Some? {
      client := client.(email := req.email);
    }
    if req.dateOfBirth.Some? {
      var dob := DateOfBirth(req.dateOfBirth, parseDay, now);
      if dob.Err? {
        return Err(dob.error);
      }
      client := client.(dateOfBirth := dob.value);
    }
    if req.loyaltyPoints.Some? {
      if req.loyaltyPoints.value < 0 {
        return Err(ClientValidation);
      }
      client := client.(loyaltyPoints := req.loyaltyPoints.value);
    }
    if req.notes.Some? {
      client := client.(notes := req.notes);
    }
    r := Ok(client);
  }

  method UpdateClient(db: ClientStore, id: int, req: UpdateClientRequest, parseDay: string -> Option<Time>, now: Time)
    returns (r: Result<Client, ClientError>)
    modifies db
    ensures var s := UpdateClientSpec(old(db.State()), id, req, parseDay, now);
      if s.Ok? then db.State() == s.value.tables && r == Ok(s.value.client)
      else db.State() == old(db.State()) && r == Err(s.error)
  {
    if id !in db.clients {
      return Err(ClientNotFound);
    }
    var stored := db.clients[id];
    var checked := ClientDataChecked(
      db.State(), req.fullName.GetOr(stored.fullName), req.phoneNumber.Or(stored.phoneNumber),
      req.email.Or(stored.email), true, id);
    if checked.Err? {
      return Err(checked.error);
    }
    var merged := MergeClient(stored, req, parseDay, now);
    if merged.Err? {
      return Err(merged.error);
    }
    var c := merged.value;
    if c.id !in db.clients {
      return Err(ClientNotFound);
    }
    var row := ClientWritten(db.State(), c, now);
    var conflict := KeyConflict(db.State(), row);
    if conflict.Some? {
      return Err(DuplicateError(conflict.value, req.phoneNumber.Some?, req.email.Some?));
    }
    db.clients := db.clients[c.id := row];
    r := Ok(db.clients[id]);
  }
}
