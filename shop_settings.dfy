/**
 * The shop-settings singleton: read lazily created from the defaults, and written either
 * by creating it (each missing field falling back to its default) or by updating only the
 * fields the request body names.
 */
module ShopSettingsRoute {
  import opened Wrappers
  import opened Domain
  import opened Store

  /** One field of a JSON body: left out, explicitly `null`, or given a value. */
  datatype BodyField<T> = Undefined | Null | Provided(value: T)

  /** The PUT body, field by field. */
  datatype SettingsBody = SettingsBody(
    shopName: BodyField<string>,
    address: BodyField<string>,
    phone: BodyField<string>,
    email: BodyField<string>,
    openTime: BodyField<string>,
    closeTime: BodyField<string>,
    slotDuration: BodyField<int>,
    closedDays: BodyField<seq<int>>)

  const EmptyBody := SettingsBody(Undefined, Undefined, Undefined, Undefined, Undefined, Undefined, Undefined, Undefined)

  datatype SettingsResponse = SettingsOk(settings: ShopSettings) | SettingsError(status: int, error: string)

  const UpdateFailed := "Failed to update shop settings"

  const DefaultShopName := "TRIM"
  const DefaultAddress := "123 Main Street, Downtown, City 12345"
  const DefaultPhone := "(555) 123-4567"
  const DefaultEmail := "info@trim.com"
  const DefaultOpen := "09:00"
  const DefaultClose := "20:00"
  const DefaultSlotDuration := 30
  const DefaultClosedDays: seq<int> := [0]

  /** `DEFAULT_SETTINGS`, stored under the id the database generates. */
  function DefaultsWith(id: string): ShopSettings {
    ShopSettings(id, DefaultShopName, DefaultAddress, DefaultPhone, DefaultEmail,
                 DefaultOpen, DefaultClose, DefaultSlotDuration, DefaultClosedDays)
  }

  /** `field ?? default`: both `undefined` and `null` fall back. */
  function Coalesce<T>(f: BodyField<T>, default: T): (r: T)
    ensures f.Provided? ==> r == f.value
    ensures !f.Provided? ==> r == default
  {
    if f.Provided? then f.value else default
  }

  /** `...(field !== undefined && { field })` on a field without `null`: a given value replaces the current one. */
  function Apply<T>(f: BodyField<T>, current: T): (r: T)
    ensures f.Provided? ==> r == f.value
    ensures f.Undefined? ==> r == current
  {
    if f.Provided? then f.value else current
  }

  /** Some field of the body is an explicit `null`, which the non-null columns refuse on update. */
  predicate HasNull(b: SettingsBody) {
    b.shopName.Null? || b.address.Null? || b.phone.Null? || b.email.Null?
    || b.openTime.Null? || b.closeTime.Null? || b.slotDuration.Null? || b.closedDays.Null?
  }

  /** The record PUT creates when there is none. */
  function CreatedFrom(b: SettingsBody, id: string): ShopSettings {
    ShopSettings(id,
      Coalesce(b.shopName, DefaultShopName), Coalesce(b.address, DefaultAddress),
      Coalesce(b.phone, DefaultPhone), Coalesce(b.email, DefaultEmail),
      Coalesce(b.openTime, DefaultOpen), Coalesce(b.closeTime, DefaultClose),
      Coalesce(b.slotDuration, DefaultSlotDuration), Coalesce(b.closedDays, DefaultClosedDays))
  }

  /** The record PUT leaves after updating `s`. */
  function UpdatedFrom(s: ShopSettings, b: SettingsBody): ShopSettings {
    s.(shopName := Apply(b.shopName, s.shopName), address := Apply(b.address, s.address),
       phone := Apply(b.phone, s.phone), email := Apply(b.email, s.email),
       openTime := Apply(b.openTime, s.openTime), closeTime := Apply(b.closeTime, s.closeTime),
       slotDuration := Apply(b.slotDuration, s.slotDuration), closedDays := Apply(b.closedDays, s.closedDays))
  }

  /** GET: the stored record, or the defaults when there is none. */
  function Get(stored: Option<ShopSettings>, newId: string): ShopSettings {
    if stored.Some? then stored.value else DefaultsWith(newId)
  }

  /** PUT: create from the body, or update; a `null` on update fails with 500. */
  function Put(stored: Option<ShopSettings>, b: SettingsBody, newId: string): SettingsResponse {
    if stored.None? then SettingsOk(CreatedFrom(b, newId))
    else if HasNull(b) then SettingsError(500, UpdateFailed)
    else SettingsOk(UpdatedFrom(stored.value, b))
  }

  /** The record after a PUT: the answer's record on success, the old one on failure. */
  function AfterPut(stored: Option<ShopSettings>, b: SettingsBody, newId: string): Option<ShopSettings> {
    var r := Put(stored, b, newId);
    if r.SettingsOk? then Some(r.settings) else stored
  }

  /** `GET /api/shop-settings`. */
  method GetShopSettings(db: Database, newId: string) returns (settings: ShopSettings)
    modifies db
    ensures settings == Get(old(db.settings), newId)
    ensures db.settings == Some(settings)
    ensures db.services == old(db.services) && db.barbers == old(db.barbers)
    ensures db.schedules == old(db.schedules) && db.appointments == old(db.appointments)
  {
    var found := db.settings;
    if found.None? {
      settings := DefaultsWith(newId);
      db.settings := Some(settings);
    } else {
      settings := found.value;
    }
  }

  /** `PUT /api/shop-settings`, the update spreading in one given field at a time. */
  method PutShopSettings(db: Database, b: SettingsBody, newId: string) returns (r: SettingsResponse)
    modifies db
    ensures r == Put(old(db.settings), b, newId)
    ensures db.settings == AfterPut(old(db.settings), b, newId)
    ensures db.services == old(db.services) && db.barbers == old(db.barbers)
    ensures db.schedules == old(db.schedules) && db.appointments == old(db.appointments)
  {
    var found := db.settings;
    if found.None? {
      var created := CreatedFrom(b, newId);
      db.settings := Some(created);
      return SettingsOk(created);
    }
    if HasNull(b) {
      return SettingsError(500, UpdateFailed);
    }
    var s := found.value;
    if b.shopName.Provided? { s := s.(shopName := b.shopName.value); }
    if b.address.Provided? { s := s.(address := b.address.value); }
    if b.phone.Provided? { s := s.(phone := b.phone.value); }
    if b.email.Provided? { s := s.(email := b.email.value); }
    if b.openTime.Provided? { s := s.(openTime := b.openTime.value); }
    if b.closeTime.Provided? { s := s.(closeTime := b.closeTime.value); }
    if b.slotDuration.Provided? { s := s.(slotDuration := b.slotDuration.value); }
    if b.closedDays.Provided? { s := s.(closedDays := b.closedDays.value); }
    db.settings := Some(s);
    r := SettingsOk(s);
  }

  /** A GET creates the defaults only when there is no record; afterwards every GET returns the same record. */
  lemma GetIdempotent(stored: Option<ShopSettings>, newId: string, laterId: string)
    ensures stored.None? ==> Get(stored, newId) == DefaultsWith(newId)
    ensures stored.Some? ==> Get(stored, newId) == stored.value
    ensures Get(Some(Get(stored, newId)), laterId) == Get(stored, newId)
  {
  }

  /** With no record, PUT stores each field as given, falling back to the default when it is left out or `null`. */
  lemma PutCreates(b: SettingsBody, newId: string)
    ensures Put(None, b, newId).SettingsOk?
    ensures var c := Put(None, b, newId).settings;
      c.id == newId
      && (b.shopName.Provided? ==> c.shopName == b.shopName.value) && (!b.shopName.Provided? ==> c.shopName == DefaultShopName)
      && (b.address.Provided? ==> c.address == b.address.value) && (!b.address.Provided? ==> c.address == DefaultAddress)
      && (b.phone.Provided? ==> c.phone == b.phone.value) && (!b.phone.Provided? ==> c.phone == DefaultPhone)
      && (b.email.Provided? ==> c.email == b.email.value) && (!b.email.Provided? ==> c.email == DefaultEmail)
      && (b.openTime.Provided? ==> c.openTime == b.openTime.value) && (!b.openTime.Provided? ==> c.openTime == DefaultOpen)
      && (b.closeTime.Provided? ==> c.closeTime == b.closeTime.value) && (!b.closeTime.Provided? ==> c.closeTime == DefaultClose)
      && (b.slotDuration.Provided? ==> c.slotDuration == b.slotDuration.value)
      && (!b.slotDuration.Provided? ==> c.slotDuration == DefaultSlotDuration)
      && (b.closedDays.Provided? ==> c.closedDays == b.closedDays.value)
      && (!b.closedDays.Provided? ==> c.closedDays == DefaultClosedDays)
  {
  }

  /** An empty PUT on an empty store creates the same record a GET would. */
  lemma EmptyPutIsGet(newId: string)
    ensures Put(None, EmptyBody, newId) == SettingsOk(Get(None, newId))
  {
  }

  /**
   * On an existing record without `null`s, PUT changes exactly the fields the body
   * gives and keeps every other field, the id included.
   */
  lemma PutUpdates(s: ShopSettings, b: SettingsBody, newId: string)
    requires !HasNull(b)
    ensures Put(Some(s), b, newId).SettingsOk?
    ensures var u := Put(Some(s), b, newId).settings;
      u.id == s.id
      && u.shopName == (if b.shopName.Provided? then b.shopName.value else s.shopName)
      && u.address == (if b.address.Provided? then b.address.value else s.address)
      && u.phone == (if b.phone.Provided? then b.phone.value else s.phone)
      && u.email == (if b.email.Provided? then b.email.value else s.email)
      && u.openTime == (if b.openTime.Provided? then b.openTime.value else s.openTime)
      && u.closeTime == (if b.closeTime.Provided? then b.closeTime.value else s.closeTime)
      && u.slotDuration == (if b.slotDuration.Provided? then b.slotDuration.value else s.slotDuration)
      && u.closedDays == (if b.closedDays.Provided? then b.closedDays.value else s.closedDays)
  {
  }

  /** An empty PUT leaves an existing record as it is, and repeating a PUT changes nothing more. */
  lemma PutIdempotent(s: ShopSettings, b: SettingsBody, newId: string)
    ensures Put(Some(s), EmptyBody, newId) == SettingsOk(s)
    ensures AfterPut(AfterPut(Some(s), b, newId), b, newId) == AfterPut(Some(s), b, newId)
  {
  }

  /** `null` falls back to the default on creation, but fails the update and leaves the record as it was. */
  lemma NullDiffersByBranch(s: ShopSettings, b: SettingsBody, newId: string)
    requires b.shopName.Null?
    ensures Put(None, b, newId).SettingsOk? && Put(None, b, newId).settings.shopName == DefaultShopName
    ensures Put(Some(s), b, newId) == SettingsError(500, UpdateFailed)
    ensures AfterPut(Some(s), b, newId) == Some(s)
  {
  }
}
