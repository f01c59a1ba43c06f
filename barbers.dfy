/**
 * `/api/barbers`: the active barbers ordered by name, and the creation of a barber with
 * a truthy name, whose specialties default to none.
 */
module BarbersRoute {
  import opened Wrappers
  import opened Domain
  import opened Store
  import opened Sorting
  import opened Lists

  /** The POST body; a field the client leaves out (or sends as `null`) is `None`. */
  datatype BarberBody = BarberBody(
    name: Option<string>,
    email: Option<string>,
    phone: Option<string>,
    bio: Option<string>,
    imageUrl: Option<string>,
    specialties: Option<seq<string>>)

  datatype BarberResponse = BarberCreated(barber: Barber) | BarberError(status: int, error: string)

  const NameRequired := "Name is required"

  /** POST: 400 without a name, else the new barber (active, as the table's default). */
  function PostBarber(b: BarberBody, newId: string): BarberResponse {
    if !Given(b.name) then BarberError(400, NameRequired)
    else BarberCreated(Barber(newId, b.name.value, b.email, b.phone, b.bio, b.imageUrl, b.specialties.GetOr([]), true))
  }

  /** `orderBy: { name: "asc" }`. */
  predicate NameLe(a: Barber, b: Barber) {
    StrLe(a.name, b.name)
  }

  lemma NameOrderTotal()
    ensures Total(NameLe)
  {
    forall a: Barber, b: Barber ensures NameLe(a, b) || NameLe(b, a) {
      StrLeTotal(a.name, b.name);
    }
  }

  function IsActiveBarber(b: Barber): bool { b.isActive }

  /** GET: the active barbers, by name. */
  function ActiveBarbers(barbers: seq<Barber>): seq<Barber> {
    NameOrderTotal();
    Sort(Filter(barbers, IsActiveBarber), NameLe)
  }

  /** `POST /api/barbers`. */
  method CreateBarber(db: Database, b: BarberBody, newId: string) returns (r: BarberResponse)
    modifies db
    ensures r == PostBarber(b, newId)
    ensures r.BarberCreated? ==> db.barbers == old(db.barbers) + [r.barber]
    ensures r.BarberError? ==> db.barbers == old(db.barbers)
    ensures db.services == old(db.services) && db.schedules == old(db.schedules)
    ensures db.appointments == old(db.appointments) && db.settings == old(db.settings)
  {
    if b.name.None? || b.name.value == "" {
      return BarberError(400, NameRequired);
    }
    var specialties := if b.specialties.Some? then b.specialties.value else [];
    var barber := Barber(newId, b.name.value, b.email, b.phone, b.bio, b.imageUrl, specialties, true);
    db.barbers := db.barbers + [barber];
    r := BarberCreated(barber);
  }

  /** `GET /api/barbers`. */
  method ListBarbers(db: Database) returns (r: seq<Barber>)
    ensures r == ActiveBarbers(db.barbers)
  {
    NameOrderTotal();
    r := Sort(Filter(db.barbers, IsActiveBarber), NameLe);
  }

  /**
   * A POST is refused exactly when the name is missing or empty; a created barber stores
   * the body's fields, with no specialties when none are sent.
   */
  lemma PostBarberFields(b: BarberBody, newId: string)
    ensures PostBarber(b, newId).BarberError? <==> b.name.None? || b.name.value == ""
    ensures PostBarber(b, newId).BarberCreated? ==>
      var c := PostBarber(b, newId).barber;
      c.id == newId && Some(c.name) == b.name && c.email == b.email && c.phone == b.phone
      && c.bio == b.bio && c.imageUrl == b.imageUrl && c.isActive
      && (b.specialties.None? ==> c.specialties == [])
      && (b.specialties.Some? ==> c.specialties == b.specialties.value)
  {
  }

  /** The listing holds exactly the active barbers, each as often as stored, ordered by name. */
  lemma ListedBarbers(barbers: seq<Barber>)
    ensures var r := ActiveBarbers(barbers);
      SortedBy(r, NameLe)
      && multiset(r) == multiset(Filter(barbers, IsActiveBarber))
      && (forall x :: x in r <==> x in barbers && x.isActive)
  {
    var r := ActiveBarbers(barbers);
    var f := Filter(barbers, IsActiveBarber);
    FilterMembers(barbers, IsActiveBarber);
    forall x ensures x in r <==> x in f {
      assert x in r <==> x in multiset(r);
      assert x in f <==> x in multiset(f);
    }
  }

  /** A newly created barber appears in the next listing. */
  lemma CreatedBarberListed(barbers: seq<Barber>, b: BarberBody, newId: string)
    requires PostBarber(b, newId).BarberCreated?
    ensures PostBarber(b, newId).barber in ActiveBarbers(barbers + [PostBarber(b, newId).barber])
  {
    var c := PostBarber(b, newId).barber;
    ListedBarbers(barbers + [c]);
    assert c in barbers + [c];
  }
}
