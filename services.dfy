/**
 * `/api/services`: the active services ordered by name, and the creation of a service
 * whose name, duration and price are all truthy.
 */
module ServicesRoute {
  import opened Wrappers
  import opened Domain
  import opened Store
  import opened Sorting
  import opened Lists

  /** The POST body; a field the client leaves out is `None`. */
  datatype ServiceBody = ServiceBody(
    name: Option<string>,
    description: Option<string>,
    duration: Option<int>,
    price: Option<real>,
    imageUrl: Option<string>)

  datatype ServiceResponse = ServiceCreated(service: Service) | ServiceError(status: int, error: string)

  const ServiceFieldsMissing := "Name, duration, and price are required"

  /** `name && duration && price`: a zero duration or a zero price counts as missing. */
  predicate ServiceFieldsGiven(b: ServiceBody) {
    Given(b.name) && b.duration.Some? && b.duration.value != 0 && b.price.Some? && b.price.value != 0.0
  }

  /** POST: 400 unless the three fields are truthy, else the new service (active, as the table's default). */
  function PostService(b: ServiceBody, newId: string): ServiceResponse {
    if !ServiceFieldsGiven(b) then ServiceError(400, ServiceFieldsMissing)
    else ServiceCreated(Service(newId, b.name.value, b.description, b.duration.value, b.price.value, b.imageUrl, true))
  }

  /** `orderBy: { name: "asc" }`. */
  predicate NameLe(a: Service, b: Service) {
    StrLe(a.name, b.name)
  }

  lemma NameOrderTotal()
    ensures Total(NameLe)
  {
    forall a: Service, b: Service ensures NameLe(a, b) || NameLe(b, a) {
      StrLeTotal(a.name, b.name);
    }
  }

  function IsActiveService(s: Service): bool { s.isActive }

  /** GET: the active services, by name. */
  function ActiveServices(services: seq<Service>): seq<Service> {
    NameOrderTotal();
    Sort(Filter(services, IsActiveService), NameLe)
  }

  /** `POST /api/services`. */
  method CreateService(db: Database, b: ServiceBody, newId: string) returns (r: ServiceResponse)
    modifies db
    ensures r == PostService(b, newId)
    ensures r.ServiceCreated? ==> db.services == old(db.services) + [r.service]
    ensures r.ServiceError? ==> db.services == old(db.services)
    ensures db.barbers == old(db.barbers) && db.schedules == old(db.schedules)
    ensures db.appointments == old(db.appointments) && db.settings == old(db.settings)
  {
    if b.name.None? || b.name.value == "" || b.duration.None? || b.duration.value == 0
       || b.price.None? || b.price.value == 0.0 {
      return ServiceError(400, ServiceFieldsMissing);
    }
    var service := Service(newId, b.name.value, b.description, b.duration.value, b.price.value, b.imageUrl, true);
    db.services := db.services + [service];
    r := ServiceCreated(service);
  }

  /** `GET /api/services`. */
  method ListServices(db: Database) returns (r: seq<Service>)
    ensures r == ActiveServices(db.services)
  {
    NameOrderTotal();
    r := Sort(Filter(db.services, IsActiveService), NameLe);
  }

  /** A POST is refused exactly when a field is missing or zero, and a created service stores the body's fields. */
  lemma PostServiceFields(b: ServiceBody, newId: string)
    ensures PostService(b, newId).ServiceError? <==>
      b.name.None? || b.name.value == "" || b.duration.None? || b.duration.value == 0
      || b.price.None? || b.price.value == 0.0
    ensures PostService(b, newId).ServiceCreated? ==>
      var s := PostService(b, newId).service;
      s.id == newId && Some(s.name) == b.name && s.description == b.description
      && Some(s.duration) == b.duration && Some(s.price) == b.price && s.imageUrl == b.imageUrl && s.isActive
  {
  }

  /** A free service, or one of no length, cannot be created. */
  lemma ZeroRejected(b: ServiceBody, newId: string)
    requires b.price == Some(0.0) || b.duration == Some(0)
    ensures PostService(b, newId) == ServiceError(400, ServiceFieldsMissing)
  {
  }

  /** The listing holds exactly the active services, each as often as stored, ordered by name. */
  lemma ListedServices(services: seq<Service>)
    ensures var r := ActiveServices(services);
      SortedBy(r, NameLe)
      && multiset(r) == multiset(Filter(services, IsActiveService))
      && (forall s :: s in r <==> s in services && s.isActive)
  {
    var r := ActiveServices(services);
    var f := Filter(services, IsActiveService);
    FilterMembers(services, IsActiveService);
    forall s ensures s in r <==> s in f {
      assert s in r <==> s in multiset(r);
      assert s in f <==> s in multiset(f);
    }
  }

  /** When every stored service is active, every one is listed. */
  lemma AllActiveAllListed(services: seq<Service>)
    requires forall i :: 0 <= i < |services| ==> services[i].isActive
    ensures |ActiveServices(services)| == |services|
  {
    FilterKeepsAll(services, IsActiveService);
    var r := ActiveServices(services);
    assert |multiset(r)| == |r|;
    assert |multiset(Filter(services, IsActiveService))| == |Filter(services, IsActiveService)|;
  }
}
