/** The service handlers (src/controllers/service.js). Creating and deleting
    are admin-only; listing is open to any logged-in user
    (src/routes/serviceRoutes.js). */
module Services {
  import opened Common
  import opened UserModel
  import opened Text
  import opened ServiceModel
  import opened Db

  /** The handler with a price forwarded to `Service.create`: 400 without a name,
      500 when validation fails, otherwise the service is stored under a fresh id. */
  method CreateServicePriced(st: Store, caller: Caller, name: Option<string>, description: Option<string>, price: Option<int>)
    returns (code: int, created: Option<Id>)
    requires st.Valid() && st.Authenticated(caller) && caller.role == Admin
    modifies st
    ensures st.Valid()
    ensures !Truthy(name) ==> code == BadRequest && created.None? && unchanged(st)
    ensures Truthy(name) && Validate(name.value, description, price).None? ==>
      code == ServerError && created.None? && unchanged(st)
    ensures Truthy(name) && Validate(name.value, description, price).Some? ==>
      && code == Created && created == Some(old(st.clock))
      && st.Snapshot() == old(st.Snapshot()).(
           services := old(st.services)[old(st.clock) := Validate(name.value, description, price).value],
           clock := old(st.clock) + 1)
  {
    if !Truthy(name) {
      return BadRequest, None;
    }
    var doc := Validate(name.value, description, price);
    if doc.None? {
      return ServerError, None;
    }
    var id := st.AddService(doc.value);
    return Created, Some(id);
  }

  /** POST /api/services as written: only `name` and `description` reach
      `Service.create`, so the required `price` is always missing. Every request
      with a name fails validation with 500, and no service is ever created. */
  method CreateService(st: Store, caller: Caller, name: Option<string>, description: Option<string>)
    returns (code: int, created: Option<Id>)
    requires st.Valid() && st.Authenticated(caller) && caller.role == Admin
    modifies st
    ensures st.Valid() && unchanged(st) && created.None?
    ensures !Truthy(name) ==> code == BadRequest
    ensures Truthy(name) ==> code == ServerError
  {
    code, created := CreateServicePriced(st, caller, name, description, None);
  }

  /** A well-formed name and price are enough to create a service once the
      price is forwarded, and no name is enough without it. */
  lemma PriceDecidesCreation(name: string, description: Option<string>, price: nat)
    requires Trim(name) != ""
    ensures Validate(name, description, Some(price)).Some?
    ensures Validate(name, description, None).None?
  {
  }

  /** GET /api/services: every service, in natural order. */
  function GetServices(services: map<Id, Service>, clock: nat): (r: seq<Service>)
    requires IdsBelow(services, clock)
    ensures |r| == |services|
    ensures forall i :: 0 <= i < |r| ==> r[i] in services.Values
    ensures forall id :: id in services ==> services[id] in r
    ensures |r| == |KeysBelow(services, clock)|
    ensures forall i :: 0 <= i < |r| ==> r[i] == services[KeysBelow(services, clock)[i]]
  {
    DocumentsListAll(services, clock);
    Documents(services, clock)
  }

  /** DELETE /api/services/:id: 404 for an unknown service, otherwise it is
      removed. Requests that name it stay as they are. */
  method DeleteService(st: Store, caller: Caller, id: Id) returns (code: int)
    requires st.Valid() && st.Authenticated(caller) && caller.role == Admin
    modifies st
    ensures st.Valid()
    ensures id !in old(st.services) ==> code == NotFound && unchanged(st)
    ensures id in old(st.services) ==>
      code == Ok && st.Snapshot() == old(st.Snapshot()).(services := old(st.services) - {id})
  {
    if id !in st.services {
      return NotFound;
    }
    st.services := st.services - {id};
    return Ok;
  }
}
