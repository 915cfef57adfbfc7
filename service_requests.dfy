/** The service-request handlers (src/controllers/serviceRequest.js): a request
    goes from pending to approved or rejected once, and approval creates the
    project. */
module ServiceRequests {
  import opened Common
  import opened UserModel
  import opened RequestModel
  import ProjectModel
  import ServiceModel
  import opened Db

  const ApprovedDescription: string := "Project created from service request"

  /** POST /api/services/requests (clients only): a missing service id is a 400;
      otherwise one pending request of the caller is stored under a fresh id.
      The service id is not checked against the services collection. */
  method CreateRequest(st: Store, caller: Caller, service: Option<Id>, note: Option<string>)
    returns (code: int, created: Option<Id>)
    requires st.Valid() && st.Authenticated(caller) && caller.role == Client
    modifies st
    ensures st.Valid()
    ensures service.None? ==> code == BadRequest && created == None && unchanged(st)
    ensures service.Some? ==>
      && code == Created && created == Some(old(st.clock))
      && old(st.clock) !in old(st.requests)
      && st.Snapshot() == old(st.Snapshot()).(
           requests := old(st.requests)[old(st.clock) := NewRequest(caller.id, service.value, note)],
           clock := old(st.clock) + 1)
  {
    if service.None? {
      return BadRequest, None;
    }
    var id := st.clock;
    st.requests := st.requests[id := NewRequest(caller.id, service.value, note)];
    st.clock := st.clock + 1;
    return Created, Some(id);
  }

  /** GET /api/services/requests (admins and clients): a client sees exactly its
      own requests, anyone else sees all of them. */
  function GetRequests(requests: map<Id, ServiceRequest>, caller: Caller): (r: map<Id, ServiceRequest>)
    ensures forall id :: id in r <==> id in requests && (caller.role == Client ==> requests[id].client == caller.id)
    ensures forall id :: id in r ==> r[id] == requests[id]
  {
    if caller.role == Client then
      map id | id in requests && requests[id].client == caller.id :: requests[id]
    else
      requests
  }

  /** The guard chain approve and reject share: 404 for an unknown id, 400 for a
      request already decided, 200 for a pending one. */
  function DecisionGuard(requests: map<Id, ServiceRequest>, id: Id): (code: int)
    ensures code == NotFound <==> id !in requests
    ensures code == BadRequest <==> id in requests && requests[id].status != Pending
    ensures code == Ok <==> id in requests && requests[id].status == Pending
  {
    if id !in requests then NotFound
    else if requests[id].status != Pending then BadRequest
    else Ok
  }

  /** A decision is final: once a request is approved or rejected, every later
      approve or reject of it fails the guard with 400. */
  lemma DecidedRequestStaysDecided(requests: map<Id, ServiceRequest>, id: Id, to: RequestStatus)
    requires DecisionGuard(requests, id) == Ok && to != Pending
    ensures DecisionGuard(requests[id := requests[id].(status := to)], id) == BadRequest
  {
  }

  /** PATCH /api/services/requests/:id/approve (admins only). The status is saved
      as approved before the project is created; when the request's service no
      longer exists, `request.service.name` throws, so the handler answers 500
      with the request already approved and no project. Otherwise exactly one
      project is added, named after the service, owned by the request's client
      and linked back to the request. */
  method ApproveRequest(st: Store, caller: Caller, id: Id) returns (code: int, project: Option<Id>)
    requires st.Valid() && st.Authenticated(caller) && caller.role == Admin
    modifies st
    ensures st.Valid()
    ensures DecisionGuard(old(st.requests), id) != Ok ==>
      code == DecisionGuard(old(st.requests), id) && project == None && unchanged(st)
    ensures DecisionGuard(old(st.requests), id) == Ok ==>
      var req := old(st.requests)[id];
      var decided := old(st.requests)[id := req.(status := Approved)];
      if req.service in old(st.services) then
        && code == Ok && project == Some(old(st.clock))
        && old(st.clock) !in old(st.projects)
        && |st.projects| == |old(st.projects)| + 1
        && st.Snapshot() == old(st.Snapshot()).(
             requests := decided,
             projects := old(st.projects)[old(st.clock) :=
               ProjectModel.NewProject(old(st.services)[req.service].name, Some(ApprovedDescription), req.client, Some(id))],
             clock := old(st.clock) + 1)
      else
        && code == ServerError && project == None
        && st.Snapshot() == old(st.Snapshot()).(requests := decided)
  {
    code := DecisionGuard(st.requests, id);
    if code != Ok {
      return code, None;
    }
    var req := st.requests[id];
    st.requests := st.requests[id := req.(status := Approved)];
    if req.service !in st.services {
      return ServerError, None;
    }
    var pid := st.clock;
    var p := ProjectModel.NewProject(st.services[req.service].name, Some(ApprovedDescription), req.client, Some(id));
    st.projects := st.projects[pid := p];
    st.clock := st.clock + 1;
    return Ok, Some(pid);
  }

  /** PATCH /api/services/requests/:id/reject (admins only): the same guards as
      approve, then the status becomes rejected and no project is created. */
  method RejectRequest(st: Store, caller: Caller, id: Id) returns (code: int)
    requires st.Valid() && st.Authenticated(caller) && caller.role == Admin
    modifies st
    ensures st.Valid()
    ensures code == DecisionGuard(old(st.requests), id)
    ensures code != Ok ==> unchanged(st)
    ensures code == Ok ==>
      st.Snapshot() == old(st.Snapshot()).(requests := old(st.requests)[id := old(st.requests)[id].(status := Rejected)])
  {
    code := DecisionGuard(st.requests, id);
    if code == Ok {
      st.requests := st.requests[id := st.requests[id].(status := Rejected)];
    }
  }

  /** The lifecycle as callers see it: after one approve of a known request, a
      reject and a second approve of it both answer 400, and the request stays
      approved. */
  method ApproveThenDecideAgain(st: Store, caller: Caller, id: Id) returns (first: int, second: int, third: int)
    requires st.Valid() && st.Authenticated(caller) && caller.role == Admin
    modifies st
    ensures st.Valid()
    ensures id in old(st.requests) ==> second == BadRequest && third == BadRequest
    ensures id in old(st.requests) && old(st.requests)[id].status == Pending ==>
      first != BadRequest && id in st.requests && st.requests[id].status == Approved
  {
    var project;
    first, project := ApproveRequest(st, caller, id);
    second := RejectRequest(st, caller, id);
    third, project := ApproveRequest(st, caller, id);
  }
}
