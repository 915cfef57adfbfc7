/** The project handlers (src/controllers/project.js) with the role lists of
    src/routes/projectRoutes.js as preconditions. */
module Projects {
  import opened Common
  import opened Text
  import opened UserModel
  import opened ProjectModel
  import opened Db

  /** The filter getProjects builds from the caller's role: `client` for a client,
      `employees` (array membership) for an employee, nothing for an admin. */
  predicate MatchesRoleFilter(p: Project, caller: Caller) {
    && (caller.role == Client ==> p.client == caller.id)
    && (caller.role == Employee ==> caller.id in p.employees)
  }

  /** GET /api/projects: per role, the caller's own projects, the projects the
      caller is assigned to, or every project. */
  function GetProjects(projects: map<Id, Project>, caller: Caller): (r: map<Id, Project>)
    ensures forall id :: id in r ==> id in projects && r[id] == projects[id]
    ensures caller.role == Admin ==> r == projects
    ensures caller.role == Client ==>
      forall id :: id in projects ==> (id in r <==> projects[id].client == caller.id)
    ensures caller.role == Employee ==>
      forall id :: id in projects ==> (id in r <==> caller.id in projects[id].employees)
  {
    map id | id in projects && MatchesRoleFilter(projects[id], caller) :: projects[id]
  }

  /** GET /api/projects/:id: 404 for an unknown project, 403 for a client who does
      not own it or an employee not assigned to it, else the project. */
  function GetProjectById(projects: map<Id, Project>, caller: Caller, id: Id): (r: Reply<Project>)
    ensures r.code == NotFound <==> id !in projects
    ensures r.code == Forbidden <==>
      id in projects
      && ((caller.role == Client && projects[id].client != caller.id)
          || (caller.role == Employee && caller.id !in projects[id].employees))
    ensures r.code == Ok || r.code == NotFound || r.code == Forbidden
    ensures r.body.Some? <==> r.code == Ok
    ensures r.code == Ok ==> r.body == Some(projects[id])
  {
    if id !in projects then Reply(NotFound, None)
    else if caller.role == Client && projects[id].client != caller.id then Reply(Forbidden, None)
    else if caller.role == Employee && caller.id !in projects[id].employees then Reply(Forbidden, None)
    else Reply(Ok, Some(projects[id]))
  }

  /** The list and the detail view agree: a project is in the caller's list
      exactly when fetching it by id succeeds. */
  lemma ListAgreesWithDetail(projects: map<Id, Project>, caller: Caller, id: Id)
    ensures id in GetProjects(projects, caller) <==> GetProjectById(projects, caller, id).code == Ok
  {
  }

  /** PATCH /api/projects/:id/assign (admins only): a body whose `employees` is not
      an array (None here) is a 400; an unknown project a 404; otherwise the
      employee list is replaced wholesale and nothing else changes. */
  method AssignEmployees(st: Store, caller: Caller, id: Id, employees: Option<seq<Id>>) returns (code: int)
    requires st.Valid() && st.Authenticated(caller) && caller.role == Admin
    modifies st
    ensures st.Valid()
    ensures employees.None? ==> code == BadRequest && unchanged(st)
    ensures employees.Some? && id !in old(st.projects) ==> code == NotFound && unchanged(st)
    ensures employees.Some? && id in old(st.projects) ==>
      && code == Ok
      && st.Snapshot() == old(st.Snapshot()).(
           projects := old(st.projects)[id := old(st.projects)[id].(employees := employees.value)])
  {
    if employees.None? {
      return BadRequest;
    }
    if id !in st.projects {
      return NotFound;
    }
    st.projects := st.projects[id := st.projects[id].(employees := employees.value)];
    return Ok;
  }

  /** The statuses updateStatus accepts: pending, in-progress and completed. The
      schema also allows "stopped", but this handler refuses it. */
  function AllowedStatus(s: Option<string>): (r: Option<ProjectStatus>)
    ensures r.Some? <==> s.Some? && s.value in ["pending", "in-progress", "completed"]
    ensures r.Some? ==> StatusName(r.value) == s.value && r.value != Stopped
  {
    if s.None? then None
    else match ParseStatus(s.value)
      case Some(st) => if st == Stopped then None else Some(st)
      case None => None
  }

  /** "stopped" passes the schema's enum but not the handler's list. */
  lemma StoppedIsRefused()
    ensures ParseStatus("stopped") == Some(Stopped)
    ensures AllowedStatus(Some("stopped")) == None
  {
  }

  /** PATCH /api/projects/:id/status (admins and employees): 400 for a status
      outside the allowed list, 404 for an unknown project, 403 for an employee
      not assigned to it. Then `save()` validates the whole document: a project
      whose name an earlier unvalidated update left empty fails with 500.
      Otherwise only that project's status changes. */
  method UpdateStatus(st: Store, caller: Caller, id: Id, status: Option<string>) returns (code: int)
    requires st.Valid() && st.Authenticated(caller) && (caller.role == Admin || caller.role == Employee)
    modifies st
    ensures st.Valid()
    ensures AllowedStatus(status).None? ==> code == BadRequest && unchanged(st)
    ensures AllowedStatus(status).Some? && id !in old(st.projects) ==> code == NotFound && unchanged(st)
    ensures (AllowedStatus(status).Some? && id in old(st.projects)
             && caller.role == Employee && caller.id !in old(st.projects)[id].employees) ==>
      code == Forbidden && unchanged(st)
    ensures (AllowedStatus(status).Some? && id in old(st.projects)
             && (caller.role == Employee ==> caller.id in old(st.projects)[id].employees)
             && old(st.projects)[id].name == "") ==>
      code == ServerError && unchanged(st)
    ensures (AllowedStatus(status).Some? && id in old(st.projects)
             && (caller.role == Employee ==> caller.id in old(st.projects)[id].employees)
             && old(st.projects)[id].name != "") ==>
      && code == Ok
      && st.Snapshot() == old(st.Snapshot()).(
           projects := old(st.projects)[id := old(st.projects)[id].(status := AllowedStatus(status).value)])
  {
    var allowed := AllowedStatus(status);
    if allowed.None? {
      return BadRequest;
    }
    if id !in st.projects {
      return NotFound;
    }
    var project := st.projects[id];
    if caller.role == Employee && caller.id !in project.employees {
      return Forbidden;
    }
    if project.name == "" {
      return ServerError;
    }
    st.projects := st.projects[id := project.(status := allowed.value)];
    return Ok;
  }

  /** The update `findByIdAndUpdate` applies for `{ name, description }`: an
      undefined field is dropped from the update, a given name passes the trim
      setter. Validators do not run on this path. */
  function EditDetails(p: Project, name: Option<string>, description: Option<string>): (q: Project)
    ensures q.(name := p.name, description := p.description) == p
    ensures name.Some? ==> q.name == Trim(name.value)
    ensures name.None? ==> q.name == p.name
    ensures description.Some? ==> q.description == description
    ensures description.None? ==> q.description == p.description
  {
    p.(name := if name.Some? then Trim(name.value) else p.name,
       description := if description.Some? then description else p.description)
  }

  /** PATCH /api/projects/:id (admins only): 404 for an unknown project, otherwise
      the given name and description replace the old ones. */
  method UpdateProject(st: Store, caller: Caller, id: Id, name: Option<string>, description: Option<string>)
    returns (code: int)
    requires st.Valid() && st.Authenticated(caller) && caller.role == Admin
    modifies st
    ensures st.Valid()
    ensures id !in old(st.projects) ==> code == NotFound && unchanged(st)
    ensures id in old(st.projects) ==>
      && code == Ok
      && st.Snapshot() == old(st.Snapshot()).(
           projects := old(st.projects)[id := EditDetails(old(st.projects)[id], name, description)])
  {
    if id !in st.projects {
      return NotFound;
    }
    st.projects := st.projects[id := EditDetails(st.projects[id], name, description)];
    return Ok;
  }

  /** DELETE /api/projects/:id (admins only): 404 for an unknown project, otherwise
      that one project is removed. Payments and requests that refer to it are
      left as they are. */
  method DeleteProject(st: Store, caller: Caller, id: Id) returns (code: int)
    requires st.Valid() && st.Authenticated(caller) && caller.role == Admin
    modifies st
    ensures st.Valid()
    ensures id !in old(st.projects) ==> code == NotFound && unchanged(st)
    ensures id in old(st.projects) ==>
      && code == Ok
      && st.projects.Keys == old(st.projects).Keys - {id}
      && st.Snapshot() == old(st.Snapshot()).(projects := old(st.projects) - {id})
  {
    if id !in st.projects {
      return NotFound;
    }
    st.projects := st.projects - {id};
    return Ok;
  }
}
