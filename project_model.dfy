/** The Project schema (src/models/projectModel.js). */
module ProjectModel {
  import opened Common

  datatype ProjectStatus = Pending | InProgress | Completed | Stopped

  function StatusName(s: ProjectStatus): string {
    match s
    case Pending => "pending"
    case InProgress => "in-progress"
    case Completed => "completed"
    case Stopped => "stopped"
  }

  /** The schema's enum check on `status`: the four status names and nothing else. */
  function ParseStatus(s: string): (r: Option<ProjectStatus>)
    ensures r.Some? ==> StatusName(r.value) == s
    ensures r.None? ==> forall x :: StatusName(x) != s
  {
    if s == "pending" then Some(Pending)
    else if s == "in-progress" then Some(InProgress)
    else if s == "completed" then Some(Completed)
    else if s == "stopped" then Some(Stopped)
    else None
  }

  /** `client` is required; `employees` is a list of user ids; `serviceRequest`
      is the optional back-link to the request the project came from. */
  datatype Project = Project(
    name: string,
    description: Option<string>,
    client: Id,
    employees: seq<Id>,
    status: ProjectStatus,
    serviceRequest: Option<Id>)

  /** `Project.create` with the schema defaults: no employees, status pending. */
  function NewProject(name: string, description: Option<string>, client: Id, serviceRequest: Option<Id>): (p: Project)
    ensures p.employees == [] && p.status == Pending
    ensures p.name == name && p.description == description && p.client == client && p.serviceRequest == serviceRequest
  {
    Project(name, description, client, [], Pending, serviceRequest)
  }
}
