/** The ServiceRequest schema (src/models/serviceRequest.js). */
module RequestModel {
  import opened Common

  datatype RequestStatus = Pending | Approved | Rejected

  /** `client` and `service` are required, `note` is optional. */
  datatype ServiceRequest = ServiceRequest(
    client: Id,
    service: Id,
    note: Option<string>,
    status: RequestStatus)

  /** `ServiceRequest.create` with the schema default: status pending. */
  function NewRequest(client: Id, service: Id, note: Option<string>): (r: ServiceRequest)
    ensures r.status == Pending
    ensures r.client == client && r.service == service && r.note == note
  {
    ServiceRequest(client, service, note, Pending)
  }
}
