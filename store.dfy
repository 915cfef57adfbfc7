/** The document store the handlers run against: one map per collection,
    keyed by id, and a logical clock that issues ids and timestamps. */
module Db {
  import opened Common
  import opened UserModel
  import ProjectModel
  import ServiceModel
  import RequestModel
  import PaymentModel
  import MessageModel

  /** The authenticated caller as the `protect` middleware leaves it in `req.user`:
      the id and role carried by the session token. */
  datatype Caller = Caller(id: Id, role: Role)

  /** The whole content of the store at one moment, for stating what a handler changed. */
  datatype State = State(
    users: map<Id, User>,
    projects: map<Id, ProjectModel.Project>,
    services: map<Id, ServiceModel.Service>,
    requests: map<Id, RequestModel.ServiceRequest>,
    payments: map<Id, PaymentModel.Payment>,
    messages: map<Id, MessageModel.Message>,
    clock: nat)

  class Store {
    var users: map<Id, User>
    var projects: map<Id, ProjectModel.Project>
    var services: map<Id, ServiceModel.Service>
    var requests: map<Id, RequestModel.ServiceRequest>
    var payments: map<Id, PaymentModel.Payment>
    var messages: map<Id, MessageModel.Message>
    /** The next id to issue; it is also the creation time of the next document. */
    var clock: nat

    /** The store invariant: every id was issued by the clock, users passed the
        schema's setters, hook and unique index, services passed validation, and
        messages carry their creation time as their id. */
    ghost predicate Valid()
      reads this
    {
      && IdsBelow(users, clock)
      && IdsBelow(projects, clock)
      && IdsBelow(services, clock)
      && IdsBelow(requests, clock)
      && IdsBelow(payments, clock)
      && IdsBelow(messages, clock)
      && UsersValid(users)
      && (forall id :: id in services ==> ServiceModel.WellFormed(services[id]))
      && MessageModel.Clocked(messages)
    }

    constructor Empty()
      ensures Valid()
      ensures users == map[] && projects == map[] && services == map[]
      ensures requests == map[] && payments == map[] && messages == map[]
    {
      users, projects, services := map[], map[], map[];
      requests, payments, messages := map[], map[], map[];
      clock := 0;
    }

    function Snapshot(): State
      reads this
    {
      State(users, projects, services, requests, payments, messages, clock)
    }

    /** The write of `User.create` once validation and the unique index passed:
        the record goes in under the next id. */
    method AddUser(u: User) returns (id: Id)
      requires Valid() && Stored(u)
      requires forall j :: j in users ==> users[j].email != u.email
      modifies this
      ensures Valid()
      ensures id == old(clock) && id !in old(users)
      ensures Snapshot() == old(Snapshot()).(users := old(users)[id := u], clock := old(clock) + 1)
    {
      id := clock;
      users := users[id := u];
      clock := clock + 1;
    }

    /** The write of `Service.create` once validation passed. */
    method AddService(s: ServiceModel.Service) returns (id: Id)
      requires Valid() && ServiceModel.WellFormed(s)
      modifies this
      ensures Valid()
      ensures id == old(clock) && id !in old(services)
      ensures Snapshot() == old(Snapshot()).(services := old(services)[id := s], clock := old(clock) + 1)
    {
      id := clock;
      services := services[id := s];
      clock := clock + 1;
    }

    /** `protect` found the token's user in the store, with the role the token names.
        It does not look at `isDeleted`. */
    predicate Authenticated(c: Caller)
      reads this
    {
      c.id in users && users[c.id].role == c.role
    }
  }
}
