/** The payment handlers (src/controllers/payment.js) with the role lists of
    src/routes/paymentRoutes.js as preconditions. */
module Payments {
  import opened Common
  import opened UserModel
  import ProjectModel
  import opened PaymentModel
  import opened Db

  /** `Payment.create` for a request body: validation of `min: 0` and the two
      enums, then the defaults (method other, status unpaid, date now). A body
      that fails validation throws, which the handler answers with 500. */
  function NewPayment(project: Id, client: Id, amount: int, payMethod: Option<string>, status: Option<string>,
                      date: Option<nat>, notes: Option<string>, now: nat): (r: Option<Payment>)
    ensures r.Some? <==>
      && amount >= 0
      && (payMethod.Some? ==> ParseMethod(payMethod.value).Some?)
      && (status.Some? ==> ParsePaymentStatus(status.value).Some?)
    ensures r.Some? ==>
      && r.value.project == project && r.value.client == client && r.value.amount == amount
      && r.value.notes == notes
      && (payMethod.None? ==> r.value.payMethod == Other)
      && (payMethod.Some? ==> MethodName(r.value.payMethod) == payMethod.value)
      && (status.None? ==> r.value.status == Unpaid)
      && (status.Some? ==> PaymentStatusName(r.value.status) == status.value)
      && (date.None? ==> r.value.date == now)
      && (date.Some? ==> r.value.date == date.value)
  {
    var m := if payMethod.None? then Some(Other) else ParseMethod(payMethod.value);
    var s := if status.None? then Some(Unpaid) else ParsePaymentStatus(status.value);
    if amount < 0 || m.None? || s.None? then None
    else Some(Payment(project, client, amount, m.value, s.value, if date.None? then now else date.value, notes))
  }

  /** POST /api/payments (admins only): 400 when the project id or the amount is
      falsy (so an amount of 0 is refused too), 404 for an unknown project, 500
      when validation fails; otherwise one payment is stored whose client is the
      project's client. */
  method CreatePayment(st: Store, caller: Caller, project: Option<Id>, amount: Option<int>,
                       payMethod: Option<string>, status: Option<string>, date: Option<nat>, notes: Option<string>)
    returns (code: int, created: Option<Id>)
    requires st.Valid() && st.Authenticated(caller) && caller.role == Admin
    modifies st
    ensures st.Valid()
    ensures (project.None? || !TruthyNumber(amount)) ==> code == BadRequest && created.None? && unchanged(st)
    ensures (project.Some? && TruthyNumber(amount) && project.value !in old(st.projects)) ==>
      code == NotFound && created.None? && unchanged(st)
    ensures (project.Some? && TruthyNumber(amount) && project.value in old(st.projects)) ==>
      var p := NewPayment(project.value, old(st.projects)[project.value].client, amount.value,
                          payMethod, status, date, notes, old(st.clock));
      if p.None? then
        code == ServerError && created.None? && unchanged(st)
      else
        && code == Created && created == Some(old(st.clock))
        && old(st.clock) !in old(st.payments)
        && st.Snapshot() == old(st.Snapshot()).(payments := old(st.payments)[old(st.clock) := p.value],
                                                clock := old(st.clock) + 1)
    ensures created.Some? ==>
      && created.value in st.payments
      && st.payments[created.value].project in st.projects
      && st.payments[created.value].client == st.projects[st.payments[created.value].project].client
  {
    if project.None? || !TruthyNumber(amount) {
      return BadRequest, None;
    }
    if project.value !in st.projects {
      return NotFound, None;
    }
    var p := NewPayment(project.value, st.projects[project.value].client, amount.value,
                        payMethod, status, date, notes, st.clock);
    if p.None? {
      return ServerError, None;
    }
    var id := st.clock;
    st.payments := st.payments[id := p.value];
    st.clock := st.clock + 1;
    return Created, Some(id);
  }

  /** GET /api/payments: a client sees exactly its own payments; every other
      logged-in role (admins and, as the route allows, employees) sees all. */
  function GetPayments(payments: map<Id, Payment>, caller: Caller): (r: map<Id, Payment>)
    ensures forall id :: id in r ==> id in payments && r[id] == payments[id]
    ensures caller.role != Client ==> r == payments
    ensures caller.role == Client ==>
      forall id :: id in payments ==> (id in r <==> payments[id].client == caller.id)
  {
    if caller.role == Client then
      map id | id in payments && payments[id].client == caller.id :: payments[id]
    else
      payments
  }

  /** `Payment.findOne({ project })`: the first payment of the project in natural order. */
  function FirstForProject(payments: map<Id, Payment>, project: Id): (r: Option<Id>)
    ensures r.Some? ==> r.value in payments && payments[r.value].project == project
    ensures r.Some? ==> forall id :: id in payments && payments[id].project == project ==> r.value <= id
    ensures r.None? ==> forall id :: id in payments ==> payments[id].project != project
  {
    var hits := set id | id in payments && payments[id].project == project;
    assert forall id :: id in payments && payments[id].project == project ==> id in hits;
    if hits == {} then None else Some(Least(hits))
  }

  /** GET /api/payments/project/:projectId: 200 with no record when the project has
      no payment, 403 to a client who does not own the payment found, otherwise
      200 with that payment. */
  function GetPaymentByProject(payments: map<Id, Payment>, caller: Caller, project: Id): (r: Reply<Payment>)
    ensures FirstForProject(payments, project).None? ==> r == Reply(Ok, None)
    ensures r.code == Forbidden <==>
      && FirstForProject(payments, project).Some?
      && caller.role == Client
      && payments[FirstForProject(payments, project).value].client != caller.id
    ensures r.code == Ok || r.code == Forbidden
    ensures r.body.Some? ==> r.code == Ok && r.body.value.project == project
    ensures r.body.Some? && caller.role == Client ==> r.body.value.client == caller.id
    ensures FirstForProject(payments, project).Some? && r.code == Ok ==>
      r.body == Some(payments[FirstForProject(payments, project).value])
  {
    match FirstForProject(payments, project)
    case None => Reply(Ok, None)
    case Some(id) =>
      if caller.role == Client && payments[id].client != caller.id then Reply(Forbidden, None)
      else Reply(Ok, Some(payments[id]))
  }

  /** The update `findByIdAndUpdate` applies: every field given replaces the old
      one, every field left undefined is dropped from the update. */
  function Amend(p: Payment, amount: Option<nat>, payMethod: Option<PaymentMethod>, status: Option<PaymentStatus>,
                 date: Option<nat>, notes: Option<string>): (q: Payment)
    ensures q.project == p.project && q.client == p.client
    ensures q.amount == (if amount.Some? then amount.value else p.amount)
    ensures q.payMethod == (if payMethod.Some? then payMethod.value else p.payMethod)
    ensures q.status == (if status.Some? then status.value else p.status)
    ensures q.date == (if date.Some? then date.value else p.date)
    ensures q.notes == (if notes.Some? then notes else p.notes)
  {
    p.(amount := if amount.Some? then amount.value else p.amount,
       payMethod := if payMethod.Some? then payMethod.value else p.payMethod,
       status := if status.Some? then status.value else p.status,
       date := if date.Some? then date.value else p.date,
       notes := if notes.Some? then notes else p.notes)
  }

  /** PATCH /api/payments/:id (admins only): 404 for an unknown payment, otherwise
      that payment is amended and nothing else changes. */
  method UpdatePayment(st: Store, caller: Caller, id: Id, amount: Option<nat>, payMethod: Option<PaymentMethod>,
                       status: Option<PaymentStatus>, date: Option<nat>, notes: Option<string>)
    returns (code: int)
    requires st.Valid() && st.Authenticated(caller) && caller.role == Admin
    modifies st
    ensures st.Valid()
    ensures id !in old(st.payments) ==> code == NotFound && unchanged(st)
    ensures id in old(st.payments) ==>
      && code == Ok
      && st.Snapshot() == old(st.Snapshot()).(
           payments := old(st.payments)[id := Amend(old(st.payments)[id], amount, payMethod, status, date, notes)])
  {
    if id !in st.payments {
      return NotFound;
    }
    st.payments := st.payments[id := Amend(st.payments[id], amount, payMethod, status, date, notes)];
    return Ok;
  }

  /** DELETE /api/payments/:id (admins only): 404 for an unknown payment, otherwise
      that one payment is removed. */
  method DeletePayment(st: Store, caller: Caller, id: Id) returns (code: int)
    requires st.Valid() && st.Authenticated(caller) && caller.role == Admin
    modifies st
    ensures st.Valid()
    ensures id !in old(st.payments) ==> code == NotFound && unchanged(st)
    ensures id in old(st.payments) ==>
      code == Ok && st.Snapshot() == old(st.Snapshot()).(payments := old(st.payments) - {id})
  {
    if id !in st.payments {
      return NotFound;
    }
    st.payments := st.payments - {id};
    return Ok;
  }

  /** `reduce((sum, p) => sum + p.amount, 0)`. */
  function SumAmounts(ps: seq<Payment>): nat {
    if ps == [] then 0 else SumAmounts(ps[..|ps| - 1]) + ps[|ps| - 1].amount
  }

  /** `filter((p) => p.status === s)`. */
  function WithStatus(ps: seq<Payment>, s: PaymentStatus): seq<Payment> {
    if ps == [] then []
    else WithStatus(ps[..|ps| - 1], s) + (if ps[|ps| - 1].status == s then [ps[|ps| - 1]] else [])
  }

  lemma SumAmountsSnoc(ps: seq<Payment>, p: Payment)
    ensures SumAmounts(ps + [p]) == SumAmounts(ps) + p.amount
  {
    assert (ps + [p])[..|ps|] == ps;
  }

  /** Adding one payment raises the total of its own status by its amount and
      leaves the other two totals as they were. */
  lemma WithStatusSnoc(ps: seq<Payment>, p: Payment, s: PaymentStatus)
    ensures SumAmounts(WithStatus(ps + [p], s)) == SumAmounts(WithStatus(ps, s)) + (if p.status == s then p.amount else 0)
  {
    assert (ps + [p])[..|ps|] == ps;
    if p.status == s {
      SumAmountsSnoc(WithStatus(ps, s), p);
    } else {
      assert WithStatus(ps + [p], s) == WithStatus(ps, s);
    }
  }

  /** The status enum is exhaustive, so the three per-status totals add up to
      the sum of all amounts. */
  lemma {:induction false} TotalsPartition(ps: seq<Payment>)
    ensures SumAmounts(WithStatus(ps, Paid)) + SumAmounts(WithStatus(ps, Unpaid))
            + SumAmounts(WithStatus(ps, Partial)) == SumAmounts(ps)
  {
    if ps != [] {
      var pre, last := ps[..|ps| - 1], ps[|ps| - 1];
      assert ps == pre + [last];
      TotalsPartition(pre);
      WithStatusSnoc(pre, last, Paid);
      WithStatusSnoc(pre, last, Unpaid);
      WithStatusSnoc(pre, last, Partial);
      SumAmountsSnoc(pre, last);
    }
  }

  datatype PaymentStats = PaymentStats(totalRevenue: nat, totalPending: nat, totalPartial: nat, totalPayments: nat)

  /** The four figures of getPaymentStats over the payments found. */
  function Stats(ps: seq<Payment>): (r: PaymentStats)
    ensures r.totalPayments == |ps|
    ensures r.totalRevenue + r.totalPending + r.totalPartial == SumAmounts(ps)
    ensures r.totalRevenue == SumAmounts(WithStatus(ps, Paid))
    ensures r.totalPending == SumAmounts(WithStatus(ps, Unpaid))
    ensures r.totalPartial == SumAmounts(WithStatus(ps, Partial))
  {
    TotalsPartition(ps);
    PaymentStats(SumAmounts(WithStatus(ps, Paid)), SumAmounts(WithStatus(ps, Unpaid)),
                 SumAmounts(WithStatus(ps, Partial)), |ps|)
  }

  /** GET /api/payments/stats (admins only), over every stored payment: the count
      is the number of payments and the totals partition the sum of amounts. */
  function GetPaymentStats(payments: map<Id, Payment>, clock: nat): (r: PaymentStats)
    requires IdsBelow(payments, clock)
    ensures r.totalPayments == |payments|
    ensures r.totalRevenue == SumAmounts(WithStatus(Documents(payments, clock), Paid))
    ensures r.totalPending == SumAmounts(WithStatus(Documents(payments, clock), Unpaid))
    ensures r.totalPartial == SumAmounts(WithStatus(Documents(payments, clock), Partial))
    ensures r.totalRevenue + r.totalPending + r.totalPartial == SumAmounts(Documents(payments, clock))
  {
    ListingCoversAll(payments, clock);
    Stats(Documents(payments, clock))
  }

  /** Recording a new payment adds its amount to exactly the total of its status. */
  lemma StatsAfterNewPayment(ps: seq<Payment>, p: Payment)
    ensures Stats(ps + [p]).totalPayments == Stats(ps).totalPayments + 1
    ensures Stats(ps + [p]).totalRevenue == Stats(ps).totalRevenue + (if p.status == Paid then p.amount else 0)
    ensures Stats(ps + [p]).totalPending == Stats(ps).totalPending + (if p.status == Unpaid then p.amount else 0)
    ensures Stats(ps + [p]).totalPartial == Stats(ps).totalPartial + (if p.status == Partial then p.amount else 0)
  {
    WithStatusSnoc(ps, p, Paid);
    WithStatusSnoc(ps, p, Unpaid);
    WithStatusSnoc(ps, p, Partial);
  }
}
