/** The Payment schema (src/models/paymentModel.js). */
module PaymentModel {
  import opened Common

  datatype PaymentMethod = BankTransfer | Upi | Cheque | Cash | Other

  datatype PaymentStatus = Paid | Unpaid | Partial

  function MethodName(m: PaymentMethod): string {
    match m
    case BankTransfer => "bank_transfer"
    case Upi => "upi"
    case Cheque => "cheque"
    case Cash => "cash"
    case Other => "other"
  }

  function PaymentStatusName(s: PaymentStatus): string {
    match s
    case Paid => "paid"
    case Unpaid => "unpaid"
    case Partial => "partial"
  }

  /** The schema's enum check on `method`. */
  function ParseMethod(s: string): (r: Option<PaymentMethod>)
    ensures r.Some? ==> MethodName(r.value) == s
    ensures r.None? ==> forall m :: MethodName(m) != s
  {
    if s == "bank_transfer" then Some(BankTransfer)
    else if s == "upi" then Some(Upi)
    else if s == "cheque" then Some(Cheque)
    else if s == "cash" then Some(Cash)
    else if s == "other" then Some(Other)
    else None
  }

  /** The schema's enum check on `status`. */
  function ParsePaymentStatus(s: string): (r: Option<PaymentStatus>)
    ensures r.Some? ==> PaymentStatusName(r.value) == s
    ensures r.None? ==> forall x :: PaymentStatusName(x) != s
  {
    if s == "paid" then Some(Paid)
    else if s == "unpaid" then Some(Unpaid)
    else if s == "partial" then Some(Partial)
    else None
  }

  /** `amount` is required with `min: 0` (amounts are in minor units here);
      `payMethod` is the schema's `method` path (a reserved word in Dafny);
      `date` is a reading of the store's logical clock. */
  datatype Payment = Payment(
    project: Id,
    client: Id,
    amount: nat,
    payMethod: PaymentMethod,
    status: PaymentStatus,
    date: nat,
    notes: Option<string>)
}
