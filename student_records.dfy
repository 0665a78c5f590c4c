/** The student documents the institution portal reads and writes, the fee
    status derived from them, and the `students` collection that holds them.

    Stored documents are untyped: a numeric field may be missing or hold
    something that is not a number. `Num` is what JavaScript's `Number(field)`
    yields for such a field: a number, or NaN. */
module StudentRecords {
  import opened MockData

  datatype Num = Num(value: int) | NaN

  /** `Number(field) || 0`: an absent or invalid amount counts as 0. */
  function OrZero(n: Num): int
  {
    match n
    case Num(v) => v
    case NaN => 0
  }

  /** `Number(a) - Number(b)`: NaN when either side is. */
  function Minus(a: Num, b: Num): (d: Num)
    ensures d.Num? <==> a.Num? && b.Num?
    ensures d.Num? ==> d.value + b.value == a.value
  {
    if a.Num? && b.Num? then Num(a.value - b.value) else NaN
  }

  /** A student document as written by the registration form. */
  datatype StudentDoc = StudentDoc(
    id: string,
    name: string,
    admissionNumber: string,
    grade: string,
    parentName: string,
    parentEmail: string,
    totalFees: Num,
    paidAmount: Num,
    status: string,
    createdAt: string)

  /** The status both institution screens derive after a write:
      "Paid" when the paid amount reaches the fees, "Balance" otherwise
      (also when the fees are not a number, since `x >= NaN` is false). */
  function StatusFor(paid: int, totalFees: Num): (st: PaymentStatus)
    ensures st != Pending
  {
    if totalFees.Num? && paid >= totalFees.value then Paid else Balance
  }

  /** With valid fees, "Paid" means exactly that nothing is left to pay. */
  lemma PaidIffNothingDue(paid: int, totalFees: int)
    ensures StatusFor(paid, Num(totalFees)) == Paid <==> totalFees - paid <= 0
    ensures StatusFor(paid, Num(totalFees)) == Balance <==> totalFees - paid > 0
  {
  }

  /** Paying more never turns "Paid" back into "Balance". */
  lemma StatusMonotone(paid: int, more: int, totalFees: Num)
    requires paid <= more
    ensures StatusFor(paid, totalFees) == Paid ==> StatusFor(more, totalFees) == Paid
  {
  }

  /** The balance a screen displays for a document: `Number(totalFees) - Number(paidAmount)`. */
  function DisplayedBalance(d: StudentDoc): Num
  {
    Minus(d.totalFees, d.paidAmount)
  }

  /** `DisplayedBalance(d) > 0`: false when the balance is NaN. */
  predicate HasPositiveBalance(d: StudentDoc)
  {
    DisplayedBalance(d).Num? && DisplayedBalance(d).value > 0
  }

  /** Both amounts are numbers and the stored status is the derived one. */
  predicate Consistent(d: StudentDoc)
  {
    && d.totalFees.Num? && d.paidAmount.Num?
    && d.status == StatusName(StatusFor(d.paidAmount.value, d.totalFees))
  }

  /** For a consistent document, a positive displayed balance is exactly a
      status other than "Paid". */
  lemma PositiveBalanceIffNotPaid(d: StudentDoc)
    requires Consistent(d)
    ensures HasPositiveBalance(d) <==> d.status != "Paid"
    ensures !HasPositiveBalance(d) <==> d.status == "Paid"
  {
    PaidIffNothingDue(d.paidAmount.value, d.totalFees.value);
  }

  /** What a rejected store write reports to the process-wide error channel. */
  datatype PermissionError = PermissionError(
    path: string,
    operation: string,
    requestResourceData: Option<StudentDoc>)

  /** The remote `students` collection, keyed by document id. */
  class StudentCollection {
    var docs: map<string, StudentDoc>

    /** Every document carries its own id. */
    ghost predicate Valid()
      reads this
    {
      forall id :: id in docs ==> docs[id].id == id
    }

    constructor (initial: map<string, StudentDoc>)
      requires forall id :: id in initial ==> initial[id].id == id
      ensures Valid() && docs == initial
    {
      docs := initial;
    }
  }
}
