/** The institution's fees screen: the financial directory with its balance
    and status columns, and the "Add Payment" dialog with which staff record a
    payment received outside the gateway. */
module InstitutionFees {
  import opened MockData
  import opened StudentRecords

  /** `(Number(paidAmount) || 0) + amount`: no clamping and no sign check. */
  function NewPaidAmount(selected: StudentDoc, amount: int): (paid: int)
    ensures paid - amount == OrZero(selected.paidAmount)
  {
    OrZero(selected.paidAmount) + amount
  }

  /** The status written with the new paid amount. */
  function NewStatus(selected: StudentDoc, amount: int): (st: PaymentStatus)
    ensures st != Pending
  {
    StatusFor(NewPaidAmount(selected, amount), selected.totalFees)
  }

  /** The stored document `d` after recording `amount` against the snapshot
      `selected` the dialog was opened with: exactly the two fields change. */
  function WithPayment(d: StudentDoc, selected: StudentDoc, amount: int): (r: StudentDoc)
    ensures r.(paidAmount := d.paidAmount, status := d.status) == d
    ensures r.paidAmount == Num(NewPaidAmount(selected, amount))
    ensures r.status == StatusName(NewStatus(selected, amount))
  {
    d.(paidAmount := Num(NewPaidAmount(selected, amount)),
       status := StatusName(NewStatus(selected, amount)))
  }

  /** "Paid" exactly when the fees are a number and the new paid amount
      reaches them; never "Pending". */
  lemma NewStatusPaidIff(selected: StudentDoc, amount: int)
    ensures NewStatus(selected, amount) == Paid <==>
      selected.totalFees.Num? && OrZero(selected.paidAmount) + amount >= selected.totalFees.value
    ensures NewStatus(selected, amount) == Balance <==>
      !(selected.totalFees.Num? && OrZero(selected.paidAmount) + amount >= selected.totalFees.value)
  {
  }

  /** A student who is paid up stays paid up when a non-negative amount is recorded. */
  lemma RecordingKeepsPaid(selected: StudentDoc, amount: int)
    requires amount >= 0
    requires StatusFor(OrZero(selected.paidAmount), selected.totalFees) == Paid
    ensures NewStatus(selected, amount) == Paid
  {
    StatusMonotone(OrZero(selected.paidAmount), NewPaidAmount(selected, amount), selected.totalFees);
  }

  /** Recording exactly the displayed balance settles the account. */
  lemma RecordingTheBalanceSettles(selected: StudentDoc)
    requires DisplayedBalance(selected).Num?
    ensures NewPaidAmount(selected, DisplayedBalance(selected).value) == selected.totalFees.value
    ensures NewStatus(selected, DisplayedBalance(selected).value) == Paid
  {
  }

  /** When the snapshot is the stored document and its fees are a number,
      the written document again has a derived status. */
  lemma RecordingKeepsConsistent(d: StudentDoc, amount: int)
    requires d.totalFees.Num?
    ensures Consistent(WithPayment(d, d, amount))
  {
  }

  /** The balance column: `Number(totalFees) - Number(paidAmount)`, negative
      for an overpaid student, NaN when either field is not a number. */
  lemma BalanceColumn(d: StudentDoc)
    ensures DisplayedBalance(d).Num? <==> d.totalFees.Num? && d.paidAmount.Num?
    ensures DisplayedBalance(d).Num? ==>
      DisplayedBalance(d).value == d.totalFees.value - d.paidAmount.value
    ensures DisplayedBalance(d).Num? && d.paidAmount.value > d.totalFees.value ==>
      DisplayedBalance(d).value < 0
  {
  }

  datatype BadgeVariant = Default | Secondary | Destructive

  /** The status badge: "Paid" is shown plainly, "Balance" muted and any other
      value, "Pending" included, as destructive. */
  function Badge(status: string): (v: BadgeVariant)
    ensures v == Default <==> status == "Paid"
    ensures v == Secondary <==> status == "Balance"
    ensures v == Destructive <==> status != "Paid" && status != "Balance"
  {
    if status == "Paid" then Default
    else if status == "Balance" then Secondary
    else Destructive
  }

  /** For a consistent document the badge is never destructive, and it is
      the plain one exactly when nothing is left to pay. */
  lemma BadgeOfConsistent(d: StudentDoc)
    requires Consistent(d)
    ensures Badge(d.status) != Destructive
    ensures Badge(d.status) == Default <==> !HasPositiveBalance(d)
  {
    PositiveBalanceIffNotPaid(d);
  }

  datatype UpdateOutcome = NothingSelected | Recorded | Rejected

  /** The screen's own state: the student the dialogs act on, and whether the
      payment dialog is open. */
  class FeesScreen {
    var selectedStudent: Option<StudentDoc>
    var isUpdatingFees: bool

    constructor ()
      ensures selectedStudent == None && !isUpdatingFees
    {
      selectedStudent, isUpdatingFees := None, false;
    }

    /** The payment dialog in row `s` is open. */
    predicate PaymentDialogOpen(s: StudentDoc)
      reads this
    {
      isUpdatingFees && selectedStudent.Some? && selectedStudent.value.id == s.id
    }

    /** Opening the payment dialog of row `s` selects that student; closing
        it only clears the flag. */
    method ChangePaymentDialog(open: bool, s: StudentDoc)
      modifies this
      ensures isUpdatingFees == open
      ensures selectedStudent == if open then Some(s) else old(selectedStudent)
      ensures open ==> PaymentDialogOpen(s)
    {
      isUpdatingFees := open;
      if open {
        selectedStudent := Some(s);
      }
    }

    /** Records `amount` against the selected student. With no selection
        nothing happens. Otherwise the new paid amount and status are computed
        from the selected snapshot and written as a two-field update to the
        stored document; the store rejects the update when it does not accept
        the write or the document no longer exists. */
    method UpdatePayment(store: StudentCollection, amount: int, accepted: bool)
      returns (outcome: UpdateOutcome)
      requires store.Valid()
      modifies this`isUpdatingFees, store
      ensures store.Valid()
      ensures selectedStudent.None? ==>
        outcome == NothingSelected && store.docs == old(store.docs)
        && isUpdatingFees == old(isUpdatingFees)
      ensures selectedStudent.Some? && accepted && selectedStudent.value.id in old(store.docs) ==>
        var id := selectedStudent.value.id;
        && outcome == Recorded
        && store.docs == old(store.docs)[id := WithPayment(old(store.docs)[id], selectedStudent.value, amount)]
        && store.docs.Keys == old(store.docs).Keys
        && store.docs[id].id == id
        && !isUpdatingFees
      ensures selectedStudent.Some? && !(accepted && selectedStudent.value.id in old(store.docs)) ==>
        outcome == Rejected && store.docs == old(store.docs)
        && isUpdatingFees == old(isUpdatingFees)
    {
      if selectedStudent.None? {
        return NothingSelected;
      }
      var s := selectedStudent.value;
      if accepted && s.id in store.docs {
        store.docs := store.docs[s.id := WithPayment(store.docs[s.id], s, amount)];
        isUpdatingFees := false;
        outcome := Recorded;
      } else {
        outcome := Rejected;
      }
    }
  }
}
