/** The family dashboard: the child shown for the signed-in parent, the
    outstanding balance and pay button, and the child's payment history.
    The dashboard reads the sample ledger. */
module FamilyDashboard {
  import opened Seqs
  import opened MockData
  import opened InstitutionFees

  /** `s.parentEmail === user.email`; a user without an email matches nobody. */
  predicate IsParentOf(s: Student, email: Option<string>)
  {
    email.Some? && s.parentEmail == email.value
  }

  /** The index of the first student from `k` on whose parent is signed in. */
  function FindFrom(students: seq<Student>, email: Option<string>, k: nat): (r: Option<nat>)
    requires k <= |students|
    ensures r.Some? ==> k <= r.value < |students| && IsParentOf(students[r.value], email)
    ensures r.Some? ==> forall j :: k <= j < r.value ==> !IsParentOf(students[j], email)
    ensures r.None? ==> forall j :: k <= j < |students| ==> !IsParentOf(students[j], email)
    decreases |students| - k
  {
    if k == |students| then None
    else if IsParentOf(students[k], email) then Some(k)
    else FindFrom(students, email, k + 1)
  }

  /** `students.find(s => s.parentEmail === user.email) || students[0]`;
      no child at all when the list is empty. */
  function ChildOf(students: seq<Student>, email: Option<string>): (r: Option<Student>)
    ensures r.None? <==> students == []
    ensures r.Some? ==> r.value in students
  {
    match FindFrom(students, email, 0)
    case Some(i) => Some(students[i])
    case None => if students == [] then None else Some(students[0])
  }

  /** The child shown is the first one whose parent email is the user's. */
  lemma ChildIsFirstMatch(students: seq<Student>, email: Option<string>, i: nat)
    requires i < |students| && IsParentOf(students[i], email)
    requires forall j :: 0 <= j < i ==> !IsParentOf(students[j], email)
    ensures ChildOf(students, email) == Some(students[i])
  {
    var r := FindFrom(students, email, 0);
    if r.Some? {
      assert !(r.value < i) && !(i < r.value);
    }
  }

  /** With no matching parent email the first student is shown. */
  lemma ChildFallsBackToFirst(students: seq<Student>, email: Option<string>)
    requires students != []
    requires forall j :: 0 <= j < |students| ==> !IsParentOf(students[j], email)
    ensures ChildOf(students, email) == Some(students[0])
  {
  }

  /** On the sample ledger, each parent sees their own child, and an unknown
      parent (or a user with no email) sees Emma Thompson. */
  lemma MockChildren(email: string)
    ensures ChildOf(MockStudents, Some("sarah.t@example.com")) == Some(MockStudents[0])
    ensures ChildOf(MockStudents, Some("david.w@example.com")) == Some(MockStudents[1])
    ensures ChildOf(MockStudents, Some("maria.g@example.com")) == Some(MockStudents[2])
    ensures email !in {"sarah.t@example.com", "david.w@example.com", "maria.g@example.com"} ==>
      ChildOf(MockStudents, Some(email)) == Some(MockStudents[0])
    ensures ChildOf(MockStudents, None) == Some(MockStudents[0])
  {
    ChildIsFirstMatch(MockStudents, Some("sarah.t@example.com"), 0);
    ChildIsFirstMatch(MockStudents, Some("david.w@example.com"), 1);
    ChildIsFirstMatch(MockStudents, Some("maria.g@example.com"), 2);
    if email !in {"sarah.t@example.com", "david.w@example.com", "maria.g@example.com"} {
      ChildFallsBackToFirst(MockStudents, Some(email));
    }
    ChildFallsBackToFirst(MockStudents, None);
  }

  /** The outstanding balance, unclamped. */
  function Remaining(s: Student): int
  {
    s.totalFees - s.paidAmount
  }

  /** The status badge of the child's profile card, shown with the same
      variants as the fees screen: "Pending" is the only status drawn as
      destructive, and for a student whose status agrees with its amounts the
      plain badge means nothing is left to pay. */
  lemma FamilyBadge(s: Student)
    ensures Badge(StatusName(s.status)) == Destructive <==> s.status == Pending
    ensures Badge(StatusName(s.status)) == Secondary <==> s.status == Balance
    ensures StatusAgrees(s) ==> (Badge(StatusName(s.status)) == Default <==> Remaining(s) <= 0)
  {
  }

  /** On the sample ledger Olivia Garcia, who has paid nothing, gets the
      destructive badge although her status agrees with her amounts. */
  lemma MockFamilyBadges()
    ensures StatusAgrees(MockStudents[2])
    ensures Badge(StatusName(MockStudents[2].status)) == Destructive
  {
    FamilyBadge(MockStudents[2]);
  }

  /** `isPaying || balance <= 0`. */
  predicate PayButtonDisabled(isPaying: bool, balance: int)
  {
    isPaying || balance <= 0
  }

  /** For a student whose status agrees with its amounts, the pay button is
      enabled exactly when no payment is in progress and the status is not "Paid". */
  lemma PayButtonEnabledIffOwing(s: Student, isPaying: bool)
    requires StatusAgrees(s)
    ensures !PayButtonDisabled(isPaying, Remaining(s)) <==> !isPaying && s.status != Paid
  {
  }

  /** The history lists exactly the payments recorded against the child, in
      ledger order and as often as they are recorded. */
  lemma HistoryIsTheChildsPayments(payments: seq<PaymentRecord>, child: Student, p: PaymentRecord)
    ensures p in PaymentsOf(payments, child.id) <==> p in payments && p.studentId == child.id
    ensures IsSubsequence(PaymentsOf(payments, child.id), payments)
    ensures multiset(PaymentsOf(payments, child.id))[p] ==
      if p.studentId == child.id then multiset(payments)[p] else 0
  {
    var isFor := (q: PaymentRecord) => q.studentId == child.id;
    assert PaymentsOf(payments, child.id) == Filter(isFor, payments);
    FilterIsSubsequence(isFor, payments);
    FilterMultiplicity(isFor, payments, p);
  }

  /** "No payment records found." is shown exactly when no payment names the child. */
  lemma EmptyHistoryIff(payments: seq<PaymentRecord>, child: Student)
    ensures PaymentsOf(payments, child.id) == [] <==>
      forall i :: 0 <= i < |payments| ==> payments[i].studentId != child.id
  {
    if PaymentsOf(payments, child.id) != [] {
      assert PaymentsOf(payments, child.id)[0] in payments;
    }
  }

  /** On the sample ledger the history adds up to the amount paid, and only
      Olivia Garcia, who has paid nothing, sees the empty-history message. */
  lemma MockHistories()
    ensures forall i :: 0 <= i < |MockStudents| ==>
      SumAmounts(PaymentsOf(MockPayments, MockStudents[i].id)) == MockStudents[i].paidAmount
    ensures PaymentsOf(MockPayments, MockStudents[0].id) != []
    ensures PaymentsOf(MockPayments, MockStudents[1].id) != []
    ensures PaymentsOf(MockPayments, MockStudents[2].id) == []
  {
    MockPaidMatchesPayments();
    MockPaymentsOf();
  }
}
