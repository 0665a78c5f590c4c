/** The ledger's record types and the sample ledger the family portal reads:
    three students and the payments recorded against them. Money is in whole
    Kenyan shillings (KES). */
module MockData {
  import opened Seqs

  datatype PaymentStatus = Paid | Pending | Balance

  /** The string each status is written as. */
  function StatusName(st: PaymentStatus): (name: string)
    ensures name == "Paid" <==> st == Paid
    ensures name == "Balance" <==> st == Balance
    ensures name == "Pending" <==> st == Pending
  {
    match st
    case Paid => "Paid"
    case Pending => "Pending"
    case Balance => "Balance"
  }

  datatype Option<T> = None | Some(value: T)

  datatype Student = Student(
    id: string,
    name: string,
    admissionNumber: string,
    grade: string,
    parentName: string,
    parentEmail: string,
    totalFees: int,
    paidAmount: int,
    status: PaymentStatus,
    background: Option<string>)

  datatype PaymentRecord = PaymentRecord(
    id: string,
    studentId: string,
    amount: int,
    date: string,
    reference: string,
    paymentMethod: string)

  const MockStudents: seq<Student> := [
    Student("s1", "Emma Thompson", "SCH-2024-001", "Primary 4", "Sarah Thompson",
            "sarah.t@example.com", 1200, 800, Balance,
            Some("Emma is a bright student with a passion for mathematics. She joined ScholarlyPay School in 2023.")),
    Student("s2", "James Wilson", "SCH-2024-002", "Primary 2", "David Wilson",
            "david.w@example.com", 1200, 1200, Paid,
            Some("James is very active in sports and recently won the inter-school swimming competition.")),
    Student("s3", "Olivia Garcia", "SCH-2024-003", "Primary 5", "Maria Garcia",
            "maria.g@example.com", 1500, 0, Pending,
            Some("Olivia is a transfer student from International Prep. She excels in creative arts."))
  ]

  const MockPayments: seq<PaymentRecord> := [
    PaymentRecord("p1", "s1", 500, "2024-01-15", "PAY-782345", "Paystack Card"),
    PaymentRecord("p2", "s1", 300, "2024-02-10", "PAY-782991", "Paystack Transfer"),
    PaymentRecord("p3", "s2", 1200, "2024-01-05", "PAY-781112", "Paystack Mobile Money")
  ]

  /** The payments recorded against one student, in ledger order. */
  function PaymentsOf(payments: seq<PaymentRecord>, studentId: string): (r: seq<PaymentRecord>)
    ensures forall i :: 0 <= i < |r| ==> r[i] in payments && r[i].studentId == studentId
    ensures forall i :: 0 <= i < |payments| && payments[i].studentId == studentId ==> payments[i] in r
  {
    Filter((p: PaymentRecord) => p.studentId == studentId, payments)
  }

  lemma PaymentsOfCons(payments: seq<PaymentRecord>, studentId: string)
    requires payments != []
    ensures PaymentsOf(payments, studentId)
      == (if payments[0].studentId == studentId then [payments[0]] else [])
         + PaymentsOf(payments[1..], studentId)
  {
  }

  function SumAmounts(payments: seq<PaymentRecord>): int
  {
    if payments == [] then 0 else payments[0].amount + SumAmounts(payments[1..])
  }

  predicate UniqueStudentIds(students: seq<Student>)
  {
    forall i, j :: 0 <= i < j < |students| ==> students[i].id != students[j].id
  }

  predicate UniquePaymentIds(payments: seq<PaymentRecord>)
  {
    forall i, j :: 0 <= i < j < |payments| ==> payments[i].id != payments[j].id
  }

  predicate PaymentsNameStudents(students: seq<Student>, payments: seq<PaymentRecord>)
  {
    forall i :: 0 <= i < |payments| ==> payments[i].studentId in StudentIds(students)
  }

  function StudentIds(students: seq<Student>): set<string>
  {
    set j | 0 <= j < |students| :: students[j].id
  }

  /** Each student's paid amount is the sum of the payments recorded against it. */
  predicate PaidMatchesPayments(students: seq<Student>, payments: seq<PaymentRecord>)
  {
    forall i :: 0 <= i < |students| ==> students[i].paidAmount == SumAmounts(PaymentsOf(payments, students[i].id))
  }

  /** No student has paid more than its fees. */
  predicate NotOverpaid(students: seq<Student>)
  {
    forall i :: 0 <= i < |students| ==> students[i].paidAmount <= students[i].totalFees
  }

  /** The stored status says "Paid" exactly when the fees are covered, and
      "Pending" only for a student who has paid nothing. */
  predicate StatusAgrees(s: Student)
  {
    && (s.status == Paid <==> s.paidAmount >= s.totalFees)
    && (s.status == Pending ==> s.paidAmount == 0)
  }

  predicate StatusesAgree(students: seq<Student>)
  {
    forall i :: 0 <= i < |students| ==> StatusAgrees(students[i])
  }

  /** Student ids and payment ids in the sample ledger are unique. */
  lemma MockIdsUnique()
    ensures UniqueStudentIds(MockStudents)
    ensures UniquePaymentIds(MockPayments)
  {
  }

  /** Every sample payment is recorded against a sample student. */
  lemma MockPaymentsNameStudents()
    ensures PaymentsNameStudents(MockStudents, MockPayments)
  {
    assert MockStudents[0].id in StudentIds(MockStudents);
    assert MockStudents[1].id in StudentIds(MockStudents);
  }

  /** `PaymentsOf` on a three-payment ledger, one payment at a time. */
  lemma PaymentsOfThree(a: PaymentRecord, b: PaymentRecord, c: PaymentRecord, studentId: string)
    ensures PaymentsOf([a, b, c], studentId)
      == (if a.studentId == studentId then [a] else [])
         + (if b.studentId == studentId then [b] else [])
         + (if c.studentId == studentId then [c] else [])
  {
    assert [a, b, c][1..] == [b, c] && [b, c][1..] == [c] && [c][1..] == [];
    var keep := (p: PaymentRecord) => if p.studentId == studentId then [p] else [];
    PaymentsOfCons([c], studentId);
    assert PaymentsOf([c], studentId) == keep(c);
    PaymentsOfCons([b, c], studentId);
    assert PaymentsOf([b, c], studentId) == keep(b) + keep(c);
    PaymentsOfCons([a, b, c], studentId);
    assert PaymentsOf([a, b, c], studentId) == keep(a) + (keep(b) + keep(c));
  }

  lemma SumAmountsTwo(a: PaymentRecord, b: PaymentRecord)
    ensures SumAmounts([a, b]) == a.amount + b.amount
  {
    assert [a, b][1..] == [b] && [b][1..] == [];
    assert SumAmounts([b]) == b.amount + SumAmounts([]);
  }

  /** The sample ledger's three payments, by the student each names. */
  lemma MockPaymentFields()
    ensures MockPayments == [MockPayments[0], MockPayments[1], MockPayments[2]]
    ensures MockPayments[0].studentId == "s1" && MockPayments[0].amount == 500
    ensures MockPayments[1].studentId == "s1" && MockPayments[1].amount == 300
    ensures MockPayments[2].studentId == "s2" && MockPayments[2].amount == 1200
  {
  }

  /** The sample payments of each sample student. */
  lemma MockPaymentsOf()
    ensures PaymentsOf(MockPayments, "s1") == [MockPayments[0], MockPayments[1]]
    ensures PaymentsOf(MockPayments, "s2") == [MockPayments[2]]
    ensures PaymentsOf(MockPayments, "s3") == []
  {
    MockPaymentFields();
    assert "s1"[1] != "s2"[1] && "s1"[1] != "s3"[1] && "s2"[1] != "s3"[1];
    PaymentsOfThree(MockPayments[0], MockPayments[1], MockPayments[2], "s1");
    PaymentsOfThree(MockPayments[0], MockPayments[1], MockPayments[2], "s2");
    PaymentsOfThree(MockPayments[0], MockPayments[1], MockPayments[2], "s3");
  }

  /** `PaidMatchesPayments` on a three-student list, one student at a time. */
  lemma PaidMatchesThree(a: Student, b: Student, c: Student, payments: seq<PaymentRecord>)
    requires a.paidAmount == SumAmounts(PaymentsOf(payments, a.id))
    requires b.paidAmount == SumAmounts(PaymentsOf(payments, b.id))
    requires c.paidAmount == SumAmounts(PaymentsOf(payments, c.id))
    ensures PaidMatchesPayments([a, b, c], payments)
  {
  }

  /** The sample ledger's three students, by field. */
  lemma MockStudentFields()
    ensures MockStudents == [MockStudents[0], MockStudents[1], MockStudents[2]]
    ensures MockStudents[0].id == "s1" && MockStudents[0].paidAmount == 800
    ensures MockStudents[1].id == "s2" && MockStudents[1].paidAmount == 1200
    ensures MockStudents[2].id == "s3" && MockStudents[2].paidAmount == 0
  {
  }

  /** The amounts a three-payment ledger records against each of three
      students, when the first two payments are the first student's and the
      third is the second's. */
  lemma LedgerSums(a: PaymentRecord, b: PaymentRecord, c: PaymentRecord, x: string, y: string, z: string)
    requires a.studentId == x && b.studentId == x && c.studentId == y
    requires x != y && x != z && y != z
    ensures SumAmounts(PaymentsOf([a, b, c], x)) == a.amount + b.amount
    ensures SumAmounts(PaymentsOf([a, b, c], y)) == c.amount
    ensures SumAmounts(PaymentsOf([a, b, c], z)) == 0
  {
    PaymentsOfThree(a, b, c, x);
    PaymentsOfThree(a, b, c, y);
    PaymentsOfThree(a, b, c, z);
    SumAmountsTwo(a, b);
    assert SumAmounts([c]) == c.amount + SumAmounts([c][1..]);
    assert [c][1..] == [];
  }

  /** The sums of the sample payments per student. */
  lemma MockSums()
    ensures SumAmounts(PaymentsOf(MockPayments, "s1")) == 800
    ensures SumAmounts(PaymentsOf(MockPayments, "s2")) == 1200
    ensures SumAmounts(PaymentsOf(MockPayments, "s3")) == 0
  {
    MockPaymentFields();
    assert "s1"[1] != "s2"[1] && "s1"[1] != "s3"[1] && "s2"[1] != "s3"[1];
    LedgerSums(MockPayments[0], MockPayments[1], MockPayments[2], "s1", "s2", "s3");
  }

  /** s1 has paid 500 + 300 = 800, s2 has paid 1200, s3 has paid nothing. */
  lemma MockPaidMatchesPayments()
    ensures PaidMatchesPayments(MockStudents, MockPayments)
  {
    MockStudentFields();
    MockSums();
    PaidMatchesThree(MockStudents[0], MockStudents[1], MockStudents[2], MockPayments);
  }

  /** The sample statuses agree with the amounts, and nobody is overpaid. */
  lemma MockStatusesAgree()
    ensures NotOverpaid(MockStudents)
    ensures StatusesAgree(MockStudents)
  {
  }
}
