/** The institution dashboard: totals over the student collection, the
    recent-admissions list and the payment alerts. The collection arrives in
    whatever order the store delivers it, or not at all while it loads. */
module InstitutionDashboard {
  import opened Seqs
  import opened MockData
  import opened StudentRecords

  datatype Stats = Stats(totalCollected: int, totalOutstanding: int, count: nat)

  /** The left fold `reduce((acc, s) => acc + (Number(s.paidAmount) || 0), 0)`. */
  function Collected(students: seq<StudentDoc>): int
  {
    if students == [] then 0
    else Collected(students[..|students| - 1]) + OrZero(students[|students| - 1].paidAmount)
  }

  /** The left fold of `(Number(s.totalFees) || 0) - (Number(s.paidAmount) || 0)`. */
  function Outstanding(students: seq<StudentDoc>): int
  {
    if students == [] then 0
    else
      var last := students[|students| - 1];
      Outstanding(students[..|students| - 1]) + (OrZero(last.totalFees) - OrZero(last.paidAmount))
  }

  /** The fees billed to all students, an absent or invalid amount counting as 0. */
  function FeesBilled(students: seq<StudentDoc>): int
  {
    if students == [] then 0
    else FeesBilled(students[..|students| - 1]) + OrZero(students[|students| - 1].totalFees)
  }

  /** What has been collected and what is outstanding add up to what was billed. */
  lemma {:induction false} CollectedPlusOutstanding(students: seq<StudentDoc>)
    ensures Collected(students) + Outstanding(students) == FeesBilled(students)
  {
    if students != [] {
      CollectedPlusOutstanding(students[..|students| - 1]);
    }
  }

  /** The collected total is the sum of the paid amounts in any order:
      folding a concatenation adds the folds. */
  lemma {:induction false} CollectedConcat(a: seq<StudentDoc>, b: seq<StudentDoc>)
    ensures Collected(a + b) == Collected(a) + Collected(b)
    decreases |b|
  {
    if b == [] {
      assert a + b == a;
    } else {
      assert (a + b)[..|a + b| - 1] == a + b[..|b| - 1];
      CollectedConcat(a, b[..|b| - 1]);
    }
  }

  /** The three figures on the dashboard cards; all 0 while the collection loads. */
  function ComputeStats(students: Option<seq<StudentDoc>>): (st: Stats)
    ensures students.None? ==> st == Stats(0, 0, 0)
    ensures students.Some? ==> st.count == |students.value|
    ensures students.Some? ==> st.totalCollected == Collected(students.value)
    ensures students.Some? ==> st.totalCollected + st.totalOutstanding == FeesBilled(students.value)
  {
    match students
    case None => Stats(0, 0, 0)
    case Some(ss) =>
      CollectedPlusOutstanding(ss);
      Stats(Collected(ss), Outstanding(ss), |ss|)
  }

  /** The number of avatar bubbles on the students card: `Math.min(count, 5)`. */
  function AvatarCount(st: Stats): nat
  {
    Min(st.count, 5)
  }

  /** Recent admissions: the first five students of the collection. */
  function Recent(students: Option<seq<StudentDoc>>): (r: seq<StudentDoc>)
    ensures students.None? ==> r == []
    ensures students.Some? ==> r <= students.value && |r| == Min(|students.value|, 5)
  {
    match students
    case None => []
    case Some(ss) => Take(ss, 5)
  }

  /** The avatar bubbles and the recent-admissions list show the same number of students. */
  lemma AvatarsMatchRecent(students: Option<seq<StudentDoc>>)
    ensures AvatarCount(ComputeStats(students)) == |Recent(students)|
  {
  }

  /** Payment alerts: the first five students, in collection order, whose
      displayed balance is positive (all of them when fewer owe). */
  function Alerts(students: Option<seq<StudentDoc>>): (r: seq<StudentDoc>)
    ensures |r| <= 5
    ensures forall i :: 0 <= i < |r| ==> HasPositiveBalance(r[i])
    ensures students.None? ==> r == []
    ensures students.Some? ==> forall i :: 0 <= i < |r| ==> r[i] in students.value
    ensures students.Some? ==> r <= Filter(HasPositiveBalance, students.value)
    ensures students.Some? ==> |r| == Min(|Filter(HasPositiveBalance, students.value)|, 5)
  {
    match students
    case None => []
    case Some(ss) => Take(Filter(HasPositiveBalance, ss), 5)
  }

  /** Every student owing money is alerted when at most five do; the alerts
      follow the collection's order. */
  lemma AlertsComplete(students: seq<StudentDoc>)
    ensures IsSubsequence(Alerts(Some(students)), students)
    ensures |Filter(HasPositiveBalance, students)| <= 5 ==>
      forall i :: 0 <= i < |students| && HasPositiveBalance(students[i]) ==>
        students[i] in Alerts(Some(students))
  {
    var due := Filter(HasPositiveBalance, students);
    FilterIsSubsequence(HasPositiveBalance, students);
    PrefixIsSubsequence(Alerts(Some(students)), due);
    SubsequenceTransitive(Alerts(Some(students)), due, students);
  }

  /** "All accounts are up to date!" is shown when the collection has not
      arrived or no student has a positive displayed balance. */
  predicate AllUpToDate(students: Option<seq<StudentDoc>>)
  {
    students.None? || |Filter(HasPositiveBalance, students.value)| == 0
  }

  /** The message appears exactly when the alert list is empty, that is when
      nobody owes money. */
  lemma UpToDateIffNoAlerts(students: Option<seq<StudentDoc>>)
    ensures AllUpToDate(students) <==> Alerts(students) == []
    ensures AllUpToDate(students) <==>
      students.None? || forall i :: 0 <= i < |students.value| ==> !HasPositiveBalance(students.value[i])
  {
    if students.Some? && !AllUpToDate(students) {
      var due := Filter(HasPositiveBalance, students.value);
      assert due[0] in students.value;
    }
  }

  /** When every document is consistent, the dashboard is up to date exactly
      when every student's status is "Paid". */
  lemma UpToDateIffAllPaid(students: seq<StudentDoc>)
    requires forall i :: 0 <= i < |students| ==> Consistent(students[i])
    ensures AllUpToDate(Some(students)) <==>
      forall i :: 0 <= i < |students| ==> students[i].status == "Paid"
  {
    UpToDateIffNoAlerts(Some(students));
    forall i | 0 <= i < |students|
      ensures HasPositiveBalance(students[i]) <==> students[i].status != "Paid"
    {
      PositiveBalanceIffNotPaid(students[i]);
    }
  }

  /** With every amount a number, an up-to-date dashboard has nothing outstanding. */
  lemma UpToDateMeansNothingOutstanding(students: seq<StudentDoc>)
    requires forall i :: 0 <= i < |students| ==> students[i].totalFees.Num? && students[i].paidAmount.Num?
    requires AllUpToDate(Some(students))
    ensures ComputeStats(Some(students)).totalOutstanding <= 0
  {
    UpToDateIffNoAlerts(Some(students));
    NoneDueMeansNothingOutstanding(students);
  }

  lemma {:induction false} NoneDueMeansNothingOutstanding(students: seq<StudentDoc>)
    requires forall i :: 0 <= i < |students| ==>
      students[i].totalFees.Num? && students[i].paidAmount.Num? && !HasPositiveBalance(students[i])
    ensures Outstanding(students) <= 0
  {
    if students != [] {
      NoneDueMeansNothingOutstanding(students[..|students| - 1]);
    }
  }

  /** The totals count a missing paid amount as 0, the alerts compare with NaN:
      a student whose paid amount is missing adds to the outstanding total yet
      raises no alert, and the dashboard still reports every account up to date. */
  lemma MissingPaidAmountRaisesNoAlert(d: StudentDoc)
    requires d.totalFees == Num(1000) && d.paidAmount == NaN
    ensures AllUpToDate(Some([d]))
    ensures ComputeStats(Some([d])).totalOutstanding == 1000
  {
    assert [d][..|[d]| - 1] == [];
    assert Outstanding([d]) == Outstanding([]) + (1000 - 0);
    UpToDateIffNoAlerts(Some([d]));
  }
}
