/** The institution's student directory screen: the search box, registration
    of a new student and deletion of a student record. */
module InstitutionStudents {
  import opened Seqs
  import opened MockData
  import opened StudentRecords
  import opened Emitter

  /** The search term occurs, ignoring case, in the name or the admission number. */
  predicate Matches(s: StudentDoc, term: string)
  {
    Contains(Lower(s.name), Lower(term)) || Contains(Lower(s.admissionNumber), Lower(term))
  }

  /** The students the directory lists for a search term; nothing while the
      collection has not arrived. */
  function FilteredStudents(students: Option<seq<StudentDoc>>, term: string): (r: seq<StudentDoc>)
    ensures students.None? ==> r == []
    ensures students.Some? ==> |r| <= |students.value|
    ensures students.Some? ==>
      forall i :: 0 <= i < |r| ==> r[i] in students.value && Matches(r[i], term)
    ensures students.Some? ==>
      forall i :: 0 <= i < |students.value| && Matches(students.value[i], term) ==> students.value[i] in r
  {
    match students
    case None => []
    case Some(ss) => Filter(s => Matches(s, term), ss)
  }

  /** Matching is substring search on the lower-cased texts. */
  lemma MatchesIffOccurs(s: StudentDoc, term: string)
    ensures Matches(s, term) <==>
      (exists i :: OccursAt(Lower(term), Lower(s.name), i))
      || (exists i :: OccursAt(Lower(term), Lower(s.admissionNumber), i))
  {
    ContainsIff(Lower(s.name), Lower(term));
    ContainsIff(Lower(s.admissionNumber), Lower(term));
  }

  /** The result lists the matching students in the collection's order:
      it is a subsequence of the input, and searching a concatenation is
      concatenating the searches. */
  lemma SearchKeepsOrder(a: seq<StudentDoc>, b: seq<StudentDoc>, term: string)
    ensures IsSubsequence(FilteredStudents(Some(a), term), a)
    ensures FilteredStudents(Some(a + b), term)
      == FilteredStudents(Some(a), term) + FilteredStudents(Some(b), term)
  {
    FilterIsSubsequence(s => Matches(s, term), a);
    FilterConcat(s => Matches(s, term), a, b);
  }

  /** An empty search box lists every student. */
  lemma EmptyTermKeepsAll(students: seq<StudentDoc>)
    ensures FilteredStudents(Some(students), "") == students
  {
    assert Lower("") == "";
    forall i | 0 <= i < |students|
      ensures Matches(students[i], "")
    {
      EmptyIsContained(Lower(students[i].name));
    }
    FilterKeepsAll(s => Matches(s, ""), students);
  }

  /** Typing the term in upper or lower case gives the same list. */
  lemma SearchIgnoresTermCase(students: seq<StudentDoc>, term: string)
    ensures FilteredStudents(Some(students), Lower(term)) == FilteredStudents(Some(students), term)
  {
    LowerIdempotent(term);
    FilterCongruent(s => Matches(s, Lower(term)), s => Matches(s, term), students);
  }

  /** The registration form. The deposit field is optional; an empty field is `None`. */
  datatype StudentForm = StudentForm(
    name: string,
    admissionNumber: string,
    grade: string,
    parentName: string,
    parentEmail: string,
    totalFees: int,
    deposit: Option<int>)

  /** `Number(deposit || 0)`: the deposit, or 0 when the field was left empty. */
  function DepositOrZero(form: StudentForm): (paid: int)
    ensures form.deposit.None? ==> paid == 0
    ensures form.deposit.Some? ==> paid == form.deposit.value
  {
    match form.deposit
    case None => 0
    case Some(v) => v
  }

  /** The document registration writes for a new student. */
  function NewStudentDoc(form: StudentForm, id: string, createdAt: string): (d: StudentDoc)
    ensures d.id == id && d.createdAt == createdAt
    ensures d.name == form.name && d.admissionNumber == form.admissionNumber && d.grade == form.grade
    ensures d.parentName == form.parentName && d.parentEmail == form.parentEmail
    ensures d.totalFees == Num(form.totalFees)
    ensures d.paidAmount == Num(DepositOrZero(form))
    ensures d.status == "Paid" <==> DepositOrZero(form) >= form.totalFees
    ensures d.status == "Balance" <==> DepositOrZero(form) < form.totalFees
    ensures d.status != "Pending"
    ensures Consistent(d)
  {
    var paid := DepositOrZero(form);
    StudentDoc(id, form.name, form.admissionNumber, form.grade, form.parentName,
               form.parentEmail, Num(form.totalFees), Num(paid),
               StatusName(StatusFor(paid, Num(form.totalFees))), createdAt)
  }

  /** The event on which rejected writes are reported. */
  const PermissionErrorEvent := "permission-error"

  /** The screen's own state: whether the registration dialog is open and
      whether a registration is being submitted. */
  class StudentsScreen {
    var isAddingStudent: bool
    var isSubmitting: bool

    constructor ()
      ensures !isAddingStudent && !isSubmitting
    {
      isAddingStudent, isSubmitting := false, false;
    }

    /** Registers a student. The store assigns the fresh id `newId` and either
        accepts the new document (`accepted`) or rejects it, in which case the
        rejection is reported on the error channel. Submission ends either way. */
    method AddStudent<L(==)>(store: StudentCollection, errors: SimpleEmitter<L, PermissionError>,
                             form: StudentForm, newId: string, createdAt: string, accepted: bool)
      returns (notified: seq<Call<L, PermissionError>>)
      requires store.Valid() && newId !in store.docs
      modifies this, store
      ensures store.Valid()
      ensures !isSubmitting
      ensures accepted ==>
        && store.docs == old(store.docs)[newId := NewStudentDoc(form, newId, createdAt)]
        && |store.docs| == |old(store.docs)| + 1
        && store.docs[newId].id == newId
        && !isAddingStudent
        && notified == []
      ensures !accepted ==>
        && store.docs == old(store.docs)
        && isAddingStudent == old(isAddingStudent)
        && notified == CallsOf(errors.Registered(PermissionErrorEvent),
             PermissionError("students", "create", Some(NewStudentDoc(form, newId, createdAt))))
    {
      isSubmitting := true;
      var newStudent := NewStudentDoc(form, newId, createdAt);
      notified := [];
      if accepted {
        store.docs := store.docs[newId := newStudent];
        isAddingStudent := false;
      } else {
        notified := errors.Emit(PermissionErrorEvent, PermissionError("students", "create", Some(newStudent)));
      }
      isSubmitting := false;
    }
  }

  /** Deletes a student record after the user confirms. A rejected delete is
      reported on the error channel and leaves the collection as it was. */
  method DeleteStudent<L(==)>(store: StudentCollection, errors: SimpleEmitter<L, PermissionError>,
                              studentId: string, confirmed: bool, accepted: bool)
    returns (notified: seq<Call<L, PermissionError>>)
    requires store.Valid()
    modifies store
    ensures store.Valid()
    ensures !confirmed ==> store.docs == old(store.docs) && notified == []
    ensures confirmed && accepted ==> store.docs == old(store.docs) - {studentId} && notified == []
    ensures confirmed && accepted ==> forall id :: id in store.docs ==> store.docs[id].id != studentId
    ensures confirmed && !accepted ==>
      && store.docs == old(store.docs)
      && notified == CallsOf(errors.Registered(PermissionErrorEvent),
           PermissionError("students/" + studentId, "delete", None))
  {
    notified := [];
    if !confirmed {
      return;
    }
    if accepted {
      store.docs := store.docs - {studentId};
    } else {
      notified := errors.Emit(PermissionErrorEvent, PermissionError("students/" + studentId, "delete", None));
    }
  }
}
