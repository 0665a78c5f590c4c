# ScholarlyPay fee ledger, modelled in Dafny

ScholarlyPay is a school-fees web application with two portals: one for the
institution and one for families. Persistence, sign-in, the payment gateway and
text drafting are all external services. This project models the small fee-ledger
core that the screens contain, together with the error emitter, and proves
properties of that model.

- **Status derivation and payment recording** (`StudentRecords`, `InstitutionFees`).
  A student document stores `totalFees`, `paidAmount` and a `status`.
  - When staff record a payment, the new paid amount is the old one plus the
    entered amount. An absent or invalid old amount counts as 0.
  - The new status is "Paid" when that amount reaches the fees, and "Balance"
    otherwise. It is never "Pending".
  - Only these two fields are written. Registration derives the status the same way.
  - Stored fields are untyped, so `Num` models what `Number(field)` yields:
    a number or NaN.
- **Directory search** (`InstitutionStudents`). Students are kept when the
  lower-cased term is a substring of the lower-cased name or admission number.
  The filter keeps the collection's order. Both institution screens use the same search.
- **Registration and deletion** (`InstitutionStudents`). Registration writes one new
  document. Deletion happens only after confirmation. A rejected write is reported
  on the `"permission-error"` channel of the emitter.
- **Institution dashboard** (`InstitutionDashboard`).
  - Totals: collected, outstanding and count. Collected plus outstanding is the
    fees billed.
  - The first five students, and the first five students with a positive balance.
  - The "all accounts up to date" message, and the number of avatar bubbles.
- **Family dashboard** (`FamilyDashboard`). It shows the first child whose parent
  email is the user's, or else the first student. It also shows the balance,
  the pay-button guard and the child's payment history.
- **Gateway trigger** (`PaystackTrigger`). It builds the session descriptor:
  the amount in minor units and the fixed currency "KES". It also covers the click
  guard, the disabled flag and the label.
- **Sample ledger** (`MockData`). The record types, and lemmas that the sample
  students and payments agree with each other.
- **Error emitter** (`Emitter`). A class with a map from event name to listener list,
  and `On`, `Off` and `Emit`. `Emit` changes nothing and returns the calls it makes,
  in order.

Money is an unbounded `int` of whole shillings. The store, the signed-in user,
the clock and the gateway widget are parameters: the collection snapshot, the
user's email, the fresh document id and timestamp, the session reference, and
whether the store accepts a write.

Two facts about the modelled screens that the model makes explicit:
- None of the screens modelled here records a payment or marks a student paid
  when the gateway reports success. `PaystackTrigger` only passes its `onSuccess`
  callback to the gateway, and the family dashboard's pay button only runs a
  timer, so no settlement flow is modelled.
- Registration writes "Balance" or "Paid", never "Pending" (`NewStudentDoc`).
  In the modelled code, "Pending" is written only in the sample data, where the
  family dashboard shows it with the destructive badge (`FamilyBadge`).

The model also records two behaviours of the code as written:
- The payment dialog computes the new amount from the snapshot taken when it
  was opened, not from the stored document. `FeesScreen.UpdatePayment`'s
  postcondition shows this: a concurrent change to the stored `paidAmount` is
  overwritten.
- The dashboard totals count a missing `paidAmount` as 0, but the alert filter
  compares with NaN. Such a student adds to the outstanding total yet raises no
  alert (`MissingPaidAmountRaisesNoAlert`).

## Model

| member | source | states |
|---|---|---|
| `MockData.PaymentsOf` | src/app/family/dashboard/page.tsx:179 | every listed payment is one of the ledger's and names the student; every ledger payment naming the student is listed |
| `MockData.MockIdsUnique` | src/app/lib/mock-data.ts:25-89 | student ids and payment ids of the sample ledger are unique |
| `MockData.MockPaymentsNameStudents` | src/app/lib/mock-data.ts:64-89 | every sample payment's studentId names a sample student |
| `MockData.MockPaymentsOf` | src/app/lib/mock-data.ts:64-89 | s1's payments are p1 and p2, s2's is p3, s3 has none |
| `MockData.MockPaidMatchesPayments` | src/app/lib/mock-data.ts:25-89 | each sample student's paidAmount is the sum of its payments (800, 1200, 0) |
| `MockData.MockStatusesAgree` | src/app/lib/mock-data.ts:25-62 | no sample student is overpaid; status is "Paid" exactly when paidAmount >= totalFees, and "Pending" only with paidAmount 0 |
| `StudentRecords.StatusFor` | src/app/institution/fees/page.tsx:73 | the derived status is never "Pending" |
| `StudentRecords.PaidIffNothingDue` | src/app/institution/students/page.tsx:83 | with numeric fees, "Paid" iff totalFees − paid <= 0 and "Balance" iff it is > 0 (boundary paid == totalFees is "Paid") |
| `StudentRecords.StatusMonotone` | src/app/institution/fees/page.tsx:72-73 | a larger paid amount never turns "Paid" into "Balance" |
| `StudentRecords.PositiveBalanceIffNotPaid` | src/app/institution/dashboard/page.tsx:221 | for a document with numeric amounts and derived status, a positive displayed balance is exactly a status other than "Paid" |
| `Emitter.Without` | src/firebase/error-emitter.ts:20 | the filtered list holds no occurrence of the listener and keeps every other registered listener |
| `Emitter.WithoutKeepsOthers` | src/firebase/error-emitter.ts:20 | `off`'s filter keeps the others in order (a subsequence) and each as many times as registered |
| `Emitter.SimpleEmitter.constructor` | src/firebase/error-emitter.ts:9 | the registry starts empty |
| `Emitter.SimpleEmitter.On` | src/firebase/error-emitter.ts:11-16 | appends the listener at the end of the event's list, creating it when absent, without deduplication; other events unchanged |
| `Emitter.SimpleEmitter.Off` | src/firebase/error-emitter.ts:18-21 | unknown event: registry unchanged; otherwise the event's list loses every occurrence of the listener; other events unchanged |
| `Emitter.SimpleEmitter.Emit` | src/firebase/error-emitter.ts:23-26 | one call per registered listener, in registration order, all with the same arguments; none for an unknown event; the registry is not modified |
| `Emitter.DuplicateListenerCalledTwice` | src/firebase/error-emitter.ts:11-26 | a listener added twice is called twice by one emit |
| `Emitter.OffThenEmit` | src/firebase/error-emitter.ts:18-26 | after `off` the listener is no longer called while the others still are |
| `InstitutionStudents.FilteredStudents` | src/app/institution/students/page.tsx:60-66 | no students while the collection loads; otherwise every kept student matches and is in the input, and every matching student is kept |
| `InstitutionStudents.MatchesIffOccurs` | src/app/institution/students/page.tsx:62-65 | a student matches iff the lower-cased term occurs at some position in the lower-cased name or admission number |
| `InstitutionStudents.SearchKeepsOrder` | src/app/institution/fees/page.tsx:58-64 | the search result is a subsequence of the input, and searching a concatenation concatenates the results |
| `InstitutionStudents.EmptyTermKeepsAll` | src/app/institution/students/page.tsx:60-66 | an empty term keeps every student |
| `InstitutionStudents.SearchIgnoresTermCase` | src/app/institution/fees/page.tsx:60-63 | lower-casing the term does not change the result |
| `InstitutionStudents.NewStudentDoc` | src/app/institution/students/page.tsx:75-85 | form fields copied; paidAmount defaults to 0; status "Paid" iff paid >= totalFees else "Balance", never "Pending"; the document is consistent |
| `InstitutionStudents.StudentsScreen.constructor` | src/app/institution/students/page.tsx:49-50 | the dialog is closed and nothing is being submitted |
| `InstitutionStudents.StudentsScreen.AddStudent` | src/app/institution/students/page.tsx:68-108 | accepted: exactly one new document, filed under the id it carries, the existing ones unchanged, dialog closed; rejected: collection unchanged and a create error emitted on "permission-error"; submission ends either way |
| `InstitutionStudents.DeleteStudent` | src/app/institution/students/page.tsx:110-128 | without confirmation nothing changes; confirmed and accepted removes that id only, leaving no document that carries it; rejected leaves the collection and emits a delete error |
| `InstitutionFees.NewStatus` | src/app/institution/fees/page.tsx:73 | the written status is never "Pending" |
| `InstitutionFees.WithPayment` | src/app/institution/fees/page.tsx:76-79 | only paidAmount and status differ from the stored document; they get the new amount and its status |
| `InstitutionFees.NewStatusPaidIff` | src/app/institution/fees/page.tsx:73 | "Paid" iff the fees are a number and the new paid amount reaches them, else "Balance" |
| `InstitutionFees.RecordingKeepsPaid` | src/app/institution/fees/page.tsx:72-73 | recording a non-negative amount for a paid-up student keeps "Paid" |
| `InstitutionFees.RecordingTheBalanceSettles` | src/app/institution/fees/page.tsx:71-73 | recording exactly the displayed balance brings paidAmount to totalFees and the status to "Paid" |
| `InstitutionFees.RecordingKeepsConsistent` | src/app/institution/fees/page.tsx:76-79 | a write from an up-to-date snapshot with numeric fees leaves a consistent document |
| `InstitutionFees.BalanceColumn` | src/app/institution/fees/page.tsx:224 | the balance column is totalFees − paidAmount, negative when overpaid, NaN when a field is not a number |
| `InstitutionFees.BadgeOfConsistent` | src/app/institution/fees/page.tsx:227 | a consistent document's badge is never destructive, and is default iff nothing is left to pay |
| `InstitutionFees.FeesScreen.constructor` | src/app/institution/fees/page.tsx:45-49 | no student selected and the payment dialog closed |
| `InstitutionFees.FeesScreen.ChangePaymentDialog` | src/app/institution/fees/page.tsx:266 | opening selects the row's student and opens its dialog; closing only clears the flag |
| `InstitutionFees.FeesScreen.UpdatePayment` | src/app/institution/fees/page.tsx:66-92 | no selection: nothing written; accepted: the selected document alone gets the two-field update, still under its own id, and the dialog closes; rejected: nothing written, dialog state kept |
| `InstitutionDashboard.CollectedPlusOutstanding` | src/app/institution/dashboard/page.tsx:44-45 | Σ paid + Σ (fees − paid) = Σ fees, absent/invalid amounts as 0 |
| `InstitutionDashboard.CollectedConcat` | src/app/institution/dashboard/page.tsx:44 | the collected fold over a concatenation is the sum of the folds |
| `InstitutionDashboard.ComputeStats` | src/app/institution/dashboard/page.tsx:42-51 | all zero without a collection; otherwise count = number of students, collected = Σ paid, collected + outstanding = Σ fees |
| `InstitutionDashboard.Recent` | src/app/institution/dashboard/page.tsx:195 | a prefix of the collection of length min(count, 5) |
| `InstitutionDashboard.AvatarsMatchRecent` | src/app/institution/dashboard/page.tsx:177 | the avatar count min(count, 5) equals the number of recent admissions shown |
| `InstitutionDashboard.Alerts` | src/app/institution/dashboard/page.tsx:221 | the first min(5, number owing) students with a positive balance, in collection order: a prefix of the owing students, each one of the collection |
| `InstitutionDashboard.AlertsComplete` | src/app/institution/dashboard/page.tsx:221 | alerts keep collection order, and list every student owing money when at most five do |
| `InstitutionDashboard.UpToDateIffNoAlerts` | src/app/institution/dashboard/page.tsx:230 | the message is shown iff the alert list is empty iff no student has a positive balance |
| `InstitutionDashboard.UpToDateIffAllPaid` | src/app/institution/dashboard/page.tsx:221-231 | with consistent documents, up to date iff every status is "Paid" |
| `InstitutionDashboard.UpToDateMeansNothingOutstanding` | src/app/institution/dashboard/page.tsx:44-45 | with numeric amounts, an up-to-date dashboard shows no positive outstanding total |
| `InstitutionDashboard.NoneDueMeansNothingOutstanding` | src/app/institution/dashboard/page.tsx:45 | when nobody has a positive balance the outstanding fold is <= 0 |
| `InstitutionDashboard.MissingPaidAmountRaisesNoAlert` | src/app/institution/dashboard/page.tsx:221-231 | a student with fees 1000 and no paidAmount counts 1000 outstanding yet the dashboard reports all accounts up to date |
| `FamilyDashboard.FindFrom` | src/app/family/dashboard/page.tsx:34 | the index found is the first from k whose parent email is the user's; none found means no match |
| `FamilyDashboard.ChildOf` | src/app/family/dashboard/page.tsx:34 | a child is shown iff the list is non-empty, and it is one of the students |
| `FamilyDashboard.ChildIsFirstMatch` | src/app/family/dashboard/page.tsx:34 | the shown child is the first student whose parentEmail equals the user's email |
| `FamilyDashboard.ChildFallsBackToFirst` | src/app/family/dashboard/page.tsx:34 | with no matching email the first student is shown |
| `FamilyDashboard.MockChildren` | src/app/family/dashboard/page.tsx:34 | on the sample ledger Sarah, David and Maria each see their own child; an unknown or missing email sees the first student |
| `FamilyDashboard.FamilyBadge` | src/app/family/dashboard/page.tsx:148 | the profile badge is destructive iff the status is "Pending", muted iff "Balance", and for an agreeing status plain iff nothing is left to pay |
| `FamilyDashboard.MockFamilyBadges` | src/app/family/dashboard/page.tsx:148 | Olivia Garcia's agreeing "Pending" status is shown with the destructive badge |
| `FamilyDashboard.PayButtonEnabledIffOwing` | src/app/family/dashboard/page.tsx:123 | with balance = totalFees − paidAmount and an agreeing status, the button is enabled iff not paying and status is not "Paid" |
| `FamilyDashboard.HistoryIsTheChildsPayments` | src/app/family/dashboard/page.tsx:179 | the history holds exactly the payments whose studentId is the child's, in ledger order, with their multiplicity |
| `FamilyDashboard.EmptyHistoryIff` | src/app/family/dashboard/page.tsx:195 | the empty-history message is shown iff no payment names the child |
| `FamilyDashboard.MockHistories` | src/app/family/dashboard/page.tsx:179-199 | on the sample ledger each history sums to the paid amount, and only s3's is empty |
| `PaystackTrigger.ConfigIgnoresBalance` | src/components/PaystackTrigger.tsx:25-31 | the session does not depend on the balance or processing props |
| `PaystackTrigger.EnabledButtonOpensCheckout` | src/components/PaystackTrigger.tsx:38-44 | clicking an enabled button opens checkout; the button is disabled exactly when a payment is in progress or a click would not open checkout |
| `PaystackTrigger.LabelShowsState` | src/components/PaystackTrigger.tsx:44-50 | "Syncing..." iff processing; "Account Fully Settled" iff idle with balance <= 0; "Settle Balance Securely" iff the button is enabled |

## Left out

- Store, authentication and routing calls (`addDoc`, `updateDoc`, `deleteDoc`, `signOut`, live subscriptions, the `orderBy` sorting, toasts, redirects, loading screens). They are external services. Collections are given as a map or as a sequence in any order, and the store's verdict on a write is the `accepted` parameter.
- The `!db` guards (fees/page.tsx:68, students/page.tsx:70 and 111). The store is assumed to be available.
- JavaScript floating point. Amounts are whole shillings. Fractional amounts, `Infinity` and `toLocaleString` formatting are not modelled. A NaN entered in the payment dialog is excluded, because the input is a required number field.
- `toLowerCase` is modelled for ASCII letters only. Unicode case mapping is not.
- The family dashboard's `handlePayFees` is a timer stub with a fixed message, so it is not modelled. The page's `useEffect` state updates are not modelled either.
- PaystackTrigger: the clock-based reference, the `usePaystackPayment` hook and the `onSuccess`/`onClose` callbacks are outside the model. A click is modelled as whether checkout is opened.
- The AI explanation and reminder flows, and the `outstandingBalance` sent to them (fees/page.tsx:100). That value is the same `Number(totalFees) - Number(paidAmount)` as `BalanceColumn`.
- The fees screen's Cancel button (fees/page.tsx:283) and the AI Explain button's selection (fees/page.tsx:234). Cancel has the effect of `ChangePaymentDialog(false, …)`. The selection sets `selectedStudent` the way opening the payment dialog does.
- `StudentsScreen.AddStudent`: `isSubmitting` is true only while the write is pending. The model states only its final value, false. The error payload carries the id the store would have assigned.
- Emitter: listeners are not run. Re-entrant `on`/`off` calls made by a listener during `emit` are not modelled. Event names are assumed not to collide with properties of JavaScript's `Object.prototype`. Listener arguments are a single value.
- Sign-in and sign-up pages, the LLM flows, the `useMemoFirebase` wrapper and the landing page are not part of this model.
