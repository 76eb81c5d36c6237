/** The fee-enrollment dialog of one student for one session. It holds the
    session's fee heads, the installment count and the opt-out map
    head -> installment -> enrolled, loaded from the student's enrollment
    records. The user flips single cells, and saving posts one map per head
    carrying every installment's value. */
module Enrollment {
  import opened Common
  import opened FeeModels

  /** `enrollments`: for each head that has at least one entry, its
      installments that carry an explicit value. */
  type EnrollMap = map<nat, map<int, bool>>

  /** The installment count used when the settings lookup fails. */
  const DefaultInstallmentCount := 4

  /** `isEnrolled`: a head or an installment without an entry is enrolled. */
  predicate Enrolled(m: EnrollMap, head: nat, inst: int)
  {
    if head !in m then true
    else if inst !in m[head] then true
    else m[head][inst]
  }

  /** `m[head][inst] = v`, creating the head's inner map first when it is
      missing. */
  function Put(m: EnrollMap, head: nat, inst: int, v: bool): (r: EnrollMap)
    ensures r.Keys == m.Keys + {head}
    ensures Enrolled(r, head, inst) == v
    ensures forall h: nat, i: int :: (h, i) != (head, inst) ==> Enrolled(r, h, i) == Enrolled(m, h, i)
  {
    var inner := if head in m then m[head] else map[];
    m[head := inner[inst := v]]
  }

  /** The map after `toggleEnrollment(head, inst)`. */
  function Toggled(m: EnrollMap, head: nat, inst: int): (r: EnrollMap)
    ensures Enrolled(r, head, inst) == !Enrolled(m, head, inst)
    ensures forall h: nat, i: int :: (h, i) != (head, inst) ==> Enrolled(r, h, i) == Enrolled(m, h, i)
  {
    Put(m, head, inst, !Enrolled(m, head, inst))
  }

  /** Toggling a cell twice gives back what every cell read before. The map
      itself may differ: the cell now has an explicit entry. */
  lemma ToggleTwice(m: EnrollMap, head: nat, inst: int, h: nat, i: int)
    ensures Enrolled(Toggled(Toggled(m, head, inst), head, inst), h, i) == Enrolled(m, h, i)
  {
  }

  // ---- Loading the map from the records -------------------------------------

  predicate RecordFor(e: StudentFeeEnrollment, head: nat, inst: int)
  {
    e.feeHead == head && e.installmentNumber == inst
  }

  /** The `forEach` over the fetched records, defined from the last record so
      that the loop extends it one record at a time. */
  function BuildMap(records: seq<StudentFeeEnrollment>): EnrollMap
  {
    if records == [] then map[]
    else
      var e := records[|records| - 1];
      Put(BuildMap(records[..|records| - 1]), e.feeHead, e.installmentNumber, e.isEnrolled)
  }

  /** The value of the last record for a cell, if there is one. */
  function LastFor(records: seq<StudentFeeEnrollment>, head: nat, inst: int): Option<bool>
  {
    if records == [] then None
    else
      var e := records[|records| - 1];
      if RecordFor(e, head, inst) then Some(e.isEnrolled)
      else LastFor(records[..|records| - 1], head, inst)
  }

  /** `LastFor` finds nothing exactly when no record is for the cell, and
      otherwise the value of a record for it after which none is. */
  lemma {:induction false} LastForSpec(records: seq<StudentFeeEnrollment>, head: nat, inst: int)
    ensures LastFor(records, head, inst).None? <==> forall n :: 0 <= n < |records| ==> !RecordFor(records[n], head, inst)
    ensures LastFor(records, head, inst).Some? ==>
              exists n :: 0 <= n < |records| && RecordFor(records[n], head, inst) &&
                          records[n].isEnrolled == LastFor(records, head, inst).value &&
                          forall m :: n < m < |records| ==> !RecordFor(records[m], head, inst)
    decreases |records|
  {
    if records != [] {
      var init := records[..|records| - 1];
      LastForSpec(init, head, inst);
      if !RecordFor(records[|records| - 1], head, inst) {
        if LastFor(init, head, inst).Some? {
          var n :| 0 <= n < |init| && RecordFor(init[n], head, inst) &&
                   init[n].isEnrolled == LastFor(init, head, inst).value &&
                   forall m :: n < m < |init| ==> !RecordFor(init[m], head, inst);
          assert records[n] == init[n];
          assert forall m :: n < m < |records| ==> !RecordFor(records[m], head, inst) by {
            forall m | n < m < |records| ensures !RecordFor(records[m], head, inst) {
              if m < |init| {
                assert records[m] == init[m];
              }
            }
          }
        } else {
          forall n | 0 <= n < |records| ensures !RecordFor(records[n], head, inst) {
            if n < |init| {
              assert records[n] == init[n];
            }
          }
        }
      }
    }
  }

  /** The last record for a cell wins; a cell without records reads as
      enrolled. */
  lemma {:induction false} BuildMapLastWins(records: seq<StudentFeeEnrollment>, head: nat, inst: int)
    ensures Enrolled(BuildMap(records), head, inst)
         == (match LastFor(records, head, inst) case None => true case Some(v) => v)
    decreases |records|
  {
    if records != [] {
      BuildMapLastWins(records[..|records| - 1], head, inst);
    }
  }

  /** For records that keep the table's uniqueness key and all belong to one
      student and session, the dialog reads every cell as the backend's
      opt-out reading of the table does. */
  lemma BuildMapMatchesTable(records: seq<StudentFeeEnrollment>, student: nat, session: string,
                             head: nat, inst: int)
    requires UniqueBy(records, EnrollmentKey)
    requires forall e :: e in records ==> e.student == student && e.session == session
    ensures Enrolled(BuildMap(records), head, inst) == EnrolledIn(records, student, head, session, inst)
  {
    BuildMapLastWins(records, head, inst);
    LastForSpec(records, head, inst);
    var key := (student, head, session, inst);
    var last := LastFor(records, head, inst);
    if last.Some? {
      var n :| 0 <= n < |records| && RecordFor(records[n], head, inst) && records[n].isEnrolled == last.value;
      assert records[n] in records;
      assert EnrollmentKey(records[n]) == key;
      FindByKeyUnique(records, EnrollmentKey, n);
    } else {
      forall n | 0 <= n < |records| ensures EnrollmentKey(records[n]) != key {
        assert !RecordFor(records[n], head, inst);
      }
    }
  }

  /** Runs the `forEach` that fills `enrollMap`. */
  method CollectRecords(records: seq<StudentFeeEnrollment>) returns (enrollMap: EnrollMap)
    ensures enrollMap == BuildMap(records)
  {
    enrollMap := map[];
    var k := 0;
    while k < |records|
      invariant 0 <= k <= |records|
      invariant enrollMap == BuildMap(records[..k])
    {
      var e := records[k];
      assert records[..k + 1][..k] == records[..k];
      if e.feeHead !in enrollMap {
        enrollMap := enrollMap[e.feeHead := map[]];
      }
      enrollMap := enrollMap[e.feeHead := enrollMap[e.feeHead][e.installmentNumber := e.isEnrolled]];
      k := k + 1;
    }
    assert records[..k] == records;
  }

  // ---- The save payload -------------------------------------------------------

  /** The installment numbers 1..count. */
  function InstallmentNumbers(count: int): (r: set<int>)
    ensures forall i :: i in r <==> 1 <= i <= count
  {
    if count < 1 then {} else InstallmentNumbers(count - 1) + {count}
  }

  /** `feeHeadEnrollments` for one head: exactly the installments 1..count,
      each with the value `isEnrolled` reads. */
  predicate PayloadFor(m: EnrollMap, head: nat, count: int, p: map<int, bool>)
  {
    p.Keys == InstallmentNumbers(count) && forall i :: i in p ==> p[i] == Enrolled(m, head, i)
  }

  /** The inner `for` loop of `handleSave`. */
  method InstallmentPayload(m: EnrollMap, head: nat, count: int) returns (p: map<int, bool>)
    ensures PayloadFor(m, head, count, p)
  {
    p := map[];
    var i := 1;
    while i <= count
      invariant 1 <= i <= if count < 1 then 1 else count + 1
      invariant p.Keys == InstallmentNumbers(i - 1)
      invariant forall j :: j in p ==> p[j] == Enrolled(m, head, j)
    {
      p := p[i := Enrolled(m, head, i)];
      i := i + 1;
    }
    assert forall x :: x in InstallmentNumbers(i - 1) <==> x in InstallmentNumbers(count);
  }

  /** The body of one `manage_enrollment` request. */
  datatype EnrollmentPost = EnrollmentPost(student: nat, feeHeadId: nat, session: string, enrollments: map<int, bool>)

  /** The number of requests sent when the request at index `failAt` (if
      any) is the first to fail. */
  function Attempts(heads: nat, failAt: Option<nat>): nat
  {
    if failAt.Some? && failAt.value < heads then failAt.value + 1 else heads
  }

  class EnrollmentModal {
    var feeHeads: seq<FeeHead>
    var enrollments: EnrollMap
    var installmentCount: int

    /** The component's initial state. */
    constructor ()
      ensures feeHeads == [] && enrollments == map[] && installmentCount == DefaultInstallmentCount
    {
      feeHeads := [];
      enrollments := map[];
      installmentCount := DefaultInstallmentCount;
    }

    /** `fetchData`, with the three responses as parameters (None: that
        request failed). A failed head request ends the fetch before the
        other two; a failed settings request falls back to 4; a failed
        enrollment request leaves the map as it was. */
    method FetchData(heads: Option<seq<FeeHead>>, settings: Option<int>,
                     records: Option<seq<StudentFeeEnrollment>>)
      modifies this
      ensures heads.None? ==> feeHeads == old(feeHeads) && installmentCount == old(installmentCount)
      ensures heads.Some? ==> feeHeads == heads.value
      ensures heads.Some? ==>
                installmentCount == (if settings.Some? then settings.value else DefaultInstallmentCount)
      ensures enrollments == (if heads.Some? && records.Some? then BuildMap(records.value) else old(enrollments))
    {
      if heads.None? {
        return;
      }
      feeHeads := heads.value;
      if settings.Some? {
        installmentCount := settings.value;
      } else {
        installmentCount := DefaultInstallmentCount;
      }
      if records.None? {
        return;
      }
      var enrollMap := CollectRecords(records.value);
      enrollments := enrollMap;
    }

    /** `toggleEnrollment`. */
    method Toggle(head: nat, inst: int)
      modifies this
      ensures enrollments == Toggled(old(enrollments), head, inst)
      ensures feeHeads == old(feeHeads) && installmentCount == old(installmentCount)
    {
      var newEnrollments := enrollments;
      if head !in newEnrollments {
        newEnrollments := newEnrollments[head := map[]];
      }
      var currentValue := Enrolled(enrollments, head, inst);
      newEnrollments := newEnrollments[head := newEnrollments[head][inst := !currentValue]];
      enrollments := newEnrollments;
    }

    /** `handleSave`: one request per head, in list order, each waited for
        before the next. `failAt` is the index of the first request that
        fails, if any; a failure stops the loop and shows the alert instead
        of calling `onSave` and `onClose`. */
    method Save(student: nat, session: string, hasOnSave: bool, failAt: Option<nat>)
      returns (sent: seq<EnrollmentPost>, onSaveCalled: bool, closed: bool)
      ensures |sent| == Attempts(|feeHeads|, failAt)
      ensures forall k :: 0 <= k < |sent| ==>
                sent[k].student == student && sent[k].feeHeadId == feeHeads[k].id && sent[k].session == session &&
                PayloadFor(enrollments, feeHeads[k].id, installmentCount, sent[k].enrollments)
      ensures closed <==> failAt.None? || failAt.value >= |feeHeads|
      ensures onSaveCalled <==> closed && hasOnSave
    {
      sent := [];
      var k := 0;
      while k < |feeHeads|
        invariant 0 <= k <= |feeHeads|
        invariant |sent| == k
        invariant failAt.Some? ==> k <= failAt.value
        invariant forall j :: 0 <= j < k ==>
                    sent[j].student == student && sent[j].feeHeadId == feeHeads[j].id && sent[j].session == session &&
                    PayloadFor(enrollments, feeHeads[j].id, installmentCount, sent[j].enrollments)
      {
        var feeHeadEnrollments := InstallmentPayload(enrollments, feeHeads[k].id, installmentCount);
        sent := sent + [EnrollmentPost(student, feeHeads[k].id, session, feeHeadEnrollments)];
        if failAt == Some(k) {
          return sent, false, false;
        }
        k := k + 1;
      }
      onSaveCalled := hasOnSave;
      closed := true;
    }
  }
}
