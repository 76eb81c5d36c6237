/** The fee tables, their `unique_together` keys and what deleting a row does
    to the rows that refer to it. Amounts are whole paise; dates are ordinal
    day numbers whose order is the calendar order. */
module FeeModels {
  import opened Common
  import opened Students

  type Money = int
  type Date = int

  datatype Frequency = Once | Installments
  datatype PaymentMode = Cash | Online

  datatype FeeHead = FeeHead(
    id: nat, name: string, description: string, session: string,
    frequency: Frequency, installmentCount: int, dueDay: int, dueMonths: string,
    lateFeeAmount: Money, gracePeriodDays: int, isTransportFee: bool)

  datatype FeeStructure = FeeStructure(
    id: nat, studentClass: string, feeHead: nat, amount: Money, frequency: Frequency)

  /** The amount a fee head charges one class. */
  datatype FeeAmount = FeeAmount(id: nat, feeHead: nat, className: string, amount: Money)

  datatype StudentFee = StudentFee(
    id: nat, student: nat, feeHead: nat, amountDue: Money, installmentNumber: int, isPaid: bool)

  datatype GlobalFeeSetting = GlobalFeeSetting(
    id: nat, session: string, installmentCount: int, dueMonths: string, dueDay: int)

  datatype Receipt = Receipt(
    id: nat, receiptNo: nat, paymentDate: Date, student: nat, totalAmount: Money,
    remarks: string, paymentMode: PaymentMode)

  /** One payment line. `feeHead` becomes None when its head is deleted;
      `receipt` is optional in the schema. */
  datatype FeeTransaction = FeeTransaction(
    id: nat, student: nat, feeHead: Option<nat>, receipt: Option<nat>,
    amountPaid: Money, installmentNumber: int, paymentDate: Date, remarks: string)

  /** An opt-out record: `isEnrolled == false` means the student does not pay
      this head for this installment. */
  datatype StudentFeeEnrollment = StudentFeeEnrollment(
    id: nat, student: nat, feeHead: nat, session: string, installmentNumber: int,
    isEnrolled: bool)

  datatype BankStatementEntry = BankStatementEntry(
    id: nat, date: Date, description: string, amount: Money, refNumber: Option<string>,
    isReconciled: bool, matchedTransaction: Option<nat>)

  /** The database: every table as a sequence in primary-key order. */
  datatype Db = Db(
    students: seq<Student>,
    heads: seq<FeeHead>,
    structures: seq<FeeStructure>,
    amounts: seq<FeeAmount>,
    studentFees: seq<StudentFee>,
    settings: seq<GlobalFeeSetting>,
    receipts: seq<Receipt>,
    transactions: seq<FeeTransaction>,
    enrollments: seq<StudentFeeEnrollment>,
    bankEntries: seq<BankStatementEntry>)

  // Keys of the schema's constraints.
  function HeadId(h: FeeHead): nat { h.id }
  function HeadNameSession(h: FeeHead): (string, string) { (h.name, h.session) }
  function StructureKey(f: FeeStructure): (string, nat) { (f.studentClass, f.feeHead) }
  function AmountKey(a: FeeAmount): (nat, string) { (a.feeHead, a.className) }
  function StudentFeeKey(f: StudentFee): (nat, nat, int) { (f.student, f.feeHead, f.installmentNumber) }
  function SettingSession(g: GlobalFeeSetting): string { g.session }
  function ReceiptId(r: Receipt): nat { r.id }
  function ReceiptNo(r: Receipt): nat { r.receiptNo }
  function TransactionId(t: FeeTransaction): nat { t.id }
  function EnrollmentKey(e: StudentFeeEnrollment): (nat, nat, string, int) {
    (e.student, e.feeHead, e.session, e.installmentNumber)
  }

  /** The constraints the schema makes the database keep. */
  predicate Valid(db: Db)
  {
    && UniqueBy(db.students, StudentPk)
    && UniqueBy(db.heads, HeadId)
    && UniqueBy(db.heads, HeadNameSession)
    && UniqueBy(db.structures, StructureKey)
    && UniqueBy(db.amounts, AmountKey)
    && UniqueBy(db.studentFees, StudentFeeKey)
    && UniqueBy(db.settings, SettingSession)
    && UniqueBy(db.receipts, ReceiptId)
    && UniqueBy(db.receipts, ReceiptNo)
    && UniqueBy(db.transactions, TransactionId)
    && UniqueBy(db.enrollments, EnrollmentKey)
  }

  /** `FeeAmount.objects.get(fee_head=head, class_name=cls).amount`, with
      None for `DoesNotExist`. */
  function ClassAmount(amounts: seq<FeeAmount>, head: nat, cls: string): Option<Money>
  {
    match FindByKey(amounts, AmountKey, (head, cls))
    case Some(a) => Some(a.amount)
    case None => None
  }

  /** Because (fee_head, class_name) is unique, the lookup yields exactly the
      amount of the one row with that pair; `.get` can never find two. */
  lemma ClassAmountUnique(amounts: seq<FeeAmount>, n: nat)
    requires UniqueBy(amounts, AmountKey)
    requires n < |amounts|
    ensures ClassAmount(amounts, amounts[n].feeHead, amounts[n].className) == Some(amounts[n].amount)
  {
    FindByKeyUnique(amounts, AmountKey, n);
  }

  function FindHead(heads: seq<FeeHead>, id: nat): Option<FeeHead>
  {
    FindByKey(heads, HeadId, id)
  }

  /** The fee-head part of `FeeTransaction.__str__`: the head's name, or
      "General" when the head has been deleted. */
  function TransactionLabel(t: FeeTransaction, heads: seq<FeeHead>): (r: string)
    ensures t.feeHead.None? ==> r == "General"
    ensures t.feeHead.Some? && FindHead(heads, t.feeHead.value).Some? ==>
              r == FindHead(heads, t.feeHead.value).value.name
  {
    match t.feeHead
    case None => "General"
    case Some(id) =>
      match FindHead(heads, id)
      case Some(h) => h.name
      case None => "General"
  }

  // ---- Deletion -------------------------------------------------------------

  predicate OfReceipt(t: FeeTransaction, rid: nat) { t.receipt == Some(rid) }

  // Row filters used by the deletions, named so that a deletion and the
  // lemmas about it speak of the same filter.
  function NotReceipt(rid: nat): Receipt -> bool { (x: Receipt) => x.id != rid }
  function NotOfReceipt(rid: nat): FeeTransaction -> bool { (t: FeeTransaction) => !OfReceipt(t, rid) }
  function IsOfReceipt(rid: nat): FeeTransaction -> bool { (t: FeeTransaction) => OfReceipt(t, rid) }
  function NotHead(hid: nat): FeeHead -> bool { (h: FeeHead) => h.id != hid }
  function StructureNotOf(hid: nat): FeeStructure -> bool { (f: FeeStructure) => f.feeHead != hid }
  function AmountNotOf(hid: nat): FeeAmount -> bool { (a: FeeAmount) => a.feeHead != hid }
  function StudentFeeNotOf(hid: nat): StudentFee -> bool { (f: StudentFee) => f.feeHead != hid }
  function EnrollmentNotOf(hid: nat): StudentFeeEnrollment -> bool { (e: StudentFeeEnrollment) => e.feeHead != hid }
  function Detach(hid: nat): FeeTransaction -> FeeTransaction { (t: FeeTransaction) => DetachHead(t, hid) }

  /** The transactions of receipt `rid`, in table order. */
  function TransactionsOf(txns: seq<FeeTransaction>, rid: nat): seq<FeeTransaction>
  {
    Filter(txns, IsOfReceipt(rid))
  }

  /** A bank entry whose matched transaction belongs to receipt `rid`: it
      loses the match when the receipt's transactions cascade. */
  predicate LosesMatch(e: BankStatementEntry, txns: seq<FeeTransaction>, rid: nat)
  {
    e.matchedTransaction.Some? &&
    exists t :: t in txns && OfReceipt(t, rid) && t.id == e.matchedTransaction.value
  }

  function Unmatch(txns: seq<FeeTransaction>, rid: nat): BankStatementEntry -> BankStatementEntry
  {
    (e: BankStatementEntry) => if LosesMatch(e, txns, rid) then e.(matchedTransaction := None) else e
  }

  /** Deleting receipt `rid`: its row goes, its transactions cascade
      (`on_delete=CASCADE`), and bank entries that matched one of those
      transactions lose the match (`on_delete=SET_NULL`). No other table
      changes. */
  function DeleteReceipt(db: Db, rid: nat): (r: Db)
    ensures r == db.(receipts := r.receipts, transactions := r.transactions, bankEntries := r.bankEntries)
    ensures forall x :: x in r.receipts <==> x in db.receipts && x.id != rid
    ensures forall i :: 0 <= i < |r.transactions| ==>
              r.transactions[i] in db.transactions && !OfReceipt(r.transactions[i], rid)
    ensures forall i :: 0 <= i < |db.transactions| && !OfReceipt(db.transactions[i], rid) ==>
              db.transactions[i] in r.transactions
    ensures |r.bankEntries| == |db.bankEntries|
    ensures forall i :: 0 <= i < |r.bankEntries| ==>
              r.bankEntries[i].matchedTransaction ==
                (if LosesMatch(db.bankEntries[i], db.transactions, rid) then None
                 else db.bankEntries[i].matchedTransaction) &&
              r.bankEntries[i] == db.bankEntries[i].(matchedTransaction := r.bankEntries[i].matchedTransaction)
  {
    FilterMembers(db.receipts, NotReceipt(rid));
    db.(receipts := Filter(db.receipts, NotReceipt(rid)),
        transactions := Filter(db.transactions, NotOfReceipt(rid)),
        bankEntries := MapSeq(db.bankEntries, Unmatch(db.transactions, rid)))
  }

  lemma {:induction false} FilterOfFilter(s: seq<FeeTransaction>, rid: nat, other: nat)
    requires other != rid
    ensures Filter(Filter(s, NotOfReceipt(rid)), IsOfReceipt(other))
         == Filter(s, IsOfReceipt(other))
    decreases |s|
  {
    if s != [] {
      var init, last := s[..|s| - 1], s[|s| - 1];
      FilterOfFilter(init, rid, other);
      var kept := Filter(init, NotOfReceipt(rid));
      assert s[..|s| - 1] == init;
      if !OfReceipt(last, rid) {
        assert NotOfReceipt(rid)(last);
        var k2 := kept + [last];
        assert Filter(s, NotOfReceipt(rid)) == k2;
        assert k2[..|k2| - 1] == kept;
      } else {
        assert !NotOfReceipt(rid)(last);
        assert !IsOfReceipt(other)(last);
        assert Filter(s, NotOfReceipt(rid)) == kept;
      }
    }
  }

  /** Deleting a receipt leaves every other receipt's transactions exactly as
      they were, in the same order. */
  lemma DeleteReceiptKeepsOthers(db: Db, rid: nat, other: nat)
    requires other != rid
    ensures TransactionsOf(DeleteReceipt(db, rid).transactions, other) == TransactionsOf(db.transactions, other)
  {
    FilterOfFilter(db.transactions, rid, other);
  }

  /** Deleting a receipt removes exactly its transactions: the count drops by
      the number it had, and none of them is left. */
  lemma {:induction false} DeleteReceiptCount(s: seq<FeeTransaction>, rid: nat)
    ensures |Filter(s, NotOfReceipt(rid))| == |s| - |TransactionsOf(s, rid)|
    decreases |s|
  {
    if s != [] {
      DeleteReceiptCount(s[..|s| - 1], rid);
    }
  }

  /** Deleting a receipt keeps every constraint. */
  lemma DeleteReceiptValid(db: Db, rid: nat)
    requires Valid(db)
    ensures Valid(DeleteReceipt(db, rid))
  {
    UniqueByFilter(db.receipts, ReceiptId, NotReceipt(rid));
    UniqueByFilter(db.receipts, ReceiptNo, NotReceipt(rid));
    UniqueByFilter(db.transactions, TransactionId, NotOfReceipt(rid));
  }

  /** The transaction after its fee head `hid` is deleted (`SET_NULL`). */
  function DetachHead(t: FeeTransaction, hid: nat): FeeTransaction
  {
    if t.feeHead == Some(hid) then t.(feeHead := None) else t
  }

  /** Deleting fee head `hid`: its amounts, structures, student fees and
      enrollment records cascade; its transactions stay, with `fee_head`
      set to null. No other table changes. */
  function DeleteFeeHead(db: Db, hid: nat): (r: Db)
    ensures r == db.(heads := r.heads, structures := r.structures, amounts := r.amounts,
                     studentFees := r.studentFees, enrollments := r.enrollments,
                     transactions := r.transactions)
    ensures forall h :: h in r.heads <==> h in db.heads && h.id != hid
    ensures forall f :: f in r.structures <==> f in db.structures && f.feeHead != hid
    ensures forall a :: a in r.amounts <==> a in db.amounts && a.feeHead != hid
    ensures forall f :: f in r.studentFees <==> f in db.studentFees && f.feeHead != hid
    ensures forall e :: e in r.enrollments <==> e in db.enrollments && e.feeHead != hid
    ensures |r.transactions| == |db.transactions|
    ensures forall i :: 0 <= i < |r.transactions| ==>
              r.transactions[i].feeHead ==
                (if db.transactions[i].feeHead == Some(hid) then None else db.transactions[i].feeHead) &&
              r.transactions[i] == db.transactions[i].(feeHead := r.transactions[i].feeHead)
  {
    FilterMembers(db.heads, NotHead(hid));
    FilterMembers(db.structures, StructureNotOf(hid));
    FilterMembers(db.amounts, AmountNotOf(hid));
    FilterMembers(db.studentFees, StudentFeeNotOf(hid));
    FilterMembers(db.enrollments, EnrollmentNotOf(hid));
    db.(heads := Filter(db.heads, NotHead(hid)),
        structures := Filter(db.structures, StructureNotOf(hid)),
        amounts := Filter(db.amounts, AmountNotOf(hid)),
        studentFees := Filter(db.studentFees, StudentFeeNotOf(hid)),
        enrollments := Filter(db.enrollments, EnrollmentNotOf(hid)),
        transactions := MapSeq(db.transactions, Detach(hid)))
  }

  lemma {:induction false} UniqueByDetach(s: seq<FeeTransaction>, hid: nat)
    requires UniqueBy(s, TransactionId)
    ensures UniqueBy(MapSeq(s, Detach(hid)), TransactionId)
  {
    var r := MapSeq(s, Detach(hid));
    forall i, j | 0 <= i < j < |r| ensures r[i].id != r[j].id {
      assert r[i].id == s[i].id && r[j].id == s[j].id;
    }
  }

  /** Deleting a fee head keeps every constraint. */
  lemma DeleteFeeHeadValid(db: Db, hid: nat)
    requires Valid(db)
    ensures Valid(DeleteFeeHead(db, hid))
  {
    UniqueByFilter(db.heads, HeadId, NotHead(hid));
    UniqueByFilter(db.heads, HeadNameSession, NotHead(hid));
    UniqueByFilter(db.structures, StructureKey, StructureNotOf(hid));
    UniqueByFilter(db.amounts, AmountKey, AmountNotOf(hid));
    UniqueByFilter(db.studentFees, StudentFeeKey, StudentFeeNotOf(hid));
    UniqueByFilter(db.enrollments, EnrollmentKey, EnrollmentNotOf(hid));
    UniqueByDetach(db.transactions, hid);
  }

  /** After a fee head is deleted, each of its transactions is still there,
      unchanged but for its head, and is labelled "General"; every other
      transaction keeps its label. */
  lemma DeleteFeeHeadLabels(db: Db, hid: nat, n: nat)
    requires Valid(db)
    requires n < |db.transactions|
    ensures var t, t' := db.transactions[n], DeleteFeeHead(db, hid).transactions[n];
            && t' == t.(feeHead := t'.feeHead)
            && (t.feeHead == Some(hid) ==> TransactionLabel(t', DeleteFeeHead(db, hid).heads) == "General")
            && (t.feeHead != Some(hid) ==>
                  TransactionLabel(t', DeleteFeeHead(db, hid).heads) == TransactionLabel(t, db.heads))
  {
    var t := db.transactions[n];
    var heads' := DeleteFeeHead(db, hid).heads;
    if t.feeHead.Some? && t.feeHead.value != hid {
      var id := t.feeHead.value;
      UniqueByFilter(db.heads, HeadId, NotHead(hid));
      match FindHead(db.heads, id)
      case None =>
        assert FindHead(heads', id).None?;
      case Some(h) =>
        var m :| 0 <= m < |db.heads| && db.heads[m] == h;
        FindByKeyUnique(db.heads, HeadId, m);
        assert h in heads';
        var m' :| 0 <= m' < |heads'| && heads'[m'] == h;
        FindByKeyUnique(heads', HeadId, m');
    }
  }

  // ---- Opt-out enrollment ---------------------------------------------------

  /** A new enrollment record with the schema's default `is_enrolled = True`. */
  function NewEnrollment(id: nat, student: nat, head: nat, session: string, inst: int): (e: StudentFeeEnrollment)
    ensures e.isEnrolled
    ensures EnrollmentKey(e) == (student, head, session, inst)
  {
    StudentFeeEnrollment(id, student, head, session, inst, true)
  }

  /** Opt-out reading of the table: no record means enrolled. */
  predicate EnrolledIn(es: seq<StudentFeeEnrollment>, student: nat, head: nat, session: string, inst: int)
  {
    match FindByKey(es, EnrollmentKey, (student, head, session, inst))
    case None => true
    case Some(e) => e.isEnrolled
  }

  /** Under the uniqueness key, a student is opted out of an installment
      exactly when a record for it says `is_enrolled = False`. */
  lemma OptedOutIff(es: seq<StudentFeeEnrollment>, student: nat, head: nat, session: string, inst: int)
    requires UniqueBy(es, EnrollmentKey)
    ensures !EnrolledIn(es, student, head, session, inst) <==>
            exists n :: 0 <= n < |es| && EnrollmentKey(es[n]) == (student, head, session, inst) && !es[n].isEnrolled
  {
    var key := (student, head, session, inst);
    if exists n :: 0 <= n < |es| && EnrollmentKey(es[n]) == key {
      var n :| 0 <= n < |es| && EnrollmentKey(es[n]) == key;
      FindByKeyUnique(es, EnrollmentKey, n);
    }
  }

  /** Creating a record with the default value changes no one's enrollment:
      the opt-out table means the same with or without it. */
  lemma DefaultEnrollmentChangesNothing(es: seq<StudentFeeEnrollment>, id: nat, student: nat, head: nat,
                                        session: string, inst: int,
                                        s2: nat, h2: nat, sess2: string, i2: int)
    ensures EnrolledIn(es + [NewEnrollment(id, student, head, session, inst)], s2, h2, sess2, i2)
         == EnrolledIn(es, s2, h2, sess2, i2)
  {
    var e := NewEnrollment(id, student, head, session, inst);
    var key := (s2, h2, sess2, i2);
    if EnrollmentKey(e) != key {
      FindByKeyAppendOther(es, e, EnrollmentKey, key);
    } else if FindByKey(es, EnrollmentKey, key).None? {
      FindByKeyAppendNew(es, e, EnrollmentKey);
    } else {
      FindByKeyAppendSome(es, e, EnrollmentKey, key);
    }
  }
}
