/** The `stats` action: head counts, money collected up to a date, and the
    money still expected (`total_pending = total_expected - total_collected`). */
module Stats {
  import opened Common
  import opened Students
  import opened FeeModels
  import opened FeeRules

  /** The `date` query parameter: left out (defaults to today), present but
      empty (then no date filter applies) or a date. */
  datatype DateParam = Missing | Blank | On(day: Date)

  function Cutoff(p: DateParam, today: Date): Option<Date>
  {
    match p
    case Missing => Some(today)
    case Blank => None
    case On(d) => Some(d)
  }

  function ClassIs(cls: string): Student -> bool { (s: Student) => s.studentClass == cls }
  function SessionIs(session: string): FeeHead -> bool { (h: FeeHead) => h.session == session }
  function StatusIs(status: string): Student -> bool { (s: Student) => s.status == status }

  /** `Student.objects.all()`, filtered by class when a class is given. */
  function InClass(students: seq<Student>, cls: string): seq<Student>
  {
    if cls == "" then students else Filter(students, ClassIs(cls))
  }

  /** `FeeHead.objects.all()`, filtered by session when a session is given. */
  function SessionHeads(heads: seq<FeeHead>, session: string): seq<FeeHead>
  {
    if session == "" then heads else Filter(heads, SessionIs(session))
  }

  /** The three transaction filters of `stats`: the head's session (a
      transaction with no head fails it), the student's class, the date. */
  predicate Collects(db: Db, session: string, cls: string, cutoff: Option<Date>, t: FeeTransaction)
  {
    && (session == "" ||
        (t.feeHead.Some? &&
         match FindHead(db.heads, t.feeHead.value)
         case Some(h) => h.session == session
         case None => false))
    && (cls == "" ||
        match FindByKey(db.students, StudentPk, t.student)
        case Some(s) => s.studentClass == cls
        case None => false)
    && (cutoff.None? || t.paymentDate <= cutoff.value)
  }

  function CollectedPart(db: Db, session: string, cls: string, cutoff: Option<Date>): FeeTransaction -> Money
  {
    (t: FeeTransaction) => if Collects(db, session, cls, cutoff, t) then t.amountPaid else 0
  }

  /** `transactions.aggregate(Sum('amount_paid'))` after the filters, or 0. */
  function TotalCollected(db: Db, session: string, cls: string, cutoff: Option<Date>): Money
  {
    SumBy(db.transactions, CollectedPart(db, session, cls, cutoff))
  }

  function ExpectedOf(heads: seq<FeeHead>, amounts: seq<FeeAmount>): Student -> Money
  {
    (st: Student) => ExpectedTotal(st, heads, amounts)
  }

  /** `total_expected` summed over the students. */
  function TotalExpected(students: seq<Student>, heads: seq<FeeHead>, amounts: seq<FeeAmount>): Money
  {
    SumBy(students, ExpectedOf(heads, amounts))
  }

  datatype StatsReport = StatsReport(
    totalStudents: nat, activeStudents: nat, tcStudents: nat,
    totalCollected: Money, totalPending: Money)

  method GetStats(db: Db, session: string, cls: string, date: DateParam, today: Date) returns (r: StatsReport)
    ensures r.totalStudents == |InClass(db.students, cls)|
    ensures r.activeStudents == Count(InClass(db.students, cls), StatusIs(StatusActive))
    ensures r.tcStudents == Count(InClass(db.students, cls), StatusIs(StatusTc))
    ensures r.totalCollected == TotalCollected(db, session, cls, Cutoff(date, today))
    ensures r.totalPending
         == TotalExpected(InClass(db.students, cls), SessionHeads(db.heads, session), db.amounts) - r.totalCollected
  {
    var students := InClass(db.students, cls);
    var collected := TotalCollected(db, session, cls, Cutoff(date, today));
    var heads := SessionHeads(db.heads, session);
    var totalExpected := 0;
    var i := 0;
    while i < |students|
      invariant 0 <= i <= |students|
      invariant totalExpected == SumBy(students[..i], ExpectedOf(heads, db.amounts))
    {
      var e := ExpectedFor(students[i], heads, db.amounts);
      ExpectedStep(students, i, heads, db.amounts, totalExpected, e);
      totalExpected := totalExpected + e;
      i := i + 1;
    }
    assert students[..i] == students;
    r := StatsReport(|students|, Count(students, StatusIs(StatusActive)), Count(students, StatusIs(StatusTc)),
                     collected, totalExpected - collected);
  }

  lemma ExpectedStep(students: seq<Student>, i: nat, heads: seq<FeeHead>, amounts: seq<FeeAmount>,
                      total: Money, e: Money)
    requires i < |students|
    requires total == SumBy(students[..i], ExpectedOf(heads, amounts))
    requires e == ExpectedTotal(students[i], heads, amounts)
    ensures total + e == SumBy(students[..i + 1], ExpectedOf(heads, amounts))
  {
    assert students[..i + 1][..i] == students[..i];
  }

  /** With no negative payments, moving the `date` cutoff later never lowers
      the amount collected, so `total_pending` never rises as the date moves
      forward; and no cutoff at all collects the most. */
  lemma CollectedGrowsWithDate(db: Db, session: string, cls: string, d1: Date, d2: Date)
    requires forall t :: t in db.transactions ==> t.amountPaid >= 0
    requires d1 <= d2
    ensures TotalCollected(db, session, cls, Some(d1)) <= TotalCollected(db, session, cls, Some(d2))
    ensures TotalCollected(db, session, cls, Some(d2)) <= TotalCollected(db, session, cls, None)
  {
    SumByMono(db.transactions, CollectedPart(db, session, cls, Some(d1)), CollectedPart(db, session, cls, Some(d2)));
    SumByMono(db.transactions, CollectedPart(db, session, cls, Some(d2)), CollectedPart(db, session, cls, None));
  }

  /** Every student is counted once by the roster total, and the active and
      TC counts never exceed it. */
  lemma CountsBounded(db: Db, cls: string)
    ensures Count(InClass(db.students, cls), StatusIs(StatusActive))
          + Count(InClass(db.students, cls), StatusIs(StatusTc)) <= |InClass(db.students, cls)|
  {
    CountDisjoint(InClass(db.students, cls));
  }

  lemma {:induction false} CountDisjoint(s: seq<Student>)
    ensures Count(s, StatusIs(StatusActive)) + Count(s, StatusIs(StatusTc)) <= |s|
    decreases |s|
  {
    if s != [] {
      CountDisjoint(s[..|s| - 1]);
    }
  }
}
