/** The guard in the student `update` action (also reached through
    `partial_update`): a change of status to "TC" is refused while the
    student still owes money. The dues count every fee head of every session
    and every payment the student made, with or without a head. */
module TcGuard {
  import opened Common
  import opened Students
  import opened FeeModels
  import opened FeeRules

  /** The outcome of the guard: refused with the balance in the message, or
      handed on to the normal update. */
  datatype UpdateDecision = Rejected(balance: Money) | PassThrough

  function PaidBy(sid: nat): FeeTransaction -> Money
  {
    (t: FeeTransaction) => if t.student == sid then t.amountPaid else 0
  }

  /** `FeeTransaction.objects.filter(student=...).aggregate(Sum(...))`, or 0. */
  function TotalPaid(txns: seq<FeeTransaction>, sid: nat): Money
  {
    SumBy(txns, PaidBy(sid))
  }

  /** What the student still owes by the guard's reckoning. */
  function TcBalance(db: Db, st: Student): Money
  {
    ExpectedTotal(st, db.heads, db.amounts) - TotalPaid(db.transactions, st.id)
  }

  /** The guard. `newStatus` is the request's `status` field, if it has one. */
  method CheckUpdate(db: Db, instance: Student, newStatus: Option<string>) returns (d: UpdateDecision)
    ensures d.Rejected? <==>
              newStatus == Some(StatusTc) && instance.status != StatusTc && TcBalance(db, instance) > 0
    ensures d.Rejected? ==> d.balance == TcBalance(db, instance) && d.balance > 0
  {
    if newStatus == Some(StatusTc) && instance.status != StatusTc {
      var totalExpected := ExpectedFor(instance, db.heads, db.amounts);
      var totalPaid := TotalPaid(db.transactions, instance.id);
      var balance := totalExpected - totalPaid;
      if balance > 0 {
        return Rejected(balance);
      }
    }
    return PassThrough;
  }

  /** Recording one more payment of exactly the owed balance, against any
      head or none, brings the balance to zero, so the guard then lets the
      change through. */
  lemma SettlingClearsGuard(db: Db, st: Student, t: FeeTransaction)
    requires t.student == st.id && t.amountPaid == TcBalance(db, st)
    ensures TcBalance(db.(transactions := db.transactions + [t]), st) == 0
  {
    var txns := db.transactions + [t];
    assert txns[..|txns| - 1] == db.transactions;
  }

  /** Another student's payments do not move the balance. */
  lemma OthersPaymentsIgnored(db: Db, st: Student, t: FeeTransaction)
    requires t.student != st.id
    ensures TcBalance(db.(transactions := db.transactions + [t]), st) == TcBalance(db, st)
  {
    var txns := db.transactions + [t];
    assert txns[..|txns| - 1] == db.transactions;
  }

  function NoPayment(t: FeeTransaction): Money { 0 }

  /** With no negative payments, the balance only falls as payments are
      recorded. */
  lemma BalanceFallsWithPayments(db: Db, st: Student, more: seq<FeeTransaction>)
    requires forall t :: t in more ==> t.amountPaid >= 0
    ensures TcBalance(db.(transactions := db.transactions + more), st) <= TcBalance(db, st)
  {
    SumByConcat(db.transactions, more, PaidBy(st.id));
    SumByMono(more, NoPayment, PaidBy(st.id));
    SumByZero(more, NoPayment);
  }
}
