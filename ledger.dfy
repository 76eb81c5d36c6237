/** The `ledger` action: one debit per class fee head ("Fee Assigned"), one
    credit per payment against those heads ("Payment"), sorted by date, each
    entry carrying the running balance of debits minus credits. */
module Ledger {
  import opened Common
  import opened Students
  import opened FeeModels
  import opened FeeRules
  import opened Sorting
  import Stats

  /** An entry before its balance is filled in. */
  datatype Posting = Posting(date: Date, description: string, debit: Money, credit: Money)

  datatype LedgerEntry = LedgerEntry(posting: Posting, balance: Money)

  function PostingDate(p: Posting): int { p.date }

  /** What an entry adds to the running sum. */
  function Net(p: Posting): Money { p.debit - p.credit }

  /** The debit of one head: dated today, for the class amount. There is no
      transport filter here, unlike `total_expected`. */
  function DebitOf(st: Student, amounts: seq<FeeAmount>, today: Date): FeeHead -> Posting
  {
    (h: FeeHead) => Posting(today, "Fee Assigned: " + h.name, AmountOrZero(amounts, h.id, st.studentClass), 0)
  }

  /** The credit of one payment, labelled with its head's name. */
  function CreditOf(allHeads: seq<FeeHead>): FeeTransaction -> Posting
  {
    (t: FeeTransaction) => Posting(t.paymentDate, "Payment: " + TransactionLabel(t, allHeads), 0, t.amountPaid)
  }

  function OnHeadsOf(sid: nat, hs: seq<FeeHead>): FeeTransaction -> bool
  {
    (t: FeeTransaction) => OnHeads(sid, hs, t)
  }

  function PaymentDate(t: FeeTransaction): int { t.paymentDate }

  /** `FeeTransaction.objects.filter(student=..., fee_head__in=...)
      .order_by('payment_date')`; payments on the same date stay in
      primary-key order. */
  function LedgerPayments(sid: nat, hs: seq<FeeHead>, txns: seq<FeeTransaction>): seq<FeeTransaction>
  {
    SortBy(Filter(txns, OnHeadsOf(sid, hs)), PaymentDate)
  }

  /** The entries in the order they are appended: debits, then credits. */
  function Postings(db: Db, st: Student, session: string, today: Date): seq<Posting>
  {
    var hs := ClassHeads(Stats.SessionHeads(db.heads, session), db.amounts, st.studentClass);
    MapSeq(hs, DebitOf(st, db.amounts, today))
      + MapSeq(LedgerPayments(st.id, hs, db.transactions), CreditOf(db.heads))
  }

  /** The entries after `entries.sort(key=date)`, which is stable. */
  function SortedPostings(db: Db, st: Student, session: string, today: Date): seq<Posting>
  {
    SortBy(Postings(db, st, session, today), PostingDate)
  }

  /** Builds and sorts the entries, then fills in the balances. */
  method GetLedger(db: Db, st: Student, session: string, today: Date) returns (entries: seq<LedgerEntry>)
    ensures |entries|
         == |ClassHeads(Stats.SessionHeads(db.heads, session), db.amounts, st.studentClass)|
          + |Filter(db.transactions, OnHeadsOf(st.id, ClassHeads(Stats.SessionHeads(db.heads, session), db.amounts, st.studentClass)))|
    ensures forall k :: 0 <= k < |entries| ==>
              entries[k].posting == SortedPostings(db, st, session, today)[k] &&
              entries[k].balance == SumBy(SortedPostings(db, st, session, today)[..k + 1], Net)
  {
    var sorted := SortedPostings(db, st, session, today);
    entries := WithBalances(sorted);
  }

  /** The `running_sum` loop: writes into each entry, in place, the running
      sum of debit minus credit up to and including it. */
  method WithBalances(sorted: seq<Posting>) returns (entries: seq<LedgerEntry>)
    ensures |entries| == |sorted|
    ensures forall k :: 0 <= k < |entries| ==>
              entries[k].posting == sorted[k] && entries[k].balance == SumBy(sorted[..k + 1], Net)
  {
    var a := new LedgerEntry[|sorted|](k requires 0 <= k < |sorted| => LedgerEntry(sorted[k], 0));
    var runningSum := 0;
    ghost var balances: seq<Money> := [];
    var k := 0;
    while k < a.Length
      invariant 0 <= k <= a.Length
      invariant balances == RunningBalances(sorted[..k])
      invariant runningSum == SumBy(sorted[..k], Net)
      invariant forall m :: 0 <= m < a.Length ==> a[m].posting == sorted[m]
      invariant forall m :: 0 <= m < k ==> a[m].balance == balances[m]
    {
      var entry := a[k];
      PrefixStep(sorted, k, runningSum, balances);
      runningSum := runningSum + (entry.posting.debit - entry.posting.credit);
      a[k] := entry.(balance := runningSum);
      balances := balances + [runningSum];
      k := k + 1;
    }
    assert sorted[..k] == sorted;
    RunningBalancesArePrefixSums(sorted);
    entries := a[..];
  }

  /** The balance column: entry `k` holds the sum of the first `k + 1`
      entries' debit minus credit. */
  function RunningBalances(s: seq<Posting>): (r: seq<Money>)
    ensures |r| == |s|
  {
    if s == [] then [] else RunningBalances(s[..|s| - 1]) + [SumBy(s, Net)]
  }

  /** One step of the running-sum loop. */
  lemma PrefixStep(s: seq<Posting>, k: nat, sum: Money, balances: seq<Money>)
    requires k < |s| && sum == SumBy(s[..k], Net) && balances == RunningBalances(s[..k])
    ensures sum + (s[k].debit - s[k].credit) == SumBy(s[..k + 1], Net)
    ensures balances + [sum + (s[k].debit - s[k].credit)] == RunningBalances(s[..k + 1])
  {
    assert s[..k + 1][..k] == s[..k];
  }

  lemma {:induction false} RunningBalancesArePrefixSums(s: seq<Posting>)
    ensures forall k :: 0 <= k < |s| ==> RunningBalances(s)[k] == SumBy(s[..k + 1], Net)
    decreases |s|
  {
    if s != [] {
      var init := s[..|s| - 1];
      RunningBalancesArePrefixSums(init);
      forall k | 0 <= k < |s| ensures RunningBalances(s)[k] == SumBy(s[..k + 1], Net) {
        if k < |s| - 1 {
          assert s[..k + 1] == init[..k + 1];
        } else {
          assert s[..k + 1] == s;
        }
      }
    }
  }

  /** The entries are in date order. */
  lemma LedgerDateOrdered(db: Db, st: Student, session: string, today: Date)
    ensures forall i, j :: 0 <= i < j < |SortedPostings(db, st, session, today)| ==>
              SortedPostings(db, st, session, today)[i].date <= SortedPostings(db, st, session, today)[j].date
  {
    var s := SortedPostings(db, st, session, today);
    SortBySorted(Postings(db, st, session, today), PostingDate);
    forall i, j | 0 <= i < j < |s| ensures s[i].date <= s[j].date {
      assert PostingDate(s[i]) <= PostingDate(s[j]);
    }
  }

  /** The sort is stable: the entries of any one date keep their appended
      order (today's debits in head order, then payments in date order). */
  lemma LedgerStable(db: Db, st: Student, session: string, today: Date, d: Date)
    ensures WithKey(SortedPostings(db, st, session, today), PostingDate, d)
         == WithKey(Postings(db, st, session, today), PostingDate, d)
  {
    SortByStable(Postings(db, st, session, today), PostingDate, d);
  }

  /** The sort loses and adds no entry. */
  lemma LedgerPermutation(db: Db, st: Student, session: string, today: Date)
    ensures multiset(SortedPostings(db, st, session, today)) == multiset(Postings(db, st, session, today))
  {
    SortByPermutation(Postings(db, st, session, today), PostingDate);
  }

  function DebitAmount(st: Student, amounts: seq<FeeAmount>): FeeHead -> Money
  {
    (h: FeeHead) => AmountOrZero(amounts, h.id, st.studentClass)
  }

  function NegPaid(t: FeeTransaction): Money { -t.amountPaid }

  function NegOnHeadsPart(sid: nat, hs: seq<FeeHead>): FeeTransaction -> Money
  {
    (t: FeeTransaction) => if OnHeads(sid, hs, t) then NegPaid(t) else 0
  }

  /** The sum over all entries, which is the last entry's balance: the class
      amounts of every class head minus what was paid against them. */
  lemma LedgerClosingBalance(db: Db, st: Student, session: string, today: Date)
    ensures SumBy(SortedPostings(db, st, session, today), Net)
         == SumBy(ClassHeads(Stats.SessionHeads(db.heads, session), db.amounts, st.studentClass),
                  DebitAmount(st, db.amounts))
          - PaidOnHeads(db.transactions, st.id,
                        ClassHeads(Stats.SessionHeads(db.heads, session), db.amounts, st.studentClass))
  {
    var hs := ClassHeads(Stats.SessionHeads(db.heads, session), db.amounts, st.studentClass);
    var debits := MapSeq(hs, DebitOf(st, db.amounts, today));
    var credits := MapSeq(LedgerPayments(st.id, hs, db.transactions), CreditOf(db.heads));
    SortBySum(Postings(db, st, session, today), PostingDate, Net);
    SumByConcat(debits, credits, Net);
    SumByMapSeq(hs, DebitOf(st, db.amounts, today), Net, DebitAmount(st, db.amounts));
    CreditsSum(db.transactions, db.heads, st.id, hs);
  }

  /** The credits add up to what was paid against the heads, negated. */
  lemma CreditsSum(txns: seq<FeeTransaction>, allHeads: seq<FeeHead>, sid: nat, hs: seq<FeeHead>)
    ensures SumBy(MapSeq(LedgerPayments(sid, hs, txns), CreditOf(allHeads)), Net) == -PaidOnHeads(txns, sid, hs)
  {
    var paid := Filter(txns, OnHeadsOf(sid, hs));
    var pays := SortBy(paid, PaymentDate);
    SumByMapSeq(pays, CreditOf(allHeads), Net, NegPaid);
    SortBySum(paid, PaymentDate, NegPaid);
    SumByFilter(txns, OnHeadsOf(sid, hs), NegPaid, NegOnHeadsPart(sid, hs));
    SumByNeg(txns, OnHeadsPart(sid, hs), NegOnHeadsPart(sid, hs));
  }

  /** When the student is charged for every class head (no transport head
      of another route), the ledger closes on the `pending_fees` balance. */
  lemma LedgerMatchesPendingBalance(db: Db, st: Student, session: string, today: Date)
    requires forall h :: h in ClassHeads(Stats.SessionHeads(db.heads, session), db.amounts, st.studentClass) ==>
               TransportAllows(st, h)
    ensures SumBy(SortedPostings(db, st, session, today), Net)
         == ExpectedTotal(st, Stats.SessionHeads(db.heads, session), db.amounts)
          - PaidOnHeads(db.transactions, st.id,
                        ClassHeads(Stats.SessionHeads(db.heads, session), db.amounts, st.studentClass))
  {
    var hs := ClassHeads(Stats.SessionHeads(db.heads, session), db.amounts, st.studentClass);
    LedgerClosingBalance(db, st, session, today);
    forall h | h in hs ensures DebitAmount(st, db.amounts)(h) <= ChargeOf(st, db.amounts)(h) {
    }
    forall h | h in hs ensures ChargeOf(st, db.amounts)(h) <= DebitAmount(st, db.amounts)(h) {
    }
    SumByMono(hs, DebitAmount(st, db.amounts), ChargeOf(st, db.amounts));
    SumByMono(hs, ChargeOf(st, db.amounts), DebitAmount(st, db.amounts));
  }
}
