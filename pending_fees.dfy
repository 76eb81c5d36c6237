/** The `pending_fees` action: one row per student of the class with the
    amount due, the amount paid, the balance and a per-head breakdown; rows
    are kept when `show_all` is set or the balance is positive, and sorted
    by balance, highest first. */
module PendingFees {
  import opened Common
  import opened Students
  import opened FeeModels
  import opened FeeRules
  import opened Sorting
  import Stats

  /** One `head_breakdown` value. `pending` is not clamped at zero. */
  datatype HeadLine = HeadLine(due: Money, paid: Money, pending: Money)

  datatype PendingRow = PendingRow(
    id: nat, studentId: string, name: string, studentClass: string,
    totalDue: Money, totalPaid: Money, pendingAmount: Money,
    headBreakdown: map<string, HeadLine>)

  /** The breakdown entry one class head contributes, if it is charged. */
  function LineOf(st: Student, amounts: seq<FeeAmount>, txns: seq<FeeTransaction>, h: FeeHead): seq<(string, HeadLine)>
  {
    var found := ClassAmount(amounts, h.id, st.studentClass);
    if TransportAllows(st, h) && found.Some? then
      [(h.name, HeadLine(found.value, PaidForHead(txns, st.id, h.id), found.value - PaidForHead(txns, st.id, h.id)))]
    else []
  }

  /** The breakdown entries in the order the loop writes them. */
  function BreakdownLines(st: Student, hs: seq<FeeHead>, amounts: seq<FeeAmount>, txns: seq<FeeTransaction>)
    : seq<(string, HeadLine)>
  {
    if hs == [] then []
    else BreakdownLines(st, hs[..|hs| - 1], amounts, txns) + LineOf(st, amounts, txns, hs[|hs| - 1])
  }

  /** The Python dict the entries are written into: keyed by head name, so a
      later head with the same name overwrites an earlier one. */
  function ToDict(lines: seq<(string, HeadLine)>): map<string, HeadLine>
  {
    if lines == [] then map[]
    else ToDict(lines[..|lines| - 1])[lines[|lines| - 1].0 := lines[|lines| - 1].1]
  }

  /** `head_breakdown` as the inner loop fills it: a charged head writes its
      line under its name, so a later head with the same name overwrites an
      earlier one. */
  function Breakdown(st: Student, hs: seq<FeeHead>, amounts: seq<FeeAmount>, txns: seq<FeeTransaction>)
    : map<string, HeadLine>
  {
    if hs == [] then map[]
    else
      var h := hs[|hs| - 1];
      var found := ClassAmount(amounts, h.id, st.studentClass);
      var m := Breakdown(st, hs[..|hs| - 1], amounts, txns);
      if TransportAllows(st, h) && found.Some? then
        m[h.name := HeadLine(found.value, PaidForHead(txns, st.id, h.id), found.value - PaidForHead(txns, st.id, h.id))]
      else m
  }

  /** The row built for one student. */
  function RowOf(heads: seq<FeeHead>, amounts: seq<FeeAmount>, txns: seq<FeeTransaction>, st: Student): PendingRow
  {
    var hs := ClassHeads(heads, amounts, st.studentClass);
    var due := ExpectedTotal(st, heads, amounts);
    var paid := PaidOnHeads(txns, st.id, hs);
    PendingRow(st.id, st.studentId, st.name, st.studentClass, due, paid, due - paid,
               Breakdown(st, hs, amounts, txns))
  }

  function RowsOf(heads: seq<FeeHead>, amounts: seq<FeeAmount>, txns: seq<FeeTransaction>): Student -> PendingRow
  {
    (st: Student) => RowOf(heads, amounts, txns, st)
  }

  function Keep(showAll: bool): PendingRow -> bool
  {
    (r: PendingRow) => showAll || r.pendingAmount > 0
  }

  /** The sort key: `key=pending_amount, reverse=True`. */
  function NegPending(r: PendingRow): int { -r.pendingAmount }

  /** The rows in roster order, before sorting. */
  function Report(students: seq<Student>, heads: seq<FeeHead>, amounts: seq<FeeAmount>,
                  txns: seq<FeeTransaction>, showAll: bool): seq<PendingRow>
  {
    Filter(MapSeq(students, RowsOf(heads, amounts, txns)), Keep(showAll))
  }

  /** The body of the loop over students: the inner loop over class heads
      accumulates `total_expected` and fills `head_breakdown`. */
  method StudentRow(heads: seq<FeeHead>, amounts: seq<FeeAmount>, txns: seq<FeeTransaction>, st: Student)
    returns (row: PendingRow)
    ensures row == RowOf(heads, amounts, txns, st)
    ensures row.pendingAmount == row.totalDue - row.totalPaid
    ensures row.totalDue == ExpectedTotal(st, heads, amounts)
  {
    var applicable := ClassHeads(heads, amounts, st.studentClass);
    var totalExpected := 0;
    var breakdown: map<string, HeadLine> := map[];
    var j := 0;
    while j < |applicable|
      invariant 0 <= j <= |applicable|
      invariant totalExpected == SumBy(applicable[..j], ChargeOf(st, amounts))
      invariant breakdown == Breakdown(st, applicable[..j], amounts, txns)
    {
      var head := applicable[j];
      if head.isTransportFee && !st.hasTransport {
        RowLoopSkip(st, applicable, j, amounts, txns, totalExpected, breakdown);
        j := j + 1;
        continue;
      }
      if head.isTransportFee && st.transportFeeHead != Some(head.id) {
        RowLoopSkip(st, applicable, j, amounts, txns, totalExpected, breakdown);
        j := j + 1;
        continue;
      }
      var found := ClassAmount(amounts, head.id, st.studentClass);
      if found.Some? {
        var amt := found.value;
        var paidForHead := PaidForHead(txns, st.id, head.id);
        RowLoopCharge(st, applicable, j, amounts, txns, totalExpected, breakdown, amt, paidForHead);
        totalExpected := totalExpected + amt;
        breakdown := breakdown[head.name := HeadLine(amt, paidForHead, amt - paidForHead)];
      } else {
        // `applicable` only holds heads with an amount for the class, so
        // the `DoesNotExist` branch of the lookup is never taken.
        assert false;
      }
      j := j + 1;
    }
    assert applicable[..j] == applicable;
    var totalPaid := PaidOnHeads(txns, st.id, applicable);
    var balance := totalExpected - totalPaid;
    row := PendingRow(st.id, st.studentId, st.name, st.studentClass, totalExpected, totalPaid, balance, breakdown);
    RowOfFields(heads, amounts, txns, st, row);
  }

  /** A row with the right fields is the row of the student. */
  lemma RowOfFields(heads: seq<FeeHead>, amounts: seq<FeeAmount>, txns: seq<FeeTransaction>, st: Student, row: PendingRow)
    requires row.id == st.id && row.studentId == st.studentId && row.name == st.name
    requires row.studentClass == st.studentClass
    requires row.totalDue == SumBy(ClassHeads(heads, amounts, st.studentClass), ChargeOf(st, amounts))
    requires row.totalPaid == PaidOnHeads(txns, st.id, ClassHeads(heads, amounts, st.studentClass))
    requires row.pendingAmount == row.totalDue - row.totalPaid
    requires row.headBreakdown == Breakdown(st, ClassHeads(heads, amounts, st.studentClass), amounts, txns)
    ensures row == RowOf(heads, amounts, txns, st)
  {
  }

  /** An iteration that skips head `j` (a transport head the student does not
      take) changes neither the total nor the breakdown. */
  lemma RowLoopSkip(st: Student, hs: seq<FeeHead>, j: nat, amounts: seq<FeeAmount>, txns: seq<FeeTransaction>,
                    total: Money, m: map<string, HeadLine>)
    requires j < |hs| && !TransportAllows(st, hs[j])
    requires total == SumBy(hs[..j], ChargeOf(st, amounts)) && m == Breakdown(st, hs[..j], amounts, txns)
    ensures total == SumBy(hs[..j + 1], ChargeOf(st, amounts)) && m == Breakdown(st, hs[..j + 1], amounts, txns)
  {
    assert hs[..j + 1][..j] == hs[..j];
  }

  /** An iteration that charges head `j` adds the class amount to the total
      and writes due, paid and pending under the head's name. */
  lemma RowLoopCharge(st: Student, hs: seq<FeeHead>, j: nat, amounts: seq<FeeAmount>, txns: seq<FeeTransaction>,
                      total: Money, m: map<string, HeadLine>, amt: Money, paid: Money)
    requires j < |hs| && TransportAllows(st, hs[j])
    requires ClassAmount(amounts, hs[j].id, st.studentClass) == Some(amt) && paid == PaidForHead(txns, st.id, hs[j].id)
    requires total == SumBy(hs[..j], ChargeOf(st, amounts)) && m == Breakdown(st, hs[..j], amounts, txns)
    ensures total + amt == SumBy(hs[..j + 1], ChargeOf(st, amounts))
    ensures m[hs[j].name := HeadLine(amt, paid, amt - paid)] == Breakdown(st, hs[..j + 1], amounts, txns)
  {
    assert hs[..j + 1][..j] == hs[..j];
  }

  lemma BreakdownStep(st: Student, hs: seq<FeeHead>, j: nat, amounts: seq<FeeAmount>, txns: seq<FeeTransaction>)
    requires j < |hs|
    ensures BreakdownLines(st, hs[..j + 1], amounts, txns)
         == BreakdownLines(st, hs[..j], amounts, txns) + LineOf(st, amounts, txns, hs[j])
  {
    assert hs[..j + 1][..j] == hs[..j];
  }

  lemma ToDictStep(lines: seq<(string, HeadLine)>, extra: seq<(string, HeadLine)>)
    requires |extra| <= 1
    ensures ToDict(lines + extra) == if extra == [] then ToDict(lines) else ToDict(lines)[extra[0].0 := extra[0].1]
  {
    if extra == [] {
      assert lines + extra == lines;
    } else {
      assert (lines + extra)[..|lines|] == lines;
    }
  }

  lemma ReportStep(students: seq<Student>, i: nat, heads: seq<FeeHead>, amounts: seq<FeeAmount>,
                   txns: seq<FeeTransaction>, showAll: bool)
    requires i < |students|
    ensures Report(students[..i + 1], heads, amounts, txns, showAll)
         == Report(students[..i], heads, amounts, txns, showAll)
          + (var row := RowOf(heads, amounts, txns, students[i]);
             if showAll || row.pendingAmount > 0 then [row] else [])
  {
    var f := RowsOf(heads, amounts, txns);
    assert students[..i + 1][..i] == students[..i];
    var pre := MapSeq(students[..i], f);
    var all := MapSeq(students[..i + 1], f);
    assert all == pre + [f(students[i])];
    assert all[..|all| - 1] == pre;
  }

  method GetPendingFees(db: Db, session: string, cls: string, showAll: bool) returns (rows: seq<PendingRow>)
    ensures rows == SortBy(Report(Stats.InClass(db.students, cls), Stats.SessionHeads(db.heads, session),
                                  db.amounts, db.transactions, showAll), NegPending)
    ensures forall i, j :: 0 <= i < j < |rows| ==> rows[i].pendingAmount >= rows[j].pendingAmount
  {
    var students := Stats.InClass(db.students, cls);
    var heads := Stats.SessionHeads(db.heads, session);
    var list: seq<PendingRow> := [];
    var i := 0;
    while i < |students|
      invariant 0 <= i <= |students|
      invariant list == Report(students[..i], heads, db.amounts, db.transactions, showAll)
    {
      var row := StudentRow(heads, db.amounts, db.transactions, students[i]);
      ReportStep(students, i, heads, db.amounts, db.transactions, showAll);
      if showAll || row.pendingAmount > 0 {
        list := list + [row];
      }
      i := i + 1;
    }
    assert students[..i] == students;
    rows := SortBy(list, NegPending);
    SortedDescending(list);
  }

  /** Sorting on the negated balance orders rows by balance, highest first. */
  lemma SortedDescending(list: seq<PendingRow>)
    ensures forall i, j :: 0 <= i < j < |SortBy(list, NegPending)| ==>
              SortBy(list, NegPending)[i].pendingAmount >= SortBy(list, NegPending)[j].pendingAmount
  {
    var rows := SortBy(list, NegPending);
    SortBySorted(list, NegPending);
    forall i, j | 0 <= i < j < |rows| ensures rows[i].pendingAmount >= rows[j].pendingAmount {
      assert NegPending(rows[i]) <= NegPending(rows[j]);
    }
  }

  /** A row is in the sorted report exactly when it is the row of a listed
      student that is shown: `show_all` is set or the balance is positive. */
  lemma ReportMembers(students: seq<Student>, heads: seq<FeeHead>, amounts: seq<FeeAmount>,
                      txns: seq<FeeTransaction>, showAll: bool, r: PendingRow)
    ensures r in SortBy(Report(students, heads, amounts, txns, showAll), NegPending) <==>
            exists st :: st in students && r == RowOf(heads, amounts, txns, st) && (showAll || r.pendingAmount > 0)
  {
    var list := Report(students, heads, amounts, txns, showAll);
    var all := MapSeq(students, RowsOf(heads, amounts, txns));
    SortByMembers(list, NegPending, r);
    if r in list {
      var k :| 0 <= k < |list| && list[k] == r;
      assert r in all && Keep(showAll)(r);
      var m :| 0 <= m < |all| && all[m] == r;
      assert students[m] in students && r == RowOf(heads, amounts, txns, students[m]);
    }
    if exists st :: st in students && r == RowOf(heads, amounts, txns, st) && (showAll || r.pendingAmount > 0) {
      var st :| st in students && r == RowOf(heads, amounts, txns, st) && (showAll || r.pendingAmount > 0);
      var m :| 0 <= m < |students| && students[m] == st;
      assert all[m] == r;
      assert Keep(showAll)(all[m]);
    }
  }

  /** Rows with equal balances keep their roster order. */
  lemma TiesKeepRosterOrder(report: seq<PendingRow>, balance: int)
    ensures WithKey(SortBy(report, NegPending), NegPending, -balance) == WithKey(report, NegPending, -balance)
  {
    SortByStable(report, NegPending, -balance);
  }

  /** Every breakdown entry has `pending == due - paid` (overpayment shows as
      a negative pending), `due` is the class amount of a charged head of
      that name, and `paid` is what the student paid against that head. */
  lemma {:induction false} BreakdownEntries(st: Student, hs: seq<FeeHead>, amounts: seq<FeeAmount>,
                                            txns: seq<FeeTransaction>, name: string)
    requires name in ToDict(BreakdownLines(st, hs, amounts, txns))
    ensures var line := ToDict(BreakdownLines(st, hs, amounts, txns))[name];
            && line.pending == line.due - line.paid
            && exists h :: h in hs && h.name == name && TransportAllows(st, h) &&
                 ClassAmount(amounts, h.id, st.studentClass) == Some(line.due) &&
                 line.paid == PaidForHead(txns, st.id, h.id)
    decreases |hs|
  {
    if hs != [] {
      var init, last := hs[..|hs| - 1], hs[|hs| - 1];
      var before := BreakdownLines(st, init, amounts, txns);
      var extra := LineOf(st, amounts, txns, last);
      assert BreakdownLines(st, hs, amounts, txns) == before + extra;
      ToDictStep(before, extra);
      if extra != [] && extra[0].0 == name {
        assert last in hs;
      } else {
        BreakdownEntries(st, init, amounts, txns, name);
        var line := ToDict(before)[name];
        var h :| h in init && h.name == name && TransportAllows(st, h) &&
                 ClassAmount(amounts, h.id, st.studentClass) == Some(line.due) &&
                 line.paid == PaidForHead(txns, st.id, h.id);
        assert h in hs;
      }
    }
  }

  /** The map the loop fills is the dict of the entries in loop order. */
  lemma {:induction false} BreakdownIsDict(st: Student, hs: seq<FeeHead>, amounts: seq<FeeAmount>,
                                           txns: seq<FeeTransaction>)
    ensures Breakdown(st, hs, amounts, txns) == ToDict(BreakdownLines(st, hs, amounts, txns))
    decreases |hs|
  {
    if hs != [] {
      var init, last := hs[..|hs| - 1], hs[|hs| - 1];
      BreakdownIsDict(st, init, amounts, txns);
      var before := BreakdownLines(st, init, amounts, txns);
      var extra := LineOf(st, amounts, txns, last);
      assert BreakdownLines(st, hs, amounts, txns) == before + extra;
      ToDictStep(before, extra);
    }
  }

  /** Every entry of a row's `head_breakdown` belongs to a charged class
      head of that name: `due` is its class amount, `paid` what the student
      paid against it, and `pending == due - paid`. */
  lemma RowBreakdownEntries(heads: seq<FeeHead>, amounts: seq<FeeAmount>, txns: seq<FeeTransaction>,
                            st: Student, name: string)
    requires name in RowOf(heads, amounts, txns, st).headBreakdown
    ensures var line := RowOf(heads, amounts, txns, st).headBreakdown[name];
            && line.pending == line.due - line.paid
            && exists h :: h in heads && h.name == name && TransportAllows(st, h) &&
                 ClassAmount(amounts, h.id, st.studentClass) == Some(line.due) &&
                 line.paid == PaidForHead(txns, st.id, h.id)
  {
    var hs := ClassHeads(heads, amounts, st.studentClass);
    BreakdownIsDict(st, hs, amounts, txns);
    BreakdownEntries(st, hs, amounts, txns, name);
    var line := RowOf(heads, amounts, txns, st).headBreakdown[name];
    var h :| h in hs && h.name == name && TransportAllows(st, h) &&
             ClassAmount(amounts, h.id, st.studentClass) == Some(line.due) &&
             line.paid == PaidForHead(txns, st.id, h.id);
    assert h in heads;
  }

  function LinePending(l: (string, HeadLine)): Money { l.1.pending }

  function UnchargedPaid(st: Student, amounts: seq<FeeAmount>, txns: seq<FeeTransaction>): FeeHead -> Money
  {
    (h: FeeHead) => if TransportAllows(st, h) && ClassAmount(amounts, h.id, st.studentClass).Some?
                    then 0 else PaidForHead(txns, st.id, h.id)
  }

  /** One head's share of the identity below. */
  lemma LinePendingOne(st: Student, amounts: seq<FeeAmount>, txns: seq<FeeTransaction>, h: FeeHead)
    ensures SumBy(LineOf(st, amounts, txns, h), LinePending)
         == Charge(st, amounts, h) - PaidForHead(txns, st.id, h.id) + UnchargedPaid(st, amounts, txns)(h)
  {
    var extra := LineOf(st, amounts, txns, h);
    if extra != [] {
      assert extra[..0] == [];
    }
  }

  lemma {:induction false} LinesPendingSum(st: Student, hs: seq<FeeHead>, amounts: seq<FeeAmount>,
                                           txns: seq<FeeTransaction>)
    ensures SumBy(BreakdownLines(st, hs, amounts, txns), LinePending)
         == SumBy(hs, ChargeOf(st, amounts)) - SumBy(hs, PaidForHeadOf(txns, st.id))
          + SumBy(hs, UnchargedPaid(st, amounts, txns))
    decreases |hs|
  {
    if hs != [] {
      var init, last := hs[..|hs| - 1], hs[|hs| - 1];
      LinesPendingSum(st, init, amounts, txns);
      SumByConcat(BreakdownLines(st, init, amounts, txns), LineOf(st, amounts, txns, last), LinePending);
      LinePendingOne(st, amounts, txns, last);
    }
  }

  /** A row's balance is the sum of its breakdown's pending values minus what
      the student paid against class heads they are not charged for (for
      instance another route's transport head): `total_paid` counts every
      class head, the breakdown only the charged ones. Stated over the
      breakdown entries before they are keyed by name. */
  lemma BalanceFromBreakdown(heads: seq<FeeHead>, amounts: seq<FeeAmount>, txns: seq<FeeTransaction>, st: Student)
    requires UniqueBy(heads, HeadId)
    ensures var hs := ClassHeads(heads, amounts, st.studentClass);
            (RowOf(heads, amounts, txns, st).pendingAmount
             == SumBy(BreakdownLines(st, hs, amounts, txns), LinePending) - SumBy(hs, UnchargedPaid(st, amounts, txns)))
  {
    var hs := ClassHeads(heads, amounts, st.studentClass);
    UniqueByFilter(heads, HeadId, HasAmountFor(amounts, st.studentClass));
    PaidOnHeadsPerHead(txns, st.id, hs);
    LinesPendingSum(st, hs, amounts, txns);
  }
}
