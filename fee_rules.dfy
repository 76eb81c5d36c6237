/** Which fee heads a student is charged for, and the expected total that
    `stats`, `pending_fees` and the TC check in `update` each compute with the
    same loop over `heads.filter(amounts__class_name=student.student_class)`. */
module FeeRules {
  import opened Common
  import opened Students
  import opened FeeModels

  function HasAmountFor(amounts: seq<FeeAmount>, cls: string): FeeHead -> bool
  {
    (h: FeeHead) => ClassAmount(amounts, h.id, cls).Some?
  }

  /** `heads.filter(amounts__class_name=cls)`: the heads with an amount row for
      the class, in queryset order. */
  function ClassHeads(heads: seq<FeeHead>, amounts: seq<FeeAmount>, cls: string): (r: seq<FeeHead>)
    ensures forall i :: 0 <= i < |r| ==> r[i] in heads && ClassAmount(amounts, r[i].id, cls).Some?
    ensures forall i :: 0 <= i < |heads| && ClassAmount(amounts, heads[i].id, cls).Some? ==> heads[i] in r
  {
    Filter(heads, HasAmountFor(amounts, cls))
  }

  /** The two `continue` guards on transport heads. */
  predicate TransportAllows(st: Student, h: FeeHead)
    ensures TransportAllows(st, h) <==>
              !h.isTransportFee || (st.hasTransport && st.transportFeeHead == Some(h.id))
  {
    !(h.isTransportFee && !st.hasTransport) && !(h.isTransportFee && st.transportFeeHead != Some(h.id))
  }

  /** The class amount of a head, 0 when the class has none. */
  function AmountOrZero(amounts: seq<FeeAmount>, head: nat, cls: string): Money
  {
    match ClassAmount(amounts, head, cls)
    case Some(a) => a
    case None => 0
  }

  /** What one head adds to a student's `total_expected`. */
  function Charge(st: Student, amounts: seq<FeeAmount>, h: FeeHead): Money
  {
    if TransportAllows(st, h) then AmountOrZero(amounts, h.id, st.studentClass) else 0
  }

  function ChargeOf(st: Student, amounts: seq<FeeAmount>): FeeHead -> Money
  {
    (h: FeeHead) => Charge(st, amounts, h)
  }

  /** A student's `total_expected` over the given heads. */
  function ExpectedTotal(st: Student, heads: seq<FeeHead>, amounts: seq<FeeAmount>): Money
  {
    SumBy(ClassHeads(heads, amounts, st.studentClass), ChargeOf(st, amounts))
  }

  function BaseCharge(cls: string, amounts: seq<FeeAmount>): FeeHead -> Money
  {
    (h: FeeHead) => if h.isTransportFee then 0 else AmountOrZero(amounts, h.id, cls)
  }

  /** The charge of the student's own transport head, if they have transport,
      the link is set and it names a transport head among `heads`. */
  function LinkedTransportCharge(st: Student, heads: seq<FeeHead>, amounts: seq<FeeAmount>): Money
  {
    if st.hasTransport && st.transportFeeHead.Some? then
      match FindHead(heads, st.transportFeeHead.value)
      case Some(h) => if h.isTransportFee then AmountOrZero(amounts, h.id, st.studentClass) else 0
      case None => 0
    else 0
  }

  function TransportCharge(st: Student, amounts: seq<FeeAmount>): FeeHead -> Money
  {
    (h: FeeHead) => if h.isTransportFee && st.hasTransport && st.transportFeeHead == Some(h.id)
                    then AmountOrZero(amounts, h.id, st.studentClass) else 0
  }

  /** The expected total is every non-transport head's class amount plus, at
      most, the amount of the one transport head linked to the student: no
      other transport head is ever charged. */
  lemma ExpectedSplit(st: Student, heads: seq<FeeHead>, amounts: seq<FeeAmount>)
    requires UniqueBy(heads, HeadId)
    ensures ExpectedTotal(st, heads, amounts)
         == SumBy(heads, BaseCharge(st.studentClass, amounts)) + LinkedTransportCharge(st, heads, amounts)
  {
    var cls := st.studentClass;
    var charge := ChargeOf(st, amounts);
    SumByFilter(heads, HasAmountFor(amounts, cls), charge, charge);
    SumByAdd(heads, BaseCharge(cls, amounts), TransportCharge(st, amounts), charge);
    if st.hasTransport && st.transportFeeHead.Some? {
      SumByAtKey(heads, HeadId, st.transportFeeHead.value, TransportCharge(st, amounts));
    } else {
      SumByZero(heads, TransportCharge(st, amounts));
    }
  }

  /** The accumulator loop of the views: `total_expected += amt` for each
      class head that passes the transport guards and has an amount. */
  method ExpectedFor(st: Student, heads: seq<FeeHead>, amounts: seq<FeeAmount>) returns (total: Money)
    ensures total == ExpectedTotal(st, heads, amounts)
  {
    var applicable := ClassHeads(heads, amounts, st.studentClass);
    total := ChargesOver(st, applicable, amounts);
  }

  /** The loop of `ExpectedFor` over the class heads `hs`. */
  method ChargesOver(st: Student, hs: seq<FeeHead>, amounts: seq<FeeAmount>) returns (total: Money)
    requires forall h :: h in hs ==> ClassAmount(amounts, h.id, st.studentClass).Some?
    ensures total == SumBy(hs, ChargeOf(st, amounts))
  {
    total := 0;
    var i := 0;
    while i < |hs|
      invariant 0 <= i <= |hs|
      invariant total == SumBy(hs[..i], ChargeOf(st, amounts))
    {
      var head := hs[i];
      if head.isTransportFee && !st.hasTransport {
        ChargeStep(st, hs, i, amounts, total, 0);
        i := i + 1;
        continue;
      }
      if head.isTransportFee && st.transportFeeHead != Some(head.id) {
        ChargeStep(st, hs, i, amounts, total, 0);
        i := i + 1;
        continue;
      }
      var found := ClassAmount(amounts, head.id, st.studentClass);
      if found.Some? {
        ChargeStep(st, hs, i, amounts, total, found.value);
        total := total + found.value;
      } else {
        // every class head has an amount for the class, so the
        // `DoesNotExist` branch of the lookup is never taken.
        assert false;
      }
      i := i + 1;
    }
    assert hs[..i] == hs;
  }

  /** One iteration of the loop in `ExpectedFor` adds the charge of head `i`. */
  lemma ChargeStep(st: Student, hs: seq<FeeHead>, i: nat, amounts: seq<FeeAmount>, total: Money, c: Money)
    requires i < |hs| && c == Charge(st, amounts, hs[i])
    requires total == SumBy(hs[..i], ChargeOf(st, amounts))
    ensures total + c == SumBy(hs[..i + 1], ChargeOf(st, amounts))
  {
    assert hs[..i + 1][..i] == hs[..i];
  }

  // ---- Payments ---------------------------------------------------------------

  /** `FeeTransaction.objects.filter(student=st, fee_head__in=hs)`. */
  predicate OnHeads(sid: nat, hs: seq<FeeHead>, t: FeeTransaction)
  {
    t.student == sid && t.feeHead.Some? && FindHead(hs, t.feeHead.value).Some?
  }

  function OnHeadsPart(sid: nat, hs: seq<FeeHead>): FeeTransaction -> Money
  {
    (t: FeeTransaction) => if OnHeads(sid, hs, t) then t.amountPaid else 0
  }

  /** What the student paid against any of the heads `hs`. */
  function PaidOnHeads(txns: seq<FeeTransaction>, sid: nat, hs: seq<FeeHead>): Money
  {
    SumBy(txns, OnHeadsPart(sid, hs))
  }

  function PaidToPart(sid: nat, hid: nat): FeeTransaction -> Money
  {
    (t: FeeTransaction) => if t.student == sid && t.feeHead == Some(hid) then t.amountPaid else 0
  }

  /** `FeeTransaction.objects.filter(student=st, fee_head=head)` summed. */
  function PaidForHead(txns: seq<FeeTransaction>, sid: nat, hid: nat): Money
  {
    SumBy(txns, PaidToPart(sid, hid))
  }

  function PaidForHeadOf(txns: seq<FeeTransaction>, sid: nat): FeeHead -> Money
  {
    (h: FeeHead) => PaidForHead(txns, sid, h.id)
  }

  /** Paying against a set of distinct heads is paying against each of them:
      the `fee_head__in` total is the sum of the per-head totals. */
  lemma {:induction false} PaidOnHeadsPerHead(txns: seq<FeeTransaction>, sid: nat, hs: seq<FeeHead>)
    requires UniqueBy(hs, HeadId)
    ensures PaidOnHeads(txns, sid, hs) == SumBy(hs, PaidForHeadOf(txns, sid))
    decreases |hs|
  {
    if hs == [] {
      SumByZero(txns, OnHeadsPart(sid, hs));
    } else {
      var init, last := hs[..|hs| - 1], hs[|hs| - 1];
      assert UniqueBy(init, HeadId);
      PaidOnHeadsPerHead(txns, sid, init);
      assert hs == init + [last];
      forall t | t in txns
        ensures OnHeadsPart(sid, hs)(t) == OnHeadsPart(sid, init)(t) + PaidToPart(sid, last.id)(t)
      {
        OnHeadsPartStep(sid, init, last, t);
      }
      SumByAdd(txns, OnHeadsPart(sid, init), PaidToPart(sid, last.id), OnHeadsPart(sid, hs));
    }
  }

  /** A payment counts toward `init + [last]` exactly when it counts toward
      `init` or is on `last`, and not both, the ids being distinct. */
  lemma OnHeadsPartStep(sid: nat, init: seq<FeeHead>, last: FeeHead, t: FeeTransaction)
    requires UniqueBy(init + [last], HeadId)
    ensures OnHeadsPart(sid, init + [last])(t) == OnHeadsPart(sid, init)(t) + PaidToPart(sid, last.id)(t)
  {
    var hs := init + [last];
    if t.feeHead.Some? {
      var id := t.feeHead.value;
      if id == last.id {
        forall i | 0 <= i < |init| ensures init[i].id != id {
          assert hs[i] == init[i];
          assert hs[|init|] == last;
        }
        FindByKeyAppendNew(init, last, HeadId);
      } else {
        FindByKeyAppendOther(init, last, HeadId, id);
      }
    }
  }
}
