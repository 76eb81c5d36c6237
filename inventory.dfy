/** Stock keeping: an item's quantity moves with each stock transaction
    recorded against it, when that transaction is first saved. */
module Inventory {
  import opened Common

  const StockIn := "IN"
  const StockOut := "OUT"

  class InventoryItem {
    var name: string
    var category: string
    var quantity: int
    var reorderLevel: int

    /** A new item with the schema's defaults. */
    constructor (name: string)
      ensures this.name == name && category == "OTHER" && quantity == 0 && reorderLevel == 10
    {
      this.name := name;
      category := "OTHER";
      quantity := 0;
      reorderLevel := 10;
    }
  }

  /** What one transaction does to its item's stock when it is created. The
      type is not checked against the declared choices on save, so any other
      string moves nothing. */
  function Delta(transactionType: string, quantity: int): int
  {
    if transactionType == StockIn then quantity
    else if transactionType == StockOut then -quantity
    else 0
  }

  /** `not self.pk`: the row has no key yet, or has the key 0, which Python
      also reads as false. */
  predicate Unsaved(pk: Option<nat>)
  {
    pk.None? || pk.value == 0
  }

  class InventoryTransaction {
    /** The primary key; None until the row is first written. */
    var pk: Option<nat>
    var item: InventoryItem
    var transactionType: string
    var quantity: int

    constructor (item: InventoryItem, transactionType: string, quantity: int)
      ensures pk.None? && this.item == item
      ensures this.transactionType == transactionType && this.quantity == quantity
    {
      pk := None;
      this.item := item;
      this.transactionType := transactionType;
      this.quantity := quantity;
    }

    /** `save`: while the key reads as false, adds ("IN") or subtracts
        ("OUT") the quantity on the item in place, with no lower bound;
        saving a row with a non-zero key moves nothing. `newPk` is the key
        the database assigns to a row that has none; a row that already has
        one keeps it. */
    method Save(newPk: nat)
      modifies this, item
      ensures item == old(item) && transactionType == old(transactionType) && quantity == old(quantity)
      ensures Unsaved(old(pk)) ==> item.quantity == old(item.quantity) + Delta(transactionType, quantity)
      ensures !Unsaved(old(pk)) ==> item.quantity == old(item.quantity)
      ensures pk == if old(pk).None? then Some(newPk) else old(pk)
      ensures item.name == old(item.name) && item.category == old(item.category)
      ensures item.reorderLevel == old(item.reorderLevel)
    {
      if Unsaved(pk) {
        if transactionType == StockIn {
          item.quantity := item.quantity + quantity;
        } else if transactionType == StockOut {
          item.quantity := item.quantity - quantity;
        }
      }
      if pk.None? {
        pk := Some(newPk);
      }
    }
  }

  /** One created transaction, as far as the stock is concerned. */
  datatype Movement = Movement(transactionType: string, quantity: int)

  function MovementDelta(m: Movement): int { Delta(m.transactionType, m.quantity) }

  /** The item's quantity after creating the transactions `ms` in turn,
      starting from `q`. */
  function Replay(q: int, ms: seq<Movement>): int
  {
    if ms == [] then q else Replay(q, ms[..|ms| - 1]) + MovementDelta(ms[|ms| - 1])
  }

  /** Creating the transactions `ms` against `item` one after another, each
      a new row saved once and given the next key: the item's quantity ends
      at `Replay` of its old quantity, and nothing else about it changes. */
  method CreateAll(item: InventoryItem, ms: seq<Movement>, firstPk: nat)
    modifies item
    ensures item.quantity == Replay(old(item.quantity), ms)
    ensures item.name == old(item.name) && item.category == old(item.category)
    ensures item.reorderLevel == old(item.reorderLevel)
  {
    var i := 0;
    while i < |ms|
      invariant 0 <= i <= |ms|
      invariant item.quantity == Replay(old(item.quantity), ms[..i])
      invariant item.name == old(item.name) && item.category == old(item.category)
      invariant item.reorderLevel == old(item.reorderLevel)
    {
      var t := new InventoryTransaction(item, ms[i].transactionType, ms[i].quantity);
      t.Save(firstPk + i);
      assert ms[..i + 1][..i] == ms[..i];
      i := i + 1;
    }
    assert ms[..i] == ms;
  }

  /** A row whose key was set to 0 before its first save is moved again by
      the next save: `not self.pk` cannot tell it from a new row. */
  method ZeroKeyMovesTwice(item: InventoryItem, n: int)
    modifies item
    ensures item.quantity == old(item.quantity) + 2 * n
  {
    var t := new InventoryTransaction(item, StockIn, n);
    t.pk := Some(0);
    t.Save(7);
    t.Save(8);
  }

  /** The quantity is the starting quantity plus every "IN" minus every
      "OUT". */
  lemma {:induction false} ReplayIsSum(q: int, ms: seq<Movement>)
    ensures Replay(q, ms) == q + SumBy(ms, MovementDelta)
    decreases |ms|
  {
    if ms != [] {
      ReplayIsSum(q, ms[..|ms| - 1]);
    }
  }

  /** The order in which two batches of transactions are created does not
      change the final quantity. */
  lemma ReplayOrderFree(q: int, a: seq<Movement>, b: seq<Movement>)
    ensures Replay(q, a + b) == Replay(q, b + a)
  {
    ReplayIsSum(q, a + b);
    ReplayIsSum(q, b + a);
    SumByConcat(a, b, MovementDelta);
    SumByConcat(b, a, MovementDelta);
  }

  /** "IN" of a quantity followed by "OUT" of the same quantity gives the
      stock back. */
  lemma InThenOutRestores(q: int, n: int)
    ensures Replay(q, [Movement(StockIn, n), Movement(StockOut, n)]) == q
  {
    var ms := [Movement(StockIn, n), Movement(StockOut, n)];
    assert ms[..1] == [Movement(StockIn, n)];
    assert ms[..1][..0] == [];
    assert Replay(q, ms[..1]) == q + n;
    assert StockOut != StockIn;
  }

  /** Nothing stops the stock from going below zero: taking out more than a
      new item holds leaves it negative. */
  lemma NoLowerBound(n: nat)
    requires n > 0
    ensures Replay(0, [Movement(StockOut, n)]) < 0
  {
    assert [Movement(StockOut, n)][..0] == [];
  }
}
