/**
 * The cart store: an ordered list of lines, each a product with a quantity,
 * replaced as a whole by four operations (add, increment, decrement, remove)
 * and summed into a derived total.
 *
 * Each operation hands the store an updater from the previous list to the next
 * one; those updaters are the pure functions below, and `CartStore` is the
 * state cell they are applied to.
 */
module Cart {
  import opened Wrappers
  import opened Products
  import Sequences

  /** A cart line: the product record as it was added, with the quantity chosen so far. */
  datatype Line = Line(item: Product, quantity: int)

  /** The next cart, and whether the "Cannot add more. Out of stock!" alert was raised. */
  datatype Step = Step(lines: seq<Line>, alerted: bool)

  /** At most one line per product id. */
  predicate UniqueIds(lines: seq<Line>) {
    forall i, j :: 0 <= i < j < |lines| ==> lines[i].item.id != lines[j].item.id
  }

  /** No line is kept with a quantity below one. */
  predicate AllPositive(lines: seq<Line>) {
    forall i :: 0 <= i < |lines| ==> lines[i].quantity >= 1
  }

  /** Every line carries a stock ceiling and `1 <= quantity <= stock`. */
  predicate WithinStock(lines: seq<Line>) {
    forall i :: 0 <= i < |lines| ==>
      lines[i].item.stock.Some? && 1 <= lines[i].quantity <= lines[i].item.stock.value
  }

  /** `cart.find(item => item.id === id)`, as the position of the first such line. */
  function IndexOf(lines: seq<Line>, id: int): (r: Option<nat>)
    ensures r.Some? ==> r.value < |lines| && lines[r.value].item.id == id
    ensures r.Some? ==> forall j :: 0 <= j < r.value ==> lines[j].item.id != id
    ensures r.None? ==> forall j :: 0 <= j < |lines| ==> lines[j].item.id != id
  {
    if lines == [] then None
    else if lines[0].item.id == id then Some(0)
    else match IndexOf(lines[1..], id)
      case None => None
      case Some(k) => Some(k + 1)
  }

  /** With unique ids, the line holding `lines[k]`'s id is found at `k`. */
  lemma IndexOfUnique(lines: seq<Line>, k: nat)
    requires UniqueIds(lines) && k < |lines|
    ensures IndexOf(lines, lines[k].item.id) == Some(k)
  {
  }

  /**
   * `item.quantity >= stock`. A stock that is not there is JavaScript's
   * `undefined`, and any comparison with it is false.
   */
  predicate Exhausted(quantity: int, stock: Option<int>)
    ensures Exhausted(quantity, stock) ==> stock.Some?
    ensures stock.Some? ==> (Exhausted(quantity, stock) <==> stock.value <= quantity)
  {
    stock.Some? && quantity >= stock.value
  }

  function Bump(l: Line): Line {
    l.(quantity := l.quantity + 1)
  }

  /** The map of `addToCart`: every line with the id gains one. */
  function Bumped(lines: seq<Line>, id: int): (r: seq<Line>)
    ensures |r| == |lines|
    ensures forall i :: 0 <= i < |r| ==> r[i].item == lines[i].item
    ensures forall i :: 0 <= i < |r| && lines[i].item.id != id ==> r[i] == lines[i]
    ensures forall i :: 0 <= i < |r| && lines[i].item.id == id ==> r[i].quantity == lines[i].quantity + 1
  {
    seq(|lines|, i requires 0 <= i < |lines| =>
      if lines[i].item.id == id then Bump(lines[i]) else lines[i])
  }

  /** The map of `incrementQuantity`: a line with the id gains one unless it is at `stock`. */
  function BumpedBelow(lines: seq<Line>, id: int, stock: Option<int>): (r: seq<Line>)
    ensures |r| == |lines|
    ensures forall i :: 0 <= i < |r| && lines[i].item.id != id ==> r[i] == lines[i]
    ensures stock.None? ==> r == Bumped(lines, id)
    ensures stock.Some? ==> forall i :: 0 <= i < |r| && lines[i].quantity <= stock.value ==> r[i].quantity <= stock.value
  {
    seq(|lines|, i requires 0 <= i < |lines| =>
      if lines[i].item.id == id && !Exhausted(lines[i].quantity, stock) then Bump(lines[i]) else lines[i])
  }

  /** The updater of `addToCart(p)`. */
  function Added(prev: seq<Line>, p: Product): (r: Step)
    ensures r.alerted ==> r.lines == prev
    ensures |r.lines| == |prev| + (if IndexOf(prev, p.id).None? then 1 else 0)
    ensures forall i :: 0 <= i < |prev| ==> r.lines[i].item == prev[i].item
  {
    match IndexOf(prev, p.id)
    case None => Step(prev + [Line(p, 1)], false)
    case Some(k) =>
      if Exhausted(prev[k].quantity, p.stock) then Step(prev, true)
      else Step(Bumped(prev, p.id), false)
  }

  /** The updater of `incrementQuantity(p)`; the alert fires once per line at its ceiling. */
  function Incremented(prev: seq<Line>, p: Product): (r: Step)
    ensures |r.lines| == |prev|
    ensures forall i :: 0 <= i < |prev| ==>
      r.lines[i].quantity == prev[i].quantity || r.lines[i].quantity == prev[i].quantity + 1
    ensures !r.alerted ==> forall i :: 0 <= i < |prev| && prev[i].item.id == p.id ==>
      r.lines[i].quantity == prev[i].quantity + 1
  {
    Step(BumpedBelow(prev, p.id, p.stock),
         exists i | 0 <= i < |prev| :: prev[i].item.id == p.id && Exhausted(prev[i].quantity, p.stock))
  }

  /** What the `reduce` of `decrementQuantity` pushes for one line. */
  function DecrementStep(l: Line, id: int): (r: seq<Line>)
    ensures |r| <= 1
    ensures l.item.id != id ==> r == [l]
    ensures |r| == 0 <==> l.item.id == id && l.quantity <= 1
    ensures |r| == 1 ==> r[0].item == l.item && (l.item.id == id ==> 1 <= r[0].quantity == l.quantity - 1)
  {
    if l.item.id != id then [l]
    else if l.quantity > 1 then [l.(quantity := l.quantity - 1)]
    else []
  }

  /** The updater of `decrementQuantity(id)`: a left fold over the lines. */
  function Decremented(lines: seq<Line>, id: int): (r: seq<Line>)
    ensures |r| <= |lines|
  {
    if lines == [] then []
    else Decremented(lines[..|lines| - 1], id) + DecrementStep(lines[|lines| - 1], id)
  }

  function KeepOther(id: int): Line -> bool {
    (l: Line) => l.item.id != id
  }

  /** The updater of `removeFromCart(id)`: a filter. */
  function Removed(lines: seq<Line>, id: int): (r: seq<Line>)
    ensures |r| <= |lines|
    ensures forall i :: 0 <= i < |r| ==> r[i].item.id != id
  {
    Sequences.FilterMembers(lines, KeepOther(id));
    var r := Sequences.Filter(lines, KeepOther(id));
    assert forall i :: 0 <= i < |r| ==> r[i] in r;
    r
  }

  function LineTotal(l: Line): int {
    l.item.price * l.quantity
  }

  /** `cart.reduce((acc, item) => acc + item.price * item.quantity, 0)`. */
  function Total(lines: seq<Line>): (r: int)
    ensures (forall i :: 0 <= i < |lines| ==> lines[i].item.price >= 0 && lines[i].quantity >= 0) ==> r >= 0
  {
    if lines == [] then 0
    else
      var last := lines[|lines| - 1];
      assert last.item.price >= 0 && last.quantity >= 0 ==> LineTotal(last) >= 0;
      Total(lines[..|lines| - 1]) + LineTotal(last)
  }

  // ---------------------------------------------------------------------------
  // addToCart

  /** A product not yet in the cart is appended as one unit; earlier lines are untouched. */
  lemma AddNew(prev: seq<Line>, p: Product)
    requires IndexOf(prev, p.id).None?
    ensures Added(prev, p) == Step(prev + [Line(p, 1)], false)
    ensures Total(Added(prev, p).lines) == Total(prev) + p.price
  {
    assert (prev + [Line(p, 1)])[..|prev|] == prev;
  }

  /**
   * A product already in the cart gains one unit on its own line, unless the line
   * is at the stock the argument carries: then the cart is unchanged and the alert fires.
   */
  lemma {:induction false} AddExisting(prev: seq<Line>, p: Product, k: nat)
    requires UniqueIds(prev) && k < |prev| && prev[k].item.id == p.id
    ensures Added(prev, p) ==
      if Exhausted(prev[k].quantity, p.stock) then Step(prev, true)
      else Step(prev[k := Bump(prev[k])], false)
  {
    IndexOfUnique(prev, k);
    assert Bumped(prev, p.id) == prev[k := Bump(prev[k])];
  }

  // ---------------------------------------------------------------------------
  // incrementQuantity

  /** An id that is not in the cart changes nothing and raises no alert. */
  lemma IncrementMissing(prev: seq<Line>, p: Product)
    requires IndexOf(prev, p.id).None?
    ensures Incremented(prev, p) == Step(prev, false)
  {
    assert BumpedBelow(prev, p.id, p.stock) == prev;
  }

  /** The matching line gains one, or, at the argument's stock, stays and the alert fires. */
  lemma {:induction false} IncrementExisting(prev: seq<Line>, p: Product, k: nat)
    requires UniqueIds(prev) && k < |prev| && prev[k].item.id == p.id
    ensures Incremented(prev, p) ==
      if Exhausted(prev[k].quantity, p.stock) then Step(prev, true)
      else Step(prev[k := Bump(prev[k])], false)
  {
    assert BumpedBelow(prev, p.id, p.stock) ==
      if Exhausted(prev[k].quantity, p.stock) then prev else prev[k := Bump(prev[k])];
  }

  /**
   * Without a stock value on the argument (a record taken straight from the
   * catalogue) the guard never fires: the update is exactly the unguarded map of `addToCart`.
   */
  lemma IncrementWithoutStock(prev: seq<Line>, p: Product)
    requires p.stock.None?
    ensures Incremented(prev, p) == Step(Bumped(prev, p.id), false)
  {
  }

  /** Increment keeps the length, the order, every id and every other line. */
  lemma IncrementShape(prev: seq<Line>, p: Product)
    ensures |Incremented(prev, p).lines| == |prev|
    ensures forall i :: 0 <= i < |prev| ==>
      var l := Incremented(prev, p).lines[i];
      l.item == prev[i].item && (prev[i].item.id != p.id ==> l == prev[i])
  {
  }

  /** Repeating an increment `n` times, as a user pressing "+" would. */
  function IncrementTimes(lines: seq<Line>, p: Product, n: nat): seq<Line>
    decreases n
  {
    if n == 0 then lines else IncrementTimes(Incremented(lines, p).lines, p, n - 1)
  }

  /**
   * Repeated increments of the product on line `k`, when the argument carries
   * the line's ceiling, climb by one and then stay at the ceiling; every other
   * line of the cart is left as it was.
   */
  lemma {:induction false} IncrementSaturates(prev: seq<Line>, p: Product, k: nat, n: nat)
    requires UniqueIds(prev) && k < |prev| && prev[k].item.id == p.id
    requires p.stock.Some? && 1 <= prev[k].quantity <= p.stock.value
    ensures IncrementTimes(prev, p, n) ==
      prev[k := prev[k].(quantity := if prev[k].quantity + n <= p.stock.value then prev[k].quantity + n else p.stock.value)]
    decreases n
  {
    if n == 0 {
      assert prev[k := prev[k].(quantity := prev[k].quantity)] == prev;
    } else {
      IncrementExisting(prev, p, k);
      var next := Incremented(prev, p).lines;
      assert |next| == |prev|;
      assert forall i :: 0 <= i < |prev| ==> next[i].item == prev[i].item;
      assert next[k] == prev[k].(quantity := next[k].quantity);
      IncrementSaturates(next, p, k, n - 1);
    }
  }

  /** At the ceiling carried by the argument, a further increment changes nothing and raises the alert. */
  lemma IncrementAtCeiling(prev: seq<Line>, p: Product, k: nat)
    requires UniqueIds(prev) && k < |prev| && prev[k].item.id == p.id
    requires p.stock == Some(prev[k].quantity)
    ensures Incremented(prev, p) == Step(prev, true)
  {
    IncrementExisting(prev, p, k);
  }

  // ---------------------------------------------------------------------------
  // decrementQuantity

  lemma {:induction false} DecrementedAppend(a: seq<Line>, b: seq<Line>, id: int)
    ensures Decremented(a + b, id) == Decremented(a, id) + Decremented(b, id)
    decreases |b|
  {
    if b == [] {
      assert a + b == a;
    } else {
      var b' := b[..|b| - 1];
      assert (a + b)[..|a + b| - 1] == a + b';
      DecrementedAppend(a, b', id);
    }
  }

  /** Decrementing an id that is not in the cart changes nothing. */
  lemma {:induction false} DecrementMissing(lines: seq<Line>, id: int)
    requires forall i :: 0 <= i < |lines| ==> lines[i].item.id != id
    ensures Decremented(lines, id) == lines
  {
    if lines != [] {
      DecrementMissing(lines[..|lines| - 1], id);
      assert lines == lines[..|lines| - 1] + [lines[|lines| - 1]];
    }
  }

  /**
   * The matching line loses one unit when it has more than one, and is deleted
   * otherwise; the other lines keep their order.
   */
  lemma DecrementedThree(before: seq<Line>, l: Line, after: seq<Line>, id: int)
    ensures Decremented(before + [l] + after, id) == Decremented(before, id) + DecrementStep(l, id) + Decremented(after, id)
  {
    DecrementedAppend(before + [l], after, id);
    DecrementedAppend(before, [l], id);
    assert Decremented([l], id) == DecrementStep(l, id) by {
      assert [l][..0] == [];
    }
  }

  /** Decrementing only touches the line with the id, when no other line has it. */
  lemma DecrementAround(before: seq<Line>, l: Line, after: seq<Line>)
    requires forall i :: 0 <= i < |before| ==> before[i].item.id != l.item.id
    requires forall i :: 0 <= i < |after| ==> after[i].item.id != l.item.id
    ensures Decremented(before + [l] + after, l.item.id) == before + DecrementStep(l, l.item.id) + after
  {
    DecrementMissing(before, l.item.id);
    DecrementMissing(after, l.item.id);
    DecrementedThree(before, l, after, l.item.id);
  }

  lemma {:induction false} DecrementExisting(prev: seq<Line>, k: nat)
    requires UniqueIds(prev) && k < |prev|
    ensures Decremented(prev, prev[k].item.id) ==
      if prev[k].quantity > 1 then prev[k := prev[k].(quantity := prev[k].quantity - 1)]
      else prev[..k] + prev[k + 1..]
  {
    var before, after := prev[..k], prev[k + 1..];
    forall i | 0 <= i < |before| ensures before[i].item.id != prev[k].item.id {
      assert before[i] == prev[i];
    }
    forall i | 0 <= i < |after| ensures after[i].item.id != prev[k].item.id {
      assert after[i] == prev[k + 1 + i];
    }
    DecrementAround(before, prev[k], after);
    assert prev == before + [prev[k]] + after;
    if prev[k].quantity > 1 {
      var lower := prev[k].(quantity := prev[k].quantity - 1);
      assert DecrementStep(prev[k], prev[k].item.id) == [lower];
      assert prev[k := lower] == before + [lower] + after;
    } else {
      assert DecrementStep(prev[k], prev[k].item.id) == [];
      assert before + [] + after == before + after;
    }
  }

  /** Whatever the ids, decrementing keeps every line of another product, in order. */
  lemma {:induction false} DecrementKeepsOthers(lines: seq<Line>, id: int)
    ensures Sequences.Filter(Decremented(lines, id), KeepOther(id)) == Sequences.Filter(lines, KeepOther(id))
  {
    if lines != [] {
      var init, last := lines[..|lines| - 1], lines[|lines| - 1];
      DecrementKeepsOthers(init, id);
      assert lines == init + [last];
      Sequences.FilterAppend(init, [last], KeepOther(id));
      Sequences.FilterAppend(Decremented(init, id), DecrementStep(last, id), KeepOther(id));
    }
  }

  // ---------------------------------------------------------------------------
  // removeFromCart

  /** After a removal no line carries the id, and every remaining line was in the cart before. */
  lemma RemoveLeavesNone(lines: seq<Line>, id: int)
    ensures IndexOf(Removed(lines, id), id).None?
    ensures forall l :: l in Removed(lines, id) <==> l in lines && l.item.id != id
    ensures Sequences.IsSubsequence(Removed(lines, id), lines)
  {
    Sequences.FilterIsSubsequence(lines, KeepOther(id));
    Sequences.FilterMembers(lines, KeepOther(id));
    var r := Removed(lines, id);
    forall j | 0 <= j < |r| ensures r[j].item.id != id {
      assert r[j] in r;
    }
  }

  /** Removing an id that is not in the cart changes nothing. */
  lemma RemoveMissing(lines: seq<Line>, id: int)
    requires IndexOf(lines, id).None?
    ensures Removed(lines, id) == lines
  {
    Sequences.FilterKeepsAll(lines, KeepOther(id));
  }

  /** Lines none of which has the id are all kept. */
  lemma RemoveNone(lines: seq<Line>, id: int)
    requires forall i :: 0 <= i < |lines| ==> lines[i].item.id != id
    ensures Removed(lines, id) == lines
  {
    forall l | l in lines ensures KeepOther(id)(l) {
      var i :| 0 <= i < |lines| && lines[i] == l;
    }
    Sequences.FilterKeepsAll(lines, KeepOther(id));
  }

  /** Removing the id of the only line that has it leaves the lines around it. */
  lemma RemoveAround(before: seq<Line>, l: Line, after: seq<Line>)
    requires forall i :: 0 <= i < |before| ==> before[i].item.id != l.item.id
    requires forall i :: 0 <= i < |after| ==> after[i].item.id != l.item.id
    ensures Removed(before + [l] + after, l.item.id) == before + after
  {
    var id := l.item.id;
    calc {
      Removed(before + [l] + after, id);
    == { Sequences.FilterAppend(before + [l], after, KeepOther(id)); }
      Removed(before + [l], id) + Removed(after, id);
    == { Sequences.FilterAppend(before, [l], KeepOther(id)); }
      Removed(before, id) + Removed([l], id) + Removed(after, id);
    == { RemoveNone(before, id); RemoveNone(after, id); assert Removed([l], id) == []; }
      before + after;
    }
  }

  /** With unique ids, removal deletes exactly the matching line. */
  lemma {:induction false} RemoveExisting(prev: seq<Line>, k: nat)
    requires UniqueIds(prev) && k < |prev|
    ensures Removed(prev, prev[k].item.id) == prev[..k] + prev[k + 1..]
  {
    var before, after := prev[..k], prev[k + 1..];
    forall i | 0 <= i < |before| ensures before[i].item.id != prev[k].item.id {
      assert before[i] == prev[i];
    }
    forall i | 0 <= i < |after| ensures after[i].item.id != prev[k].item.id {
      assert after[i] == prev[k + 1 + i];
    }
    RemoveAround(before, prev[k], after);
    assert prev == before + [prev[k]] + after;
  }

  /** Removing twice is removing once. */
  lemma RemoveIdempotent(lines: seq<Line>, id: int)
    ensures Removed(Removed(lines, id), id) == Removed(lines, id)
  {
    Sequences.FilterIdempotent(lines, KeepOther(id));
  }

  // ---------------------------------------------------------------------------
  // The derived total

  lemma {:induction false} TotalAppend(a: seq<Line>, b: seq<Line>)
    ensures Total(a + b) == Total(a) + Total(b)
    decreases |b|
  {
    if b == [] {
      assert a + b == a;
    } else {
      var b' := b[..|b| - 1];
      assert (a + b)[..|a + b| - 1] == a + b';
      TotalAppend(a, b');
    }
  }

  lemma TotalSingle(l: Line)
    ensures Total([l]) == LineTotal(l)
  {
    assert [l][..0] == [];
  }

  /** The total splits around any one line. */
  lemma TotalAround(lines: seq<Line>, k: nat)
    requires k < |lines|
    ensures Total(lines) == Total(lines[..k]) + LineTotal(lines[k]) + Total(lines[k + 1..])
  {
    var before, after := lines[..k], lines[k + 1..];
    var withK := before + [lines[k]];
    assert lines == withK + after;
    TotalAppend(withK, after);
    TotalAppend(before, [lines[k]]);
    TotalSingle(lines[k]);
  }

  /** Replacing one line changes the total by the difference of the two line totals. */
  lemma TotalUpdate(lines: seq<Line>, k: nat, l: Line)
    requires k < |lines|
    ensures Total(lines[k := l]) == Total(lines) - LineTotal(lines[k]) + LineTotal(l)
  {
    var updated := lines[k := l];
    TotalAround(lines, k);
    TotalAround(updated, k);
    assert updated[..k] == lines[..k];
    assert updated[k + 1..] == lines[k + 1..];
  }

  /** Deleting one line lowers the total by that line's total. */
  lemma TotalDelete(lines: seq<Line>, k: nat)
    requires k < |lines|
    ensures Total(lines[..k] + lines[k + 1..]) == Total(lines) - LineTotal(lines[k])
  {
    TotalAround(lines, k);
    TotalAppend(lines[..k], lines[k + 1..]);
  }

  /** One more unit on line `k` raises the total by that product's price. */
  lemma TotalBump(lines: seq<Line>, k: nat)
    requires k < |lines|
    ensures Total(lines[k := Bump(lines[k])]) == Total(lines) + lines[k].item.price
  {
    var price, q := lines[k].item.price, lines[k].quantity;
    assert price * (q + 1) == price * q + price;
    TotalUpdate(lines, k, Bump(lines[k]));
  }

  lemma LowerLineTotal(l: Line)
    ensures LineTotal(l.(quantity := l.quantity - 1)) == LineTotal(l) - l.item.price
  {
    assert l.item.price * (l.quantity - 1) == l.item.price * l.quantity - l.item.price;
  }

  /** Decrementing a line of the cart lowers the total by exactly one unit's price, also when the line goes. */
  lemma TotalDecrement(prev: seq<Line>, k: nat)
    requires UniqueIds(prev) && AllPositive(prev) && k < |prev|
    ensures Total(Decremented(prev, prev[k].item.id)) == Total(prev) - prev[k].item.price
  {
    DecrementExisting(prev, k);
    var l := prev[k];
    if l.quantity > 1 {
      var lower := l.(quantity := l.quantity - 1);
      assert Decremented(prev, l.item.id) == prev[k := lower];
      TotalUpdate(prev, k, lower);
      LowerLineTotal(l);
    } else {
      assert l.quantity == 1;
      assert Decremented(prev, l.item.id) == prev[..k] + prev[k + 1..];
      TotalDelete(prev, k);
    }
  }

  /** Removing a line lowers the total by its price times its quantity. */
  lemma TotalRemove(prev: seq<Line>, k: nat)
    requires UniqueIds(prev) && k < |prev|
    ensures Total(Removed(prev, prev[k].item.id)) == Total(prev) - prev[k].item.price * prev[k].quantity
  {
    RemoveExisting(prev, k);
    TotalDelete(prev, k);
  }

  // ---------------------------------------------------------------------------
  // Invariants kept by the updaters

  /** Deleting one line keeps ids unique and keeps every per-line property. */
  lemma DeleteKeeps(lines: seq<Line>, k: nat)
    requires k < |lines|
    ensures UniqueIds(lines) ==> UniqueIds(lines[..k] + lines[k + 1..])
    ensures AllPositive(lines) ==> AllPositive(lines[..k] + lines[k + 1..])
    ensures WithinStock(lines) ==> WithinStock(lines[..k] + lines[k + 1..])
  {
    var r := lines[..k] + lines[k + 1..];
    assert forall i :: 0 <= i < |r| ==> r[i] == lines[if i < k then i else i + 1];
  }

  /** `addToCart` keeps ids unique and quantities positive. */
  lemma AddKeepsValid(prev: seq<Line>, p: Product)
    requires UniqueIds(prev) && AllPositive(prev)
    ensures UniqueIds(Added(prev, p).lines) && AllPositive(Added(prev, p).lines)
  {
    match IndexOf(prev, p.id)
    case None =>
    case Some(k) => AddExisting(prev, p, k);
  }

  /**
   * `addToCart` keeps every line within its ceiling when the argument carries a
   * ceiling of at least one and that ceiling is the one the product's line, if
   * any, already holds.
   */
  lemma AddKeepsCeiling(prev: seq<Line>, p: Product)
    requires UniqueIds(prev) && WithinStock(prev)
    requires p.stock.Some? && p.stock.value >= 1
    requires forall i :: 0 <= i < |prev| && prev[i].item.id == p.id ==> prev[i].item.stock == p.stock
    ensures WithinStock(Added(prev, p).lines)
  {
    match IndexOf(prev, p.id)
    case None =>
    case Some(k) => AddExisting(prev, p, k);
  }

  lemma IncrementKeepsValid(prev: seq<Line>, p: Product)
    requires UniqueIds(prev) && AllPositive(prev)
    ensures UniqueIds(Incremented(prev, p).lines) && AllPositive(Incremented(prev, p).lines)
  {
  }

  /**
   * `incrementQuantity` keeps every line within its ceiling when the argument
   * carries the same ceiling as the line it targets, as when a cart line is
   * passed back in.
   */
  lemma IncrementKeepsCeiling(prev: seq<Line>, p: Product)
    requires WithinStock(prev)
    requires forall i :: 0 <= i < |prev| && prev[i].item.id == p.id ==> prev[i].item.stock == p.stock
    ensures WithinStock(Incremented(prev, p).lines)
  {
  }

  /**
   * Passed a record without a ceiling, `incrementQuantity` pushes a line that is
   * already at its ceiling past it: nothing in the cart store stops it.
   */
  lemma IncrementPastCeiling(prev: seq<Line>, p: Product, k: nat)
    requires k < |prev| && prev[k].item.id == p.id && p.stock.None?
    requires prev[k].item.stock.Some? && prev[k].quantity >= prev[k].item.stock.value
    ensures !WithinStock(Incremented(prev, p).lines)
  {
    assert Incremented(prev, p).lines[k] == Bump(prev[k]);
  }

  lemma DecrementKeepsInvariants(prev: seq<Line>, id: int)
    requires UniqueIds(prev) && AllPositive(prev)
    ensures UniqueIds(Decremented(prev, id)) && AllPositive(Decremented(prev, id))
    ensures WithinStock(prev) ==> WithinStock(Decremented(prev, id))
  {
    match IndexOf(prev, id)
    case None => DecrementMissing(prev, id);
    case Some(k) =>
      DecrementExisting(prev, k);
      if prev[k].quantity <= 1 {
        DeleteKeeps(prev, k);
      }
  }

  lemma RemoveKeepsInvariants(prev: seq<Line>, id: int)
    requires UniqueIds(prev)
    ensures UniqueIds(Removed(prev, id))
    ensures AllPositive(prev) ==> AllPositive(Removed(prev, id))
    ensures WithinStock(prev) ==> WithinStock(Removed(prev, id))
  {
    match IndexOf(prev, id)
    case None => RemoveMissing(prev, id);
    case Some(k) =>
      RemoveExisting(prev, k);
      DeleteKeeps(prev, k);
  }

  // ---------------------------------------------------------------------------
  // The store

  /** The state cell holding the cart, created empty. */
  class CartStore {
    var lines: seq<Line>

    ghost predicate Valid()
      reads this
    {
      UniqueIds(lines) && AllPositive(lines)
    }

    constructor ()
      ensures Valid() && lines == [] && WithinStock(lines)
    {
      lines := [];
    }

    method AddToCart(p: Product) returns (alerted: bool)
      requires Valid()
      modifies this
      ensures Step(lines, alerted) == Added(old(lines), p)
      ensures Valid()
      ensures old(WithinStock(lines)) && p.stock.Some? && p.stock.value >= 1 &&
              (forall i :: 0 <= i < |old(lines)| && old(lines)[i].item.id == p.id ==> old(lines)[i].item.stock == p.stock)
              ==> WithinStock(lines)
    {
      AddKeepsValid(lines, p);
      if WithinStock(lines) && p.stock.Some? && p.stock.value >= 1 &&
         (forall i :: 0 <= i < |lines| && lines[i].item.id == p.id ==> lines[i].item.stock == p.stock) {
        AddKeepsCeiling(lines, p);
      }
      var next := Added(lines, p);
      lines, alerted := next.lines, next.alerted;
    }

    method IncrementQuantity(p: Product) returns (alerted: bool)
      requires Valid()
      modifies this
      ensures Step(lines, alerted) == Incremented(old(lines), p)
      ensures Valid()
      ensures old(WithinStock(lines)) &&
              (forall i :: 0 <= i < |old(lines)| && old(lines)[i].item.id == p.id ==> old(lines)[i].item.stock == p.stock)
              ==> WithinStock(lines)
    {
      IncrementKeepsValid(lines, p);
      var next := Incremented(lines, p);
      lines, alerted := next.lines, next.alerted;
    }

    /** `prevCart.reduce((acc, item) => ..., [])`, pushing onto `acc` line by line. */
    method DecrementQuantity(id: int)
      requires Valid()
      modifies this
      ensures lines == Decremented(old(lines), id)
      ensures Valid()
      ensures old(WithinStock(lines)) ==> WithinStock(lines)
    {
      DecrementKeepsInvariants(lines, id);
      var acc: seq<Line> := [];
      var i := 0;
      while i < |lines|
        invariant 0 <= i <= |lines|
        invariant acc == Decremented(lines[..i], id)
      {
        var item := lines[i];
        if item.item.id == id {
          if item.quantity > 1 {
            acc := acc + [item.(quantity := item.quantity - 1)];
          }
        } else {
          acc := acc + [item];
        }
        assert lines[..i + 1][..i] == lines[..i];
        i := i + 1;
      }
      assert lines[..i] == lines;
      lines := acc;
    }

    method RemoveFromCart(id: int)
      requires Valid()
      modifies this
      ensures lines == Removed(old(lines), id)
      ensures Valid()
      ensures old(WithinStock(lines)) ==> WithinStock(lines)
    {
      RemoveKeepsInvariants(lines, id);
      lines := Removed(lines, id);
    }

    /** The memoised `totalPrice`: always recomputed from the lines, never stored. */
    function TotalPrice(): (r: int)
      reads this
      ensures r == Total(lines)
      ensures (forall i :: 0 <= i < |lines| ==> lines[i].item.price >= 0) && AllPositive(lines) ==> r >= 0
    {
      Total(lines)
    }
  }
}
