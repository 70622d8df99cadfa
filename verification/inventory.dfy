/** The stack helpers of src/context/GameContext.jsx (`addToStack`,
    `removeFromStack`) and the material consumption loop of `CRAFT_ITEM`. */
module Inventory {
  /** One inventory entry `{ id, count }`. The helpers are generic in the id
      type; the game instantiates it with string item ids. */
  datatype Stack<K> = Stack(id: K, count: int)

  type Inv<K> = seq<Stack<K>>

  /** Every stack holds at least one unit. */
  predicate Positive<K>(inv: Inv<K>)
  {
    forall i :: 0 <= i < |inv| ==> inv[i].count >= 1
  }

  /** At most one stack per item id. */
  predicate DistinctIds<K(==)>(inv: Inv<K>)
  {
    forall i, j :: 0 <= i < j < |inv| ==> inv[i].id != inv[j].id
  }

  predicate Has<K(==)>(inv: Inv<K>, id: K)
  {
    exists i :: 0 <= i < |inv| && inv[i].id == id
  }

  /** `inv.findIndex(i => i.id === id)`: the first index holding `id`, or -1. */
  function FindIndex<K(==)>(inv: Inv<K>, id: K): (k: int)
    ensures -1 <= k < |inv|
    ensures k == -1 <==> !Has(inv, id)
    ensures k >= 0 ==> inv[k].id == id && forall j :: 0 <= j < k ==> inv[j].id != id
  {
    if |inv| == 0 then -1
    else if inv[0].id == id then 0
    else
      var k := FindIndex(inv[1..], id);
      if k == -1 then -1 else k + 1
  }

  /** Total units of `id` over all stacks. */
  function Units<K(==)>(inv: Inv<K>, id: K): int
  {
    if |inv| == 0 then 0
    else UnitsOf(inv[0], id) + Units(inv[1..], id)
  }

  function UnitsOf<K(==)>(st: Stack<K>, id: K): int
  {
    if st.id == id then st.count else 0
  }

  lemma {:induction false} UnitsAppend<K>(a: Inv<K>, b: Inv<K>, id: K)
    ensures Units(a + b, id) == Units(a, id) + Units(b, id)
    decreases |a|
  {
    if |a| == 0 {
      assert a + b == b;
    } else {
      assert (a + b)[1..] == a[1..] + b;
      UnitsAppend(a[1..], b, id);
    }
  }

  lemma UnitsSingle<K>(st: Stack<K>, id: K)
    ensures Units([st], id) == UnitsOf(st, id)
  {
    assert [st][1..] == [];
  }

  /** Splitting an inventory around index `k`. */
  lemma UnitsSplit<K>(inv: Inv<K>, k: int, id: K)
    requires 0 <= k < |inv|
    ensures Units(inv, id) == Units(inv[..k], id) + UnitsOf(inv[k], id) + Units(inv[k + 1..], id)
  {
    assert inv == inv[..k] + [inv[k]] + inv[k + 1..];
    UnitsAppend(inv[..k] + [inv[k]], inv[k + 1..], id);
    UnitsAppend(inv[..k], [inv[k]], id);
    UnitsSingle(inv[k], id);
  }

  /** With distinct ids, the stack found by `FindIndex` holds every unit of its id. */
  lemma {:induction false} UnitsAbsent<K>(inv: Inv<K>, id: K)
    requires !Has(inv, id)
    ensures Units(inv, id) == 0
    decreases |inv|
  {
    if |inv| > 0 {
      var p := inv[1..];
      forall i | 0 <= i < |p| ensures p[i].id != id {
        assert p[i] == inv[i + 1];
      }
      UnitsAbsent(p, id);
    }
  }

  lemma UnitsAtUnique<K>(inv: Inv<K>, k: int)
    requires DistinctIds(inv) && 0 <= k < |inv|
    ensures Units(inv, inv[k].id) == inv[k].count
  {
    var id := inv[k].id;
    UnitsSplit(inv, k, id);
    var before, after := inv[..k], inv[k + 1..];
    forall i | 0 <= i < |before| ensures before[i].id != id { assert before[i] == inv[i]; }
    forall i | 0 <= i < |after| ensures after[i].id != id { assert after[i] == inv[k + 1 + i]; }
    UnitsAbsent(before, id);
    UnitsAbsent(after, id);
  }

  /** `addToStack(inv, id, qty)`: grow the stack holding `id`, or append a new one. */
  function AddToStack<K(==)>(inv: Inv<K>, id: K, qty: int): (r: Inv<K>)
    ensures Has(inv, id) ==> |r| == |inv| && r[FindIndex(inv, id)] == Stack(id, inv[FindIndex(inv, id)].count + qty)
    ensures Has(inv, id) ==> forall j :: 0 <= j < |inv| && j != FindIndex(inv, id) ==> r[j] == inv[j]
    ensures !Has(inv, id) ==> r == inv + [Stack(id, qty)]
    ensures Has(r, id)
  {
    var k := FindIndex(inv, id);
    if k > -1 then inv[k := Stack(id, inv[k].count + qty)]
    else
      var r := inv + [Stack(id, qty)];
      assert r[|inv|].id == id;
      r
  }

  /** Adding changes the units of `id` by exactly `qty` and of no other id. */
  lemma AddToStackUnits<K>(inv: Inv<K>, id: K, qty: int, other: K)
    ensures Units(AddToStack(inv, id, qty), id) == Units(inv, id) + qty
    ensures other != id ==> Units(AddToStack(inv, id, qty), other) == Units(inv, other)
  {
    var r := AddToStack(inv, id, qty);
    var k := FindIndex(inv, id);
    if k > -1 {
      assert r == inv[..k] + [r[k]] + inv[k + 1..];
      UnitsSplit(inv, k, id);
      UnitsSplit(inv, k, other);
      UnitsSplit(r, k, id);
      UnitsSplit(r, k, other);
      assert r[..k] == inv[..k] && r[k + 1..] == inv[k + 1..];
    } else {
      UnitsAppend(inv, [Stack(id, qty)], id);
      UnitsAppend(inv, [Stack(id, qty)], other);
      UnitsSingle(Stack(id, qty), id);
      UnitsSingle(Stack(id, qty), other);
    }
  }

  /** `removeFromStack(inv, index, qty)`: shrink the stack at `index` when it
      holds more than `qty`, otherwise delete the whole entry (even when it
      holds fewer than `qty`). An out-of-range index throws in the source. */
  function RemoveFromStack<K>(inv: Inv<K>, index: int, qty: int): Inv<K>
    requires 0 <= index < |inv|
  {
    var item := inv[index];
    if item.count > qty then inv[index := Stack(item.id, item.count - qty)]
    else inv[..index] + inv[index + 1..]
  }

  /** A larger stack shrinks in place; otherwise the entry goes and the later
      ones move up one place. Nothing else changes either way. */
  lemma RemoveFromStackEffect<K>(inv: Inv<K>, index: int, qty: int)
    requires 0 <= index < |inv|
    ensures var r := RemoveFromStack(inv, index, qty);
      inv[index].count > qty ==>
        |r| == |inv| && r[index] == Stack(inv[index].id, inv[index].count - qty) &&
        forall j :: 0 <= j < |inv| && j != index ==> r[j] == inv[j]
    ensures var r := RemoveFromStack(inv, index, qty);
      inv[index].count <= qty ==>
        |r| == |inv| - 1 && forall j :: 0 <= j < |r| ==> r[j] == inv[if j < index then j else j + 1]
  {
  }

  /** Adding keeps one stack per id, and keeps stacks non-empty for a positive quantity. */
  lemma AddToStackKeepsShape<K>(inv: Inv<K>, id: K, qty: int)
    ensures DistinctIds(inv) ==> DistinctIds(AddToStack(inv, id, qty))
    ensures Positive(inv) && qty >= 1 ==> Positive(AddToStack(inv, id, qty))
  {
  }

  /** Removal never leaves an empty stack behind and keeps one stack per id,
      whatever the quantity. */
  lemma RemoveFromStackKeepsShape<K>(inv: Inv<K>, index: int, qty: int)
    requires 0 <= index < |inv|
    ensures Positive(inv) ==> Positive(RemoveFromStack(inv, index, qty))
    ensures DistinctIds(inv) ==> DistinctIds(RemoveFromStack(inv, index, qty))
  {
    var r := RemoveFromStack(inv, index, qty);
    if inv[index].count <= qty {
      assert forall j :: 0 <= j < |r| ==> r[j] == inv[if j < index then j else j + 1];
    }
  }

  /** Removing changes the units of the stack's id by `min(count, qty)` (for
      `qty >= 0`) and leaves every other id alone. */
  lemma RemoveFromStackUnits<K>(inv: Inv<K>, index: int, qty: int, other: K)
    requires 0 <= index < |inv| && qty >= 0
    ensures Units(RemoveFromStack(inv, index, qty), inv[index].id) ==
            Units(inv, inv[index].id) - (if inv[index].count > qty then qty else inv[index].count)
    ensures other != inv[index].id ==> Units(RemoveFromStack(inv, index, qty), other) == Units(inv, other)
  {
    var r := RemoveFromStack(inv, index, qty);
    var id := inv[index].id;
    UnitsSplit(inv, index, id);
    UnitsSplit(inv, index, other);
    if inv[index].count > qty {
      assert r[..index] == inv[..index] && r[index + 1..] == inv[index + 1..];
      UnitsSplit(r, index, id);
      UnitsSplit(r, index, other);
    } else {
      UnitsAppend(inv[..index], inv[index + 1..], id);
      UnitsAppend(inv[..index], inv[index + 1..], other);
    }
  }

  /** One pass of the `CRAFT_ITEM` inner loop: remove one unit of `id` from its
      first stack, if there is one. Written by recursion over the inventory;
      `ConsumeOneIsRemove` shows it is `removeFromStack(inv, findIndex(id), 1)`. */
  function ConsumeOne<K(==)>(inv: Inv<K>, id: K): Inv<K>
  {
    if |inv| == 0 then inv
    else if inv[0].id == id then
      (if inv[0].count > 1 then [Stack(id, inv[0].count - 1)] + inv[1..] else inv[1..])
    else [inv[0]] + ConsumeOne(inv[1..], id)
  }

  lemma UnitsCons<K>(h: Stack<K>, t: Inv<K>, id: K)
    ensures Units([h] + t, id) == UnitsOf(h, id) + Units(t, id)
  {
    assert ([h] + t)[1..] == t;
  }

  /** Removal further along an inventory commutes with putting a stack in front. */
  lemma RemoveCons<K>(h: Stack<K>, t: Inv<K>, k: int, qty: int)
    requires 0 <= k < |t|
    ensures [h] + RemoveFromStack(t, k, qty) == RemoveFromStack([h] + t, k + 1, qty)
  {
    var inv := [h] + t;
    var a, b := [h] + RemoveFromStack(t, k, qty), RemoveFromStack(inv, k + 1, qty);
    if t[k].count > qty {
      forall i | 0 <= i < |a| ensures a[i] == b[i] {
        if i > 0 { assert a[i] == t[k := Stack(t[k].id, t[k].count - qty)][i - 1]; }
      }
    } else {
      assert |a| == |b|;
      forall i | 0 <= i < |a| ensures a[i] == b[i] {
        if i > 0 { assert a[i] == (t[..k] + t[k + 1..])[i - 1]; }
      }
    }
  }

  lemma ConsumeOneAtHead<K>(inv: Inv<K>, id: K)
    requires |inv| > 0 && inv[0].id == id
    ensures ConsumeOne(inv, id) == RemoveFromStack(inv, 0, 1)
  {
    if inv[0].count > 1 {
      assert [Stack(id, inv[0].count - 1)] + inv[1..] == inv[0 := Stack(id, inv[0].count - 1)];
    } else {
      assert inv[1..] == inv[..0] + inv[1..];
    }
  }

  /** The recursive `ConsumeOne` is the source's find-then-remove step. */
  lemma {:induction false} ConsumeOneIsRemove<K>(inv: Inv<K>, id: K)
    ensures var k := FindIndex(inv, id);
      ConsumeOne(inv, id) == if k > -1 then RemoveFromStack(inv, k, 1) else inv
    decreases |inv|
  {
    if |inv| > 0 {
      if inv[0].id == id {
        ConsumeOneAtHead(inv, id);
      } else {
        var h, t := inv[0], inv[1..];
        ConsumeOneIsRemove(t, id);
        var k := FindIndex(t, id);
        assert inv == [h] + t;
        assert FindIndex(inv, id) == if k == -1 then -1 else k + 1;
        assert ConsumeOne(inv, id) == [h] + ConsumeOne(t, id);
        if k > -1 {
          RemoveCons(h, t, k, 1);
        }
      }
    }
  }

  lemma {:induction false} ConsumeOnePositive<K>(inv: Inv<K>, id: K)
    requires Positive(inv)
    ensures Positive(ConsumeOne(inv, id))
    decreases |inv|
  {
    if |inv| > 0 && inv[0].id != id {
      var t := inv[1..];
      forall i | 0 <= i < |t| ensures t[i].count >= 1 { assert t[i] == inv[i + 1]; }
      ConsumeOnePositive(t, id);
    }
  }

  lemma ConsumeOneDistinct<K>(inv: Inv<K>, id: K)
    requires DistinctIds(inv)
    ensures DistinctIds(ConsumeOne(inv, id))
  {
    ConsumeOneIsRemove(inv, id);
    var k := FindIndex(inv, id);
    if k > -1 { RemoveFromStackKeepsShape(inv, k, 1); }
  }

  /** One pass takes a unit of `id` when there is one, and nothing else. */
  lemma {:induction false} ConsumeOneUnits<K>(inv: Inv<K>, id: K, other: K)
    requires Positive(inv)
    ensures Units(ConsumeOne(inv, id), other) ==
            if other == id then Max0(Units(inv, id) - 1) else Units(inv, other)
    decreases |inv|
  {
    if |inv| > 0 {
      var h, t := inv[0], inv[1..];
      forall i | 0 <= i < |t| ensures t[i].count >= 1 { assert t[i] == inv[i + 1]; }
      UnitsNonNegative(t, other);
      if h.id == id {
        if h.count > 1 {
          UnitsCons(Stack(id, h.count - 1), t, other);
        }
      } else {
        ConsumeOneUnits(t, id, other);
        UnitsCons(h, ConsumeOne(t, id), other);
      }
    }
  }

  lemma {:induction false} UnitsNonNegative<K>(inv: Inv<K>, id: K)
    requires Positive(inv)
    ensures Units(inv, id) >= 0
    decreases |inv|
  {
    if |inv| > 0 {
      var p := inv[1..];
      forall i | 0 <= i < |p| ensures p[i].count >= 1 { assert p[i] == inv[i + 1]; }
      UnitsNonNegative(p, id);
    }
  }

  /** `for (let i = 0; i < count; i++)` around `ConsumeOne`. */
  function ConsumeN<K(==)>(inv: Inv<K>, id: K, n: int): Inv<K>
    decreases if n < 0 then 0 else n
  {
    if n <= 0 then inv else ConsumeN(ConsumeOne(inv, id), id, n - 1)
  }

  /** The units a requirement list asks for `id`; a non-positive count asks for none. */
  function Needed<K(==)>(reqs: seq<(K, int)>, id: K): (n: int)
    ensures n >= 0
  {
    if |reqs| == 0 then 0
    else (if reqs[0].0 == id && reqs[0].1 > 0 then reqs[0].1 else 0) + Needed(reqs[1..], id)
  }

  /** `n` rounds of the loop take `n` units of `id`, down to zero, and
      nothing of any other id. */
  lemma {:induction false} ConsumeNUnits<K>(inv: Inv<K>, id: K, n: int, other: K)
    requires Positive(inv)
    ensures Units(ConsumeN(inv, id, n), other) ==
            Max0(Units(inv, other) - (if other == id then Max0(n) else 0))
    decreases if n < 0 then 0 else n
  {
    UnitsNonNegative(inv, other);
    if n > 0 {
      var next := ConsumeOne(inv, id);
      ConsumeOneUnits(inv, id, other);
      ConsumeOnePositive(inv, id);
      ConsumeNUnits(next, id, n - 1, other);
      var u, u' := Units(inv, other), Units(next, other);
      if other == id {
        assert u' == if u > 0 then u - 1 else 0;
        assert Max0(u' - Max0(n - 1)) == Max0(u - Max0(n));
      } else {
        assert u' == u;
      }
    }
  }

  function Max0(x: int): int { if x < 0 then 0 else x }

  /** `Object.entries(recipe.req).forEach(...)`: consume every requirement in turn. */
  function ConsumeAll<K(==)>(inv: Inv<K>, reqs: seq<(K, int)>): Inv<K>
    decreases |reqs|
  {
    if |reqs| == 0 then inv else ConsumeAll(ConsumeN(inv, reqs[0].0, reqs[0].1), reqs[1..])
  }

  /** Consumption takes exactly what is asked for, down to zero, of each id. */
  lemma {:induction false} ConsumeAllUnits<K>(inv: Inv<K>, reqs: seq<(K, int)>, id: K)
    requires Positive(inv)
    ensures Units(ConsumeAll(inv, reqs), id) == Max0(Units(inv, id) - Needed(reqs, id))
    decreases |reqs|
  {
    UnitsNonNegative(inv, id);
    if |reqs| > 0 {
      var next := ConsumeN(inv, reqs[0].0, reqs[0].1);
      ConsumeNUnits(inv, reqs[0].0, reqs[0].1, id);
      ConsumeNPositive(inv, reqs[0].0, reqs[0].1);
      ConsumeAllUnits(next, reqs[1..], id);
      var first := if reqs[0].0 == id && reqs[0].1 > 0 then reqs[0].1 else 0;
      var u, u', rest := Units(inv, id), Units(next, id), Needed(reqs[1..], id);
      assert Needed(reqs, id) == first + rest;
      if reqs[0].0 == id {
        assert u' == Max0(u - first);
      } else {
        assert u' == u;
      }
      Max0Twice(u, first, rest);
    }
  }

  lemma Max0Twice(u: int, a: int, b: int)
    requires a >= 0 && b >= 0
    ensures Max0(Max0(u - a) - b) == Max0(u - (a + b))
  {
  }

  /** Consumption keeps every stack non-empty. */
  lemma {:induction false} ConsumeNPositive<K>(inv: Inv<K>, id: K, n: int)
    requires Positive(inv)
    ensures Positive(ConsumeN(inv, id, n))
    decreases if n < 0 then 0 else n
  {
    if n > 0 {
      ConsumeOnePositive(inv, id);
      ConsumeNPositive(ConsumeOne(inv, id), id, n - 1);
    }
  }

  /** Consumption keeps at most one stack per id. */
  lemma {:induction false} ConsumeNDistinct<K>(inv: Inv<K>, id: K, n: int)
    requires DistinctIds(inv)
    ensures DistinctIds(ConsumeN(inv, id, n))
    decreases if n < 0 then 0 else n
  {
    if n > 0 {
      ConsumeOneDistinct(inv, id);
      ConsumeNDistinct(ConsumeOne(inv, id), id, n - 1);
    }
  }

  lemma {:induction false} ConsumeAllPositive<K>(inv: Inv<K>, reqs: seq<(K, int)>)
    requires Positive(inv)
    ensures Positive(ConsumeAll(inv, reqs))
    decreases |reqs|
  {
    if |reqs| > 0 {
      ConsumeNPositive(inv, reqs[0].0, reqs[0].1);
      ConsumeAllPositive(ConsumeN(inv, reqs[0].0, reqs[0].1), reqs[1..]);
    }
  }

  lemma {:induction false} ConsumeAllDistinct<K>(inv: Inv<K>, reqs: seq<(K, int)>)
    requires DistinctIds(inv)
    ensures DistinctIds(ConsumeAll(inv, reqs))
    decreases |reqs|
  {
    if |reqs| > 0 {
      ConsumeNDistinct(inv, reqs[0].0, reqs[0].1);
      ConsumeAllDistinct(ConsumeN(inv, reqs[0].0, reqs[0].1), reqs[1..]);
    }
  }
}
