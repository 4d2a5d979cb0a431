/** The shopping-list items and the list transforms both components apply to them:
    toggling the purchased flag by id (Array.prototype.map), deleting by id
    (Array.prototype.filter), and the counts shown under the list. */
module Items {

  /** One entry of the list (ShoppingItem in App.tsx, Termek in BevLista.tsx, whose fields
      nev, mennyiseg, egyseg and megvasarolva are name, quantity, unit and purchased). */
  datatype Item = Item(id: int, name: string, quantity: real, unit: string, purchased: bool)

  /** The messages the components can show, one constructor per kind of message. */
  datatype Error =
    | MissingField     // every field is required
    | InvalidQuantity  // the quantity must be a number (App: and greater than 0)
    | DuplicateName    // the item is already on the list
    | AddFailed        // App only: the POST of a new item failed
    | DeleteFailed     // App only: the DELETE of an item failed

  /** What is shown under the list: nothing for an empty list, the "all purchased"
      message, or the number of items still to buy. */
  datatype SummaryView = Hidden | AllDone | Remaining(count: nat)

  function IdOf(x: Item): int { x.id }

  function NameOf(x: Item): string { x.name }

  /** No two items of the list share a key. */
  ghost predicate DistinctKeys<K>(items: seq<Item>, key: Item -> K) {
    forall i, j :: 0 <= i < j < |items| ==> key(items[i]) != key(items[j])
  }

  /** Every quantity on the list is positive. */
  ghost predicate PositiveQuantities(items: seq<Item>) {
    forall i :: 0 <= i < |items| ==> items[i].quantity > 0.0
  }

  /** items.some(item => item.name === name) */
  predicate NameTaken(items: seq<Item>, name: string): (b: bool)
    ensures b <==> exists x :: x in items && NameOf(x) == name
    ensures b ==> items != []
  {
    assert (exists x :: x in items && NameOf(x) == name) ==> exists i :: 0 <= i < |items| && items[i].name == name by {
      if exists x :: x in items && NameOf(x) == name {
        var x :| x in items && NameOf(x) == name;
        var i :| 0 <= i < |items| && items[i] == x;
      }
    }
    assert (exists i :: 0 <= i < |items| && items[i].name == name) ==> exists x :: x in items && NameOf(x) == name by {
      if exists i :: 0 <= i < |items| && items[i].name == name {
        var i :| 0 <= i < |items| && items[i].name == name;
        assert items[i] in items && NameOf(items[i]) == name;
      }
    }
    exists i :: 0 <= i < |items| && items[i].name == name
  }

  /** a is b with some elements left out, the rest in the same order. */
  ghost predicate IsSubsequence<T>(a: seq<T>, b: seq<T>)
    decreases |b|
  {
    a == [] || (b != [] && (if a[0] == b[0] then IsSubsequence(a[1..], b[1..]) else IsSubsequence(a, b[1..])))
  }

  function Flip(x: Item): Item {
    x.(purchased := !x.purchased)
  }

  /** The list after toggling the purchased flag of the items whose id is id. */
  function Toggle(items: seq<Item>, id: int): (r: seq<Item>)
    ensures |r| == |items|
    ensures forall i :: 0 <= i < |items| ==>
              r[i].id == items[i].id && r[i].name == items[i].name
              && r[i].quantity == items[i].quantity && r[i].unit == items[i].unit
    ensures forall i :: 0 <= i < |items| ==>
              r[i].purchased == (if items[i].id == id then !items[i].purchased else items[i].purchased)
  {
    if items == [] then [] else [if items[0].id == id then Flip(items[0]) else items[0]] + Toggle(items[1..], id)
  }

  /** The list after removing every item whose id is id. */
  function Remove(items: seq<Item>, id: int): (r: seq<Item>)
    ensures |r| <= |items|
    ensures forall x :: x in r <==> x in items && x.id != id
  {
    if items == [] then []
    else
      var rest := Remove(items[1..], id);
      assert items == [items[0]] + items[1..];
      if items[0].id == id then rest else [items[0]] + rest
  }

  /** Deleting takes out every occurrence of the items with that id and keeps every
      occurrence of the others. */
  lemma {:induction false} RemoveExactly(items: seq<Item>, id: int)
    ensures forall x :: multiset(Remove(items, id))[x] == if x.id == id then 0 else multiset(items)[x]
  {
    if items != [] {
      RemoveExactly(items[1..], id);
      assert items == [items[0]] + items[1..];
    }
  }

  /** Deleting keeps the relative order of the remaining items. */
  lemma {:induction false} RemoveKeepsOrder(items: seq<Item>, id: int)
    ensures IsSubsequence(Remove(items, id), items)
  {
    if items != [] {
      RemoveKeepsOrder(items[1..], id);
      var rest := Remove(items[1..], id);
      if items[0].id == id && rest != [] {
        assert rest[0] in rest;
      }
    }
  }

  /** items.filter(item => !item.purchased).length */
  function RemainingCount(items: seq<Item>): (n: nat)
    ensures n <= |items|
    ensures n == 0 <==> forall i :: 0 <= i < |items| ==> items[i].purchased
    ensures n == |items| <==> forall i :: 0 <= i < |items| ==> !items[i].purchased
  {
    if items == [] then 0
    else
      var rest := RemainingCount(items[1..]);
      assert forall i :: 1 <= i < |items| ==> items[i] == items[1..][i - 1];
      (if items[0].purchased then 0 else 1) + rest
  }

  /** items.length > 0 && items.every(item => item.purchased) */
  function AllPurchased(items: seq<Item>): (b: bool)
    ensures b <==> items != [] && RemainingCount(items) == 0
  {
    |items| > 0 && forall i :: 0 <= i < |items| ==> items[i].purchased
  }

  /** Toggling the same id twice gives back the original list. */
  lemma {:induction false} ToggleTwice(items: seq<Item>, id: int)
    ensures Toggle(Toggle(items, id), id) == items
  {
    var r := Toggle(Toggle(items, id), id);
    forall i | 0 <= i < |items| ensures r[i] == items[i] {
      assert r[i].purchased == items[i].purchased;
    }
  }

  /** Toggling an id that no item has changes nothing. */
  lemma ToggleUnknownId(items: seq<Item>, id: int)
    requires forall i :: 0 <= i < |items| ==> items[i].id != id
    ensures Toggle(items, id) == items
  {
    var r := Toggle(items, id);
    forall i | 0 <= i < |items| ensures r[i] == items[i] {
    }
  }

  /** Toggling keeps ids and names distinct and quantities positive. */
  lemma ToggleKeepsInvariants(items: seq<Item>, id: int)
    ensures DistinctKeys(items, IdOf) ==> DistinctKeys(Toggle(items, id), IdOf)
    ensures DistinctKeys(items, NameOf) ==> DistinctKeys(Toggle(items, id), NameOf)
    ensures PositiveQuantities(items) ==> PositiveQuantities(Toggle(items, id))
  {
    var r := Toggle(items, id);
    assert forall i :: 0 <= i < |items| ==> IdOf(r[i]) == IdOf(items[i]) && NameOf(r[i]) == NameOf(items[i]);
  }

  /** Toggling the one item with a given id moves it between the purchased and the remaining items. */
  lemma {:induction false} ToggleRemainingCount(items: seq<Item>, id: int, k: nat)
    requires k < |items| && items[k].id == id
    requires forall i :: 0 <= i < |items| && i != k ==> items[i].id != id
    ensures RemainingCount(Toggle(items, id)) == RemainingCount(items) + (if items[k].purchased then 1 else -1)
  {
    var r := Toggle(items, id);
    assert r[1..] == Toggle(items[1..], id);
    if k == 0 {
      ToggleUnknownId(items[1..], id);
    } else {
      ToggleRemainingCount(items[1..], id, k - 1);
    }
  }

  /** Deleting an id that no item has changes nothing. */
  lemma {:induction false} RemoveUnknownId(items: seq<Item>, id: int)
    requires forall i :: 0 <= i < |items| ==> items[i].id != id
    ensures Remove(items, id) == items
  {
    if items != [] {
      RemoveUnknownId(items[1..], id);
    }
  }

  /** Deleting commutes with concatenation: the kept items stay in their relative order. */
  lemma {:induction false} RemoveAppend(a: seq<Item>, b: seq<Item>, id: int)
    ensures Remove(a + b, id) == Remove(a, id) + Remove(b, id)
  {
    if a == [] {
      assert a + b == b;
    } else {
      assert (a + b)[0] == a[0] && (a + b)[1..] == a[1..] + b;
      RemoveAppend(a[1..], b, id);
      if a[0].id != id {
        assert Remove(a, id) + Remove(b, id) == [a[0]] + (Remove(a[1..], id) + Remove(b, id));
      }
    }
  }

  /** Deleting keeps any key distinct and quantities positive. */
  lemma {:induction false} RemoveKeepsInvariants<K>(items: seq<Item>, id: int, key: Item -> K)
    ensures DistinctKeys(items, key) ==> DistinctKeys(Remove(items, id), key)
    ensures PositiveQuantities(items) ==> PositiveQuantities(Remove(items, id))
  {
    if items != [] {
      var r := Remove(items, id);
      var rest := Remove(items[1..], id);
      RemoveKeepsInvariants(items[1..], id, key);
      if DistinctKeys(items, key) && items[0].id != id {
        forall j | 0 <= j < |rest| ensures key(items[0]) != key(rest[j]) {
          assert rest[j] in items[1..];
        }
        assert r == [items[0]] + rest;
      }
      if PositiveQuantities(items) {
        forall i | 0 <= i < |r| ensures r[i].quantity > 0.0 {
          assert r[i] in items;
        }
      }
    }
  }

  /** Deleting never adds to the remaining items. */
  lemma {:induction false} RemoveRemainingCount(items: seq<Item>, id: int)
    ensures RemainingCount(Remove(items, id)) <= RemainingCount(items)
  {
    if items != [] {
      RemoveRemainingCount(items[1..], id);
      assert RemainingCount(items) == (if items[0].purchased then 0 else 1) + RemainingCount(items[1..]);
      if items[0].id != id {
        assert Remove(items, id) == [items[0]] + Remove(items[1..], id);
      }
    }
  }

  /** Appending an unpurchased item adds one to the remaining items. */
  lemma {:induction false} AppendRemainingCount(items: seq<Item>, x: Item)
    ensures RemainingCount(items + [x]) == RemainingCount(items) + (if x.purchased then 0 else 1)
  {
    if items != [] {
      assert (items + [x])[1..] == items[1..] + [x];
      AppendRemainingCount(items[1..], x);
    }
  }

  /** Appending an item whose key is new keeps the keys distinct. */
  lemma AppendKeepsDistinct<K>(items: seq<Item>, x: Item, key: Item -> K)
    requires DistinctKeys(items, key)
    requires forall i :: 0 <= i < |items| ==> key(items[i]) != key(x)
    ensures DistinctKeys(items + [x], key)
  {
    var r := items + [x];
    forall i, j | 0 <= i < j < |r| ensures key(r[i]) != key(r[j]) {
      if j == |items| {
        assert r[i] == items[i];
      } else {
        assert r[i] == items[i] && r[j] == items[j];
      }
    }
  }

  /** Appending an item with a new id, a new name and a positive quantity keeps ids and
      names distinct and quantities positive. */
  lemma AppendKeepsInvariants(items: seq<Item>, x: Item)
    ensures DistinctKeys(items, IdOf) && (forall i :: 0 <= i < |items| ==> items[i].id != x.id)
            ==> DistinctKeys(items + [x], IdOf)
    ensures DistinctKeys(items, NameOf) && (forall i :: 0 <= i < |items| ==> items[i].name != x.name)
            ==> DistinctKeys(items + [x], NameOf)
    ensures PositiveQuantities(items) && x.quantity > 0.0 ==> PositiveQuantities(items + [x])
  {
    if DistinctKeys(items, IdOf) && (forall i :: 0 <= i < |items| ==> items[i].id != x.id) {
      AppendKeepsDistinct(items, x, IdOf);
    }
    if DistinctKeys(items, NameOf) && (forall i :: 0 <= i < |items| ==> items[i].name != x.name) {
      AppendKeepsDistinct(items, x, NameOf);
    }
    assert forall i :: 0 <= i < |items| ==> (items + [x])[i] == items[i];
  }

  /** Deleting the only item of a one-item list leaves an empty list, which counts as not all purchased. */
  lemma RemoveOnlyItem(x: Item)
    ensures Remove([x], x.id) == []
    ensures !AllPurchased(Remove([x], x.id)) && RemainingCount(Remove([x], x.id)) == 0
  {
  }
}
