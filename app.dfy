/** ShoppingListApp in src/App.tsx: the shopping list backed by a remote REST endpoint.
    Each handler is one atomic transition of the component state; the outcome of each
    network request is a parameter (true when the fetch promise resolved). */
module App {
  import opened Wrappers
  import Text
  import Numbers
  import opened Items

  /** A record as the endpoint returns it, with its Hungarian field names
      (Termék, Mennyiség, Mennyiségi egység). */
  datatype Record = Record(id: int, termek: string, mennyiseg: real, mennyisegiEgyseg: string)

  /** The mapping fetchItems applies to the records it receives. */
  function MapRecords(records: seq<Record>): (items: seq<Item>)
    ensures |items| == |records|
    ensures forall i :: 0 <= i < |records| ==>
              items[i].id == records[i].id && items[i].name == records[i].termek
              && items[i].quantity == records[i].mennyiseg && items[i].unit == records[i].mennyisegiEgyseg
              && !items[i].purchased
  {
    if records == [] then []
    else
      var r := records[0];
      [Item(r.id, r.termek, r.mennyiseg, r.mennyisegiEgyseg, false)] + MapRecords(records[1..])
  }

  /** A freshly fetched list has every item still to buy. */
  lemma FetchedItemsAllRemaining(records: seq<Record>)
    ensures RemainingCount(MapRecords(records)) == |records|
    ensures !AllPurchased(MapRecords(records))
  {
    var items := MapRecords(records);
    assert forall i :: 0 <= i < |items| ==> !items[i].purchased;
  }

  // ---- Ids of new items ----

  /** A JavaScript number as far as the id arithmetic of addItem needs it. */
  datatype JsNumber = Finite(n: int) | NegInfinity

  function JsMax(a: JsNumber, b: JsNumber): JsNumber {
    match (a, b)
    case (NegInfinity, _) => b
    case (_, NegInfinity) => a
    case (Finite(x), Finite(y)) => if x >= y then a else b
  }

  /** Math.max(...ns), which is -Infinity for no arguments. */
  function MathMax(ns: seq<JsNumber>): (m: JsNumber)
    ensures m == NegInfinity <==> forall i :: 0 <= i < |ns| ==> ns[i] == NegInfinity
    ensures forall i :: 0 <= i < |ns| && ns[i].Finite? ==> m.Finite? && ns[i].n <= m.n
    ensures m.Finite? ==> exists i :: 0 <= i < |ns| && ns[i] == m
  {
    if ns == [] then NegInfinity
    else
      var rest := MathMax(ns[1..]);
      assert forall i :: 1 <= i < |ns| ==> ns[i] == ns[1..][i - 1];
      JsMax(ns[0], rest)
  }

  function JsPlusOne(x: JsNumber): JsNumber {
    match x
    case Finite(n) => Finite(n + 1)
    case NegInfinity => NegInfinity
  }

  function JsIds(items: seq<Item>): (ns: seq<JsNumber>)
    ensures |ns| == |items| && forall i :: 0 <= i < |items| ==> ns[i] == Finite(items[i].id)
  {
    seq(|items|, i requires 0 <= i < |items| => Finite(items[i].id))
  }

  /** Lines 58-59 as written: Math.max over the ids, plus one. */
  function NewIdAsWritten(ids: seq<JsNumber>): (r: JsNumber)
    ensures r == NegInfinity <==> forall i :: 0 <= i < |ids| ==> ids[i] == NegInfinity
  {
    JsPlusOne(MathMax(ids))
  }

  /** As written, an item added to an empty list gets the id -Infinity, and so does every
      item added after it: once the list starts empty, all new ids are equal. */
  lemma AsWrittenIdsCollide(ids: seq<JsNumber>)
    requires forall i :: 0 <= i < |ids| ==> ids[i] == NegInfinity
    ensures NewIdAsWritten(ids) == NegInfinity
    ensures NewIdAsWritten(ids + [NewIdAsWritten(ids)]) == NewIdAsWritten(ids)
  {
    var next := ids + [NegInfinity];
    assert forall i :: 0 <= i < |next| ==> next[i] == NegInfinity;
  }

  /** The id the model gives a new item: one more than the largest id on the list,
      and 1 on an empty list. */
  function NextId(items: seq<Item>): (r: int)
    ensures forall i :: 0 <= i < |items| ==> items[i].id < r
    ensures items != [] ==> exists i :: 0 <= i < |items| && items[i].id == r - 1
    ensures items == [] ==> r == 1
  {
    if items == [] then 1
    else
      var rest := NextId(items[1..]);
      assert forall i :: 1 <= i < |items| ==> items[i] == items[1..][i - 1];
      if items[1..] == [] || items[0].id >= rest then items[0].id + 1 else rest
  }

  /** On a non-empty list NextId is exactly the id lines 58-59 compute. */
  lemma NextIdAgreesWithAsWritten(items: seq<Item>)
    requires items != []
    ensures NewIdAsWritten(JsIds(items)) == Finite(NextId(items))
  {
    var ns := JsIds(items);
    var m := MathMax(ns);
    assert ns[0].Finite?;
    var i :| 0 <= i < |ns| && ns[i] == m;
    var j :| 0 <= j < |items| && items[j].id == NextId(items) - 1;
    assert ns[j].n <= m.n;
  }

  // ---- addItem ----

  /** The first check of addItem: the trimmed name, or the raw quantity or unit, is empty. */
  predicate MissingInput(itemName: string, quantity: string, unit: string): (b: bool)
    ensures b <==> Text.IsBlank(itemName) || quantity == [] || unit == []
  {
    Text.Trim(itemName) == [] || quantity == [] || unit == []
  }

  /** The second check: Number(quantity) is a number greater than 0. A blank quantity,
      which Number reads as 0, never passes it. */
  predicate PositiveQuantity(quantity: string): (b: bool)
    ensures b ==> !Text.IsBlank(quantity)
  {
    Numbers.ToNumber(quantity).Some? && Numbers.ToNumber(quantity).value > 0.0
  }

  /** Line 53 as written: the raw input is compared with the stored names. On an input
      without surrounding whitespace it is the check the model uses. */
  predicate DuplicateAsWritten(items: seq<Item>, itemName: string): (b: bool)
    ensures Text.IsTrimmed(itemName) ==> (b <==> NameTaken(items, Text.Trim(itemName)))
  {
    Text.TrimFixesTrimmed(itemName);
    NameTaken(items, itemName)
  }

  /** The duplicate check the model uses: the name that would be stored is compared. While
      every stored name is trimmed, it rejects whatever line 53 rejects. */
  predicate Duplicate(items: seq<Item>, itemName: string): (b: bool)
    ensures (forall i :: 0 <= i < |items| ==> Text.IsTrimmed(items[i].name)) && NameTaken(items, itemName) ==> b
  {
    assert (forall i :: 0 <= i < |items| ==> Text.IsTrimmed(items[i].name)) && NameTaken(items, itemName)
           ==> Text.Trim(itemName) == itemName by {
      if (forall i :: 0 <= i < |items| ==> Text.IsTrimmed(items[i].name)) && NameTaken(items, itemName) {
        var i :| 0 <= i < |items| && items[i].name == itemName;
        Text.TrimFixesTrimmed(itemName);
      }
    }
    NameTaken(items, Text.Trim(itemName))
  }

  /** As written, the duplicate check lets " Milk" through next to "Milk", and the item stored
      for it is named "Milk" again: the list ends up with two items of the same name. */
  lemma AsWrittenCheckAdmitsDuplicateName()
    ensures var items := [Item(1, "Milk", 1.0, "l", false)];
            !DuplicateAsWritten(items, " Milk")
            && !DistinctKeys(items + [Item(2, Text.Trim(" Milk"), 1.0, "l", false)], NameOf)
  {
    var items := [Item(1, "Milk", 1.0, "l", false)];
    assert Text.LeadingSpaces(" Milk") == 1;
    assert Text.Trim(" Milk") == "Milk";
    var after := items + [Item(2, Text.Trim(" Milk"), 1.0, "l", false)];
    assert NameOf(after[0]) == NameOf(after[1]);
  }

  /** The item lines 61-67 build, with its id as the JavaScript number lines 58-59 give. */
  datatype NewItem = NewItem(id: JsNumber, name: string, quantity: real, unit: string)

  /** Lines 43-67 as written: the three checks in their order, the raw duplicate check,
      and the id Math.max gives, which is -Infinity on an empty list. The list's ids are
      integers here, so a list already holding the id -Infinity is outside this function. */
  function PrepareItemAsWritten(items: seq<Item>, itemName: string, quantity: string, unit: string): (r: Result<NewItem, Error>)
    ensures MissingInput(itemName, quantity, unit) ==> r == Failure(MissingField)
    ensures !MissingInput(itemName, quantity, unit) && !PositiveQuantity(quantity) ==> r == Failure(InvalidQuantity)
    ensures !MissingInput(itemName, quantity, unit) && PositiveQuantity(quantity) && DuplicateAsWritten(items, itemName)
            ==> r == Failure(DuplicateName)
    ensures !MissingInput(itemName, quantity, unit) && PositiveQuantity(quantity) && !DuplicateAsWritten(items, itemName)
            ==> r.Success?
    ensures r.Success? ==>
              var x := r.value;
              x.name == Text.Trim(itemName) && x.unit == Text.Trim(unit) && Numbers.ToNumber(quantity) == Some(x.quantity)
              && (x.id == NegInfinity <==> items == [])
              && (items != [] ==> x.id == Finite(NextId(items)))
  {
    if MissingInput(itemName, quantity, unit) then Failure(MissingField)
    else if !PositiveQuantity(quantity) then Failure(InvalidQuantity)
    else if DuplicateAsWritten(items, itemName) then Failure(DuplicateName)
    else
      Numbers.ParseFloatAgreesWithNumber(quantity);
      var ids := JsIds(items);
      assert items != [] ==> ids[0].Finite? && NewIdAsWritten(ids) == Finite(NextId(items)) by {
        if items != [] {
          NextIdAgreesWithAsWritten(items);
        }
      }
      Success(NewItem(NewIdAsWritten(ids), Text.Trim(itemName), Numbers.ParseFloat(quantity).value, Text.Trim(unit)))
  }

  /** The checks of addItem in their order, each winning over the later ones, and the item
      built when all of them pass. */
  function PrepareItem(items: seq<Item>, itemName: string, quantity: string, unit: string): (r: Result<Item, Error>)
    ensures MissingInput(itemName, quantity, unit) ==> r == Failure(MissingField)
    ensures !MissingInput(itemName, quantity, unit) && !PositiveQuantity(quantity) ==> r == Failure(InvalidQuantity)
    ensures !MissingInput(itemName, quantity, unit) && PositiveQuantity(quantity) && Duplicate(items, itemName)
            ==> r == Failure(DuplicateName)
    ensures !MissingInput(itemName, quantity, unit) && PositiveQuantity(quantity) && !Duplicate(items, itemName)
            ==> r == Success(Item(NextId(items), Text.Trim(itemName), Numbers.ToNumber(quantity).value, Text.Trim(unit), false))
    ensures r.Success? ==>
              var x := r.value;
              x.name == Text.Trim(itemName) && x.name != [] && x.unit == Text.Trim(unit) && !x.purchased
              && Numbers.ToNumber(quantity) == Some(x.quantity) && x.quantity > 0.0
              && forall i :: 0 <= i < |items| ==> items[i].id < x.id && items[i].name != x.name
  {
    if MissingInput(itemName, quantity, unit) then Failure(MissingField)
    else if !PositiveQuantity(quantity) then Failure(InvalidQuantity)
    else if Duplicate(items, itemName) then Failure(DuplicateName)
    else
      Numbers.ParseFloatAgreesWithNumber(quantity);
      Success(Item(NextId(items), Text.Trim(itemName), Numbers.ParseFloat(quantity).value, Text.Trim(unit), false))
  }

  /** The model's addItem and the one as written decide alike, and build the same item,
      whenever the list is not empty and the name has no surrounding whitespace. */
  lemma PrepareItemAgreesWithAsWritten(items: seq<Item>, itemName: string, quantity: string, unit: string)
    requires items != [] && Text.IsTrimmed(itemName)
    ensures match (PrepareItemAsWritten(items, itemName, quantity, unit), PrepareItem(items, itemName, quantity, unit))
            case (Failure(e), Failure(f)) => e == f
            case (Success(d), Success(x)) =>
              d.id == Finite(x.id) && d.name == x.name && d.quantity == x.quantity && d.unit == x.unit
            case _ => false
  {
    Text.TrimFixesTrimmed(itemName);
  }

  /** With a fetched item named "Milk " (not trimmed), line 53 rejects "Milk " while the model
      accepts it and stores "Milk", which is still a new name. */
  lemma CorrectedCheckAdmitsPaddedStoredName()
    ensures var items := [Item(1, "Milk ", 1.0, "l", false)];
            DuplicateAsWritten(items, "Milk ") && !Duplicate(items, "Milk ")
  {
    var items := [Item(1, "Milk ", 1.0, "l", false)];
    assert Text.LeadingSpaces("Milk ") == 0 && Text.TrailingSpaces("Milk ") == 1;
    assert Text.Trim("Milk ") == "Milk";
    assert items[0].name == "Milk ";
    assert "Milk" != "Milk ";
  }

  lemma TrimmedWords()
    ensures Text.Trim("Milk") == "Milk" && Text.Trim("L") == "L"
  {
    assert Text.LeadingSpaces("Milk") == 0 && Text.TrailingSpaces("Milk") == 0;
    assert Text.LeadingSpaces("L") == 0 && Text.TrailingSpaces("L") == 0;
  }

  /** Adding "Milk", "2", "L" to an empty list stores one unpurchased item with id 1,
      leaving one item to buy. */
  lemma AddMilkToEmptyList()
    ensures PrepareItem([], "Milk", "2", "L") == Success(Item(1, "Milk", 2.0, "L", false))
    ensures RemainingCount([Item(1, "Milk", 2.0, "L", false)]) == 1
    ensures !AllPurchased([Item(1, "Milk", 2.0, "L", false)])
  {
    TrimmedWords();
    Numbers.SingleDigit('2');
    assert !MissingInput("Milk", "2", "L") && PositiveQuantity("2") && !Duplicate([], "Milk");
  }

  /** The same add as written: the item gets the id -Infinity. */
  lemma AddMilkToEmptyListAsWritten()
    ensures PrepareItemAsWritten([], "Milk", "2", "L") == Success(NewItem(NegInfinity, "Milk", 2.0, "L"))
  {
    TrimmedWords();
    Numbers.SingleDigit('2');
    assert !MissingInput("Milk", "2", "L") && PositiveQuantity("2") && !DuplicateAsWritten([], "Milk");
  }

  /** The quantities "0", "-3" and "abc" fail the second check. */
  lemma NonPositiveQuantitiesRejected()
    ensures PrepareItem([], "Milk", "0", "L") == Failure(InvalidQuantity)
    ensures PrepareItem([], "Milk", "-3", "L") == Failure(InvalidQuantity)
    ensures PrepareItem([], "Milk", "abc", "L") == Failure(InvalidQuantity)
  {
    TrimmedWords();
    Numbers.SingleDigit('0');
    Numbers.NegatedDigit('3');
    Numbers.NotANumeral("abc");
    assert !MissingInput("Milk", "0", "L") && !MissingInput("Milk", "-3", "L") && !MissingInput("Milk", "abc", "L");
  }

  /** Only the name is trimmed by the first check: a blank quantity fails the second check
      instead, and a blank unit passes and is stored as the empty string. */
  lemma BlankQuantityAndUnit()
    ensures PrepareItem([], "Milk", "  ", "L") == Failure(InvalidQuantity)
    ensures PrepareItem([], "Milk", "2", " ").Success? && PrepareItem([], "Milk", "2", " ").value.unit == []
  {
    TrimmedWords();
    Numbers.SingleDigit('2');
    assert Text.IsBlank("  ") && Text.IsBlank(" ");
    assert !MissingInput("Milk", "  ", "L") && !MissingInput("Milk", "2", " ");
    assert PositiveQuantity("2") && !Duplicate([], "Milk");
  }

  /** The state of the ShoppingListApp component. */
  class ShoppingListApp {
    var items: seq<Item>
    var itemName: string
    var quantity: string
    var unit: string
    var error: Option<Error>

    constructor ()
      ensures items == [] && itemName == [] && quantity == [] && unit == [] && error == None
    {
      items, itemName, quantity, unit, error := [], [], [], [], None;
    }

    /** The effect run on mount: a response replaces the list with its mapped records;
        a failed request only logs. */
    method FetchItems(records: seq<Record>, fetched: bool)
      modifies this
      ensures items == (if fetched then MapRecords(records) else old(items))
      ensures itemName == old(itemName) && quantity == old(quantity) && unit == old(unit) && error == old(error)
    {
      if fetched {
        items := MapRecords(records);
      }
    }

    method SetItemName(value: string)
      modifies this
      ensures itemName == value
      ensures items == old(items) && quantity == old(quantity) && unit == old(unit) && error == old(error)
    {
      itemName := value;
    }

    method SetQuantity(value: string)
      modifies this
      ensures quantity == value
      ensures items == old(items) && itemName == old(itemName) && unit == old(unit) && error == old(error)
    {
      quantity := value;
    }

    method SetUnit(value: string)
      modifies this
      ensures unit == value
      ensures items == old(items) && itemName == old(itemName) && quantity == old(quantity) && error == old(error)
    {
      unit := value;
    }

    /** addItem: a failed check sets its error; a passed check sends the POST, and only when
        it did not fail is the new item appended and the form cleared. */
    method AddItem(posted: bool)
      modifies this
      ensures var outcome := PrepareItem(old(items), old(itemName), old(quantity), old(unit));
              if outcome.Success? && posted then
                items == old(items) + [outcome.value]
                && itemName == [] && quantity == [] && unit == [] && error == None
              else
                items == old(items) && itemName == old(itemName) && quantity == old(quantity) && unit == old(unit)
                && error == Some(if outcome.Failure? then outcome.error else AddFailed)
      ensures DistinctKeys(old(items), IdOf) ==> DistinctKeys(items, IdOf)
      ensures DistinctKeys(old(items), NameOf) ==> DistinctKeys(items, NameOf)
      ensures PositiveQuantities(old(items)) ==> PositiveQuantities(items)
    {
      var outcome := PrepareItem(items, itemName, quantity, unit);
      if outcome.Failure? {
        error := Some(outcome.error);
        return;
      }
      if !posted {
        error := Some(AddFailed);
        return;
      }
      AppendKeepsInvariants(items, outcome.value);
      items := items + [outcome.value];
      itemName, quantity, unit := [], [], [];
      error := None;
    }

    /** togglePurchased: flips the flag of the items with that id; nothing else changes. */
    method TogglePurchased(id: int)
      modifies this
      ensures items == Toggle(old(items), id)
      ensures itemName == old(itemName) && quantity == old(quantity) && unit == old(unit) && error == old(error)
      ensures DistinctKeys(old(items), IdOf) ==> DistinctKeys(items, IdOf)
      ensures DistinctKeys(old(items), NameOf) ==> DistinctKeys(items, NameOf)
      ensures PositiveQuantities(old(items)) ==> PositiveQuantities(items)
    {
      ToggleKeepsInvariants(items, id);
      items := Toggle(items, id);
    }

    /** deleteItem: after the DELETE the items with that id are filtered out; when the
        request fails the list stays and the error is set. */
    method DeleteItem(id: int, deleted: bool)
      modifies this
      ensures items == (if deleted then Remove(old(items), id) else old(items))
      ensures error == (if deleted then old(error) else Some(DeleteFailed))
      ensures itemName == old(itemName) && quantity == old(quantity) && unit == old(unit)
      ensures DistinctKeys(old(items), IdOf) ==> DistinctKeys(items, IdOf)
      ensures DistinctKeys(old(items), NameOf) ==> DistinctKeys(items, NameOf)
      ensures PositiveQuantities(old(items)) ==> PositiveQuantities(items)
    {
      if deleted {
        RemoveKeepsInvariants(items, id, IdOf);
        RemoveKeepsInvariants(items, id, NameOf);
        items := Remove(items, id);
      } else {
        error := Some(DeleteFailed);
      }
    }

    /** remainingItemsCount: the number of items not yet purchased. */
    function RemainingItemsCount(): (n: nat)
      reads this
      ensures n <= |items|
      ensures n == 0 <==> forall i :: 0 <= i < |items| ==> items[i].purchased
    {
      RemainingCount(items)
    }

    /** allItemsPurchased: the list is non-empty and nothing remains to buy. */
    function AllItemsPurchased(): (b: bool)
      reads this
      ensures b <==> items != [] && RemainingItemsCount() == 0
    {
      AllPurchased(items)
    }

    /** The line under the input form: the success message when all items are purchased,
        otherwise the remaining count for a non-empty list, otherwise nothing. */
    function Summary(): (v: SummaryView)
      reads this
      ensures v == Hidden <==> items == []
      ensures v == AllDone <==> items != [] && RemainingCount(items) == 0
      ensures v.Remaining? ==> v.count == RemainingCount(items) && v.count > 0
    {
      if AllItemsPurchased() then AllDone
      else if |items| > 0 then Remaining(RemainingItemsCount())
      else Hidden
    }
  }
}
