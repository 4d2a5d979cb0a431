/** BevLista in src/components/BevLista.tsx: the shopping list kept in memory only.
    Its handlers are synchronous; the id of a new item is Date.now(), passed in as now. */
module BevListaComponent {
  import opened Wrappers
  import Text
  import Numbers
  import opened Items

  /** The first check of hozzaadTermek: some field is empty once trimmed. */
  predicate MissingInput(nev: string, mennyiseg: string, egyseg: string): (b: bool)
    ensures b <==> Text.IsBlank(nev) || Text.IsBlank(mennyiseg) || Text.IsBlank(egyseg)
  {
    Text.Trim(nev) == [] || Text.Trim(mennyiseg) == [] || Text.Trim(egyseg) == []
  }

  /** The checks of hozzaadTermek in their order, each winning over the later ones, and the
      item built when all of them pass. There is no positivity check, and the raw strings
      are both compared and stored. */
  function PrepareTermek(termekek: seq<Item>, nev: string, mennyiseg: string, egyseg: string, now: int): (r: Result<Item, Error>)
    ensures Text.IsBlank(nev) || Text.IsBlank(mennyiseg) || Text.IsBlank(egyseg) ==> r == Failure(MissingField)
    ensures !MissingInput(nev, mennyiseg, egyseg) && Numbers.ToNumber(mennyiseg).None? ==> r == Failure(InvalidQuantity)
    ensures !MissingInput(nev, mennyiseg, egyseg) && Numbers.ToNumber(mennyiseg).Some? && NameTaken(termekek, nev)
            ==> r == Failure(DuplicateName)
    ensures !MissingInput(nev, mennyiseg, egyseg) && Numbers.ToNumber(mennyiseg).Some? && !NameTaken(termekek, nev)
            ==> r.Success?
    ensures r.Success? ==>
              Numbers.ToNumber(mennyiseg).Some?
              && r.value == Item(now, nev, Numbers.ToNumber(mennyiseg).value, egyseg, false)
              && !Text.IsBlank(nev) && !Text.IsBlank(egyseg)
              && forall i :: 0 <= i < |termekek| ==> termekek[i].name != nev
  {
    if MissingInput(nev, mennyiseg, egyseg) then Failure(MissingField)
    else if Numbers.ToNumber(mennyiseg).None? then Failure(InvalidQuantity)
    else if NameTaken(termekek, nev) then Failure(DuplicateName)
    else Success(Item(now, nev, Numbers.ToNumber(mennyiseg).value, egyseg, false))
  }

  /** Without a positivity check, "0" is accepted as a quantity. */
  lemma AcceptsZeroQuantity(now: int)
    ensures PrepareTermek([], "Tej", "0", "l", now) == Success(Item(now, "Tej", 0.0, "l", false))
  {
    assert !Text.IsSpace("Tej"[0]) && !Text.IsSpace("l"[0]) && !Text.IsSpace("0"[0]);
    Numbers.SingleDigit('0');
  }

  /** Nor is "-3" rejected: a negative quantity is stored. */
  lemma AcceptsNegativeQuantity(now: int)
    ensures PrepareTermek([], "Tej", "-3", "l", now) == Success(Item(now, "Tej", -3.0, "l", false))
  {
    assert !Text.IsSpace("Tej"[0]) && !Text.IsSpace("l"[0]) && !Text.IsSpace("-3"[0]);
    Numbers.NegatedDigit('3');
  }

  /** A name compared untrimmed is stored untrimmed: " Tej" is accepted next to "Tej",
      and the two stored names differ. */
  lemma PaddedNameIsAnotherName(now: int)
    ensures PrepareTermek([Item(1, "Tej", 1.0, "l", false)], " Tej", "1", "l", now)
            == Success(Item(now, " Tej", 1.0, "l", false))
  {
    var termekek := [Item(1, "Tej", 1.0, "l", false)];
    assert " Tej"[0] != "Tej"[0];
    assert !NameTaken(termekek, " Tej");
    assert !Text.IsSpace(" Tej"[1]) && !Text.IsSpace("l"[0]) && !Text.IsSpace("1"[0]);
    assert !MissingInput(" Tej", "1", "l");
    Numbers.SingleDigit('1');
    var r := PrepareTermek(termekek, " Tej", "1", "l", now);
    assert r.Success?;
    assert r.value == Item(now, " Tej", Numbers.ToNumber("1").value, "l", false);
  }

  /** The state of the BevLista component. */
  class BevLista {
    var termekek: seq<Item>
    var nev: string
    var mennyiseg: string
    var egyseg: string
    var hiba: Option<Error>

    constructor ()
      ensures termekek == [] && nev == [] && mennyiseg == [] && egyseg == [] && hiba == None
    {
      termekek, nev, mennyiseg, egyseg, hiba := [], [], [], [], None;
    }

    method SetNev(value: string)
      modifies this
      ensures nev == value
      ensures termekek == old(termekek) && mennyiseg == old(mennyiseg) && egyseg == old(egyseg) && hiba == old(hiba)
    {
      nev := value;
    }

    method SetMennyiseg(value: string)
      modifies this
      ensures mennyiseg == value
      ensures termekek == old(termekek) && nev == old(nev) && egyseg == old(egyseg) && hiba == old(hiba)
    {
      mennyiseg := value;
    }

    method SetEgyseg(value: string)
      modifies this
      ensures egyseg == value
      ensures termekek == old(termekek) && nev == old(nev) && mennyiseg == old(mennyiseg) && hiba == old(hiba)
    {
      egyseg := value;
    }

    /** hozzaadTermek: a failed check sets its error and returns; otherwise the new item is
        appended and the form and the error are cleared. Names stay distinct; ids stay
        distinct when the clock gives a value no item has. */
    method HozzaadTermek(now: int)
      modifies this
      ensures var outcome := PrepareTermek(old(termekek), old(nev), old(mennyiseg), old(egyseg), now);
              match outcome
              case Success(x) =>
                termekek == old(termekek) + [x] && nev == [] && mennyiseg == [] && egyseg == [] && hiba == None
              case Failure(e) =>
                termekek == old(termekek) && nev == old(nev) && mennyiseg == old(mennyiseg) && egyseg == old(egyseg)
                && hiba == Some(e)
      ensures DistinctKeys(old(termekek), NameOf) ==> DistinctKeys(termekek, NameOf)
      ensures DistinctKeys(old(termekek), IdOf) && (forall i :: 0 <= i < |old(termekek)| ==> old(termekek)[i].id != now)
              ==> DistinctKeys(termekek, IdOf)
    {
      var outcome := PrepareTermek(termekek, nev, mennyiseg, egyseg, now);
      if outcome.Failure? {
        hiba := Some(outcome.error);
        return;
      }
      AppendKeepsInvariants(termekek, outcome.value);
      termekek := termekek + [outcome.value];
      nev, mennyiseg, egyseg := [], [], [];
      hiba := None;
    }

    /** torolTermek: the items with that id are filtered out; nothing else changes. */
    method TorolTermek(id: int)
      modifies this
      ensures termekek == Remove(old(termekek), id)
      ensures nev == old(nev) && mennyiseg == old(mennyiseg) && egyseg == old(egyseg) && hiba == old(hiba)
      ensures DistinctKeys(old(termekek), NameOf) ==> DistinctKeys(termekek, NameOf)
      ensures DistinctKeys(old(termekek), IdOf) ==> DistinctKeys(termekek, IdOf)
    {
      RemoveKeepsInvariants(termekek, id, NameOf);
      RemoveKeepsInvariants(termekek, id, IdOf);
      termekek := Remove(termekek, id);
    }

    /** valtMegvasarolva: flips the flag of the items with that id; nothing else changes. */
    method ValtMegvasarolva(id: int)
      modifies this
      ensures termekek == Toggle(old(termekek), id)
      ensures nev == old(nev) && mennyiseg == old(mennyiseg) && egyseg == old(egyseg) && hiba == old(hiba)
      ensures DistinctKeys(old(termekek), NameOf) ==> DistinctKeys(termekek, NameOf)
      ensures DistinctKeys(old(termekek), IdOf) ==> DistinctKeys(termekek, IdOf)
    {
      ToggleKeepsInvariants(termekek, id);
      termekek := Toggle(termekek, id);
    }

    /** The paragraph under the list: shown only for a non-empty list, with the "all
        purchased" message when no item remains and the remaining count otherwise. */
    function Summary(): (v: SummaryView)
      reads this
      ensures v == Hidden <==> termekek == []
      ensures v == AllDone <==> AllPurchased(termekek)
      ensures v.Remaining? ==> v.count == RemainingCount(termekek) && v.count > 0
    {
      if |termekek| > 0 then
        if RemainingCount(termekek) == 0 then AllDone else Remaining(RemainingCount(termekek))
      else Hidden
    }
  }
}
