/** The raffle detail screen's selection state: which tickets are selected,
    whether multi-select is on, the sell dialog with its two text fields,
    and the buyer-information dialog. Each event handler of the grid and of
    the dialogs is a method; the sold tickets the grid shows at the time of
    an event are its parameter. */
module DetailScreen {
  import opened Wrappers
  import opened KotlinText
  import opened Entities
  import opened Lists

  /** `set + number` on a `LinkedHashSet`: appended when new. */
  function With(s: seq<string>, x: string): (r: seq<string>)
    ensures forall y :: y in r <==> y in s || y == x
    ensures Distinct(s) ==> Distinct(r)
    ensures x !in s ==> r == s + [x]
    ensures x in s ==> r == s
  {
    if x in s then s else s + [x]
  }

  /** `set - number`: removed, the others keep their order. */
  function Without(s: seq<string>, x: string): (r: seq<string>)
    ensures forall y :: y in r <==> y in s && y != x
    ensures Distinct(s) ==> Distinct(r)
    ensures Distinct(s) && x in s ==> |r| == |s| - 1
    ensures x !in s ==> r == s
  {
    if s == [] then []
    else
      var t := s[1..];
      assert forall i :: 0 <= i < |t| ==> t[i] == s[i + 1];
      assert Distinct(s) ==> Distinct(t) && s[0] !in t;
      var rest := Without(t, x);
      if s[0] == x then rest
      else
        assert Distinct(s) ==> Distinct([s[0]] + rest);
        [s[0]] + rest
  }

  /** Removing a selected ticket undoes selecting it. */
  lemma WithoutUndoesWith(s: seq<string>, x: string)
    requires x !in s
    ensures Without(With(s, x), x) == s
  {
    WithoutSnoc(s, x);
  }

  lemma {:induction false} WithoutSnoc(s: seq<string>, x: string)
    requires x !in s
    ensures Without(s + [x], x) == s
  {
    if s != [] {
      assert (s + [x])[1..] == s[1..] + [x];
      WithoutSnoc(s[1..], x);
      assert s == [s[0]] + s[1..];
    }
  }

  /** `soldNumbers.find { it.number == number }`. */
  function FindByNumber(soldNumbers: seq<SoldNumber>, number: string): (r: Option<SoldNumber>)
    ensures r.None? <==> forall i :: 0 <= i < |soldNumbers| ==> soldNumbers[i].number != number
    ensures r.Some? ==> (exists i :: 0 <= i < |soldNumbers| && soldNumbers[i] == r.value && r.value.number == number
                          && forall j :: 0 <= j < i ==> soldNumbers[j].number != number)
  {
    if soldNumbers == [] then None
    else if soldNumbers[0].number == number then
      assert soldNumbers[0] == soldNumbers[0];
      Some(soldNumbers[0])
    else
      var r := FindByNumber(soldNumbers[1..], number);
      assert forall i :: 0 < i < |soldNumbers| ==> soldNumbers[i] == soldNumbers[1..][i - 1];
      if r.Some? then
        var i :| 0 <= i < |soldNumbers[1..]| && soldNumbers[1..][i] == r.value && r.value.number == number
          && forall j :: 0 <= j < i ==> soldNumbers[1..][j].number != number;
        assert soldNumbers[i + 1] == r.value;
        r
      else r
  }

  /** What the sell dialog's confirm button hands to `sellNumbers`. */
  datatype Sale = Sale(numbers: seq<string>, buyerName: string, buyerPhone: string)

  class Screen {
    var selectedNumbers: seq<string>
    var isMultiSelectActive: bool
    var showSellDialog: bool
    var showBuyerInfoDialog: Option<SoldNumber>
    var buyerName: string
    var buyerPhone: string

    /** The selection is a set; outside multi-select it is empty, or holds
        the one ticket whose sell dialog is open. */
    ghost predicate Valid()
      reads this
    {
      && Distinct(selectedNumbers)
      && (!isMultiSelectActive && !showSellDialog ==> selectedNumbers == [])
      && (!isMultiSelectActive && showSellDialog ==> |selectedNumbers| == 1)
    }

    /** The state when the screen opens. */
    constructor ()
      ensures Valid()
      ensures selectedNumbers == [] && !isMultiSelectActive && !showSellDialog
      ensures showBuyerInfoDialog == None && buyerName == "" && buyerPhone == ""
    {
      selectedNumbers := [];
      isMultiSelectActive := false;
      showSellDialog := false;
      showBuyerInfoDialog := None;
      buyerName := "";
      buyerPhone := "";
    }

    /** The sell button is shown only in multi-select with a selection. */
    function ShowsSellButton(): (r: bool)
      reads this
      ensures r <==> isMultiSelectActive && |selectedNumbers| > 0
    {
      isMultiSelectActive && selectedNumbers != []
    }

    /** A tap on ticket `number`: a sold ticket opens its buyer's details; in
        multi-select an unsold one is toggled; otherwise it alone is
        selected and the sell dialog opens. */
    method Tap(number: string, soldNumbers: seq<SoldNumber>)
      requires Valid()
      modifies this
      ensures Valid()
      ensures FindByNumber(soldNumbers, number).Some? ==>
        && showBuyerInfoDialog == FindByNumber(soldNumbers, number)
        && selectedNumbers == old(selectedNumbers) && showSellDialog == old(showSellDialog)
      ensures FindByNumber(soldNumbers, number).None? && old(isMultiSelectActive) ==>
        && selectedNumbers == (if number in old(selectedNumbers) then Without(old(selectedNumbers), number)
                               else With(old(selectedNumbers), number))
        && showSellDialog == old(showSellDialog) && showBuyerInfoDialog == old(showBuyerInfoDialog)
      ensures FindByNumber(soldNumbers, number).None? && !old(isMultiSelectActive) ==>
        && selectedNumbers == [number] && showSellDialog
        && showBuyerInfoDialog == old(showBuyerInfoDialog)
      ensures isMultiSelectActive == old(isMultiSelectActive)
      ensures buyerName == old(buyerName) && buyerPhone == old(buyerPhone)
    {
      var soldInfo := FindByNumber(soldNumbers, number);
      if soldInfo.Some? {
        showBuyerInfoDialog := soldInfo;
      } else if isMultiSelectActive {
        if number in selectedNumbers {
          selectedNumbers := Without(selectedNumbers, number);
        } else {
          selectedNumbers := With(selectedNumbers, number);
        }
      } else {
        selectedNumbers := [number];
        showSellDialog := true;
      }
    }

    /** A long press on an unsold ticket turns multi-select on and adds the
        ticket to the selection; on a sold ticket it does nothing. */
    method LongPress(number: string, soldNumbers: seq<SoldNumber>)
      requires Valid()
      modifies this
      ensures Valid()
      ensures FindByNumber(soldNumbers, number).Some? ==>
        selectedNumbers == old(selectedNumbers) && isMultiSelectActive == old(isMultiSelectActive)
      ensures FindByNumber(soldNumbers, number).None? ==>
        selectedNumbers == With(old(selectedNumbers), number) && isMultiSelectActive
      ensures showSellDialog == old(showSellDialog) && showBuyerInfoDialog == old(showBuyerInfoDialog)
      ensures buyerName == old(buyerName) && buyerPhone == old(buyerPhone)
    {
      if FindByNumber(soldNumbers, number).None? {
        isMultiSelectActive := true;
        selectedNumbers := With(selectedNumbers, number);
      }
    }

    /** The "Vender (n)" button opens the sell dialog; without the button
        there is nothing to press. */
    method PressSellButton()
      requires Valid()
      modifies this
      ensures Valid()
      ensures showSellDialog == (old(showSellDialog) || old(ShowsSellButton()))
      ensures selectedNumbers == old(selectedNumbers) && isMultiSelectActive == old(isMultiSelectActive)
      ensures showBuyerInfoDialog == old(showBuyerInfoDialog)
      ensures buyerName == old(buyerName) && buyerPhone == old(buyerPhone)
    {
      if ShowsSellButton() {
        showSellDialog := true;
      }
    }

    method EditBuyerName(text: string)
      modifies this
      ensures buyerName == text
      ensures selectedNumbers == old(selectedNumbers) && isMultiSelectActive == old(isMultiSelectActive)
      ensures showSellDialog == old(showSellDialog) && showBuyerInfoDialog == old(showBuyerInfoDialog)
      ensures buyerPhone == old(buyerPhone)
    {
      buyerName := text;
    }

    method EditBuyerPhone(text: string)
      modifies this
      ensures buyerPhone == text
      ensures selectedNumbers == old(selectedNumbers) && isMultiSelectActive == old(isMultiSelectActive)
      ensures showSellDialog == old(showSellDialog) && showBuyerInfoDialog == old(showBuyerInfoDialog)
      ensures buyerName == old(buyerName)
    {
      buyerPhone := text;
    }

    /** The "Vender" button: enabled only in the open dialog with a name
        that is not blank. It hands the selection, in selection order, and
        the two fields to the sale, then resets the whole selection state. */
    method ConfirmSale() returns (sale: Option<Sale>)
      requires Valid()
      modifies this
      ensures Valid()
      ensures sale.Some? <==> old(showSellDialog) && !IsBlank(old(buyerName))
      ensures sale.Some? ==>
        && sale.value == Sale(old(selectedNumbers), old(buyerName), old(buyerPhone))
        && selectedNumbers == [] && !isMultiSelectActive && !showSellDialog
        && buyerName == "" && buyerPhone == ""
      ensures sale.None? ==> unchanged(this)
      ensures sale.Some? ==> Distinct(sale.value.numbers)
      ensures showBuyerInfoDialog == old(showBuyerInfoDialog)
    {
      if !showSellDialog || IsBlank(buyerName) {
        return None;
      }
      sale := Some(Sale(selectedNumbers, buyerName, buyerPhone));
      showSellDialog := false;
      isMultiSelectActive := false;
      selectedNumbers := [];
      buyerName := "";
      buyerPhone := "";
    }

    /** "Cancelar" or a tap outside: the dialog closes; a single selection is
        dropped, a multi-selection kept. The typed name and phone stay. */
    method DismissSellDialog()
      requires Valid()
      modifies this
      ensures Valid()
      ensures !showSellDialog
      ensures selectedNumbers == if old(isMultiSelectActive) then old(selectedNumbers) else []
      ensures isMultiSelectActive == old(isMultiSelectActive) && showBuyerInfoDialog == old(showBuyerInfoDialog)
      ensures buyerName == old(buyerName) && buyerPhone == old(buyerPhone)
    {
      showSellDialog := false;
      if !isMultiSelectActive {
        selectedNumbers := [];
      }
    }

    /** "Cerrar" or a tap outside the buyer-information dialog. */
    method CloseBuyerInfo()
      modifies this
      ensures showBuyerInfoDialog == None
      ensures selectedNumbers == old(selectedNumbers) && isMultiSelectActive == old(isMultiSelectActive)
      ensures showSellDialog == old(showSellDialog)
      ensures buyerName == old(buyerName) && buyerPhone == old(buyerPhone)
    {
      showBuyerInfoDialog := None;
    }
  }

  /** Selecting then deselecting an unsold ticket in multi-select leaves the
      selection as it was. */
  method ToggleTwice(screen: Screen, number: string, soldNumbers: seq<SoldNumber>)
    requires screen.Valid() && screen.isMultiSelectActive && number !in screen.selectedNumbers
    requires FindByNumber(soldNumbers, number).None?
    modifies screen
    ensures screen.Valid() && screen.selectedNumbers == old(screen.selectedNumbers)
  {
    screen.Tap(number, soldNumbers);
    screen.Tap(number, soldNumbers);
    WithoutUndoesWith(old(screen.selectedNumbers), number);
  }
}
