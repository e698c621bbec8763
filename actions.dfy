/** The screens' button handlers that drive the view model: confirming a
    buyer's payment, deleting a buyer, switching a raffle between active and
    inactive, saving the "create raffle" form, selling the detail screen's
    selection, and answering the update dialog. Each loop over a buyer's
    tickets is proved against a function of the table it starts from. */
module Actions {
  import opened Wrappers
  import opened KotlinText
  import opened Entities
  import opened Tables
  import opened Dao
  import opened Repository
  import opened ViewModel
  import opened Buyers
  import DetailScreen
  import Tickets

  // ---------------------------------------------------------------------
  // Confirming a buyer's payment
  // ---------------------------------------------------------------------

  /** One `updateSoldNumber(sold.copy(isPaid = true))`: the update goes
      through unless it would point an existing row at a missing raffle. */
  function PayOne(rows: seq<SoldNumber>, raffles: seq<Raffle>, sold: SoldNumber): (r: seq<SoldNumber>)
    ensures |r| == |rows|
  {
    if !HasKey(rows, SoldKey, sold.id) || HasKey(raffles, RaffleKey, sold.raffleId)
    then Replace(rows, SoldKey, sold.(isPaid := true))
    else rows
  }

  /** The table after the confirm button's loop over `tickets`: each unpaid
      ticket is written back paid, in order. */
  function MarkPaid(rows: seq<SoldNumber>, raffles: seq<Raffle>, tickets: seq<SoldNumber>): (r: seq<SoldNumber>)
    ensures |r| == |rows|
  {
    if tickets == [] then rows
    else
      var prev := MarkPaid(rows, raffles, tickets[..|tickets| - 1]);
      var sold := tickets[|tickets| - 1];
      if sold.isPaid then prev else PayOne(prev, raffles, sold)
  }

  /** In a table with unique ids a row is the only one with its id. */
  lemma SameIdSameRow(rows: seq<SoldNumber>, i: nat, t: SoldNumber)
    requires Ascending(rows, SoldKey) && i < |rows| && t in rows
    ensures rows[i].id == t.id <==> rows[i] == t
  {
    var j :| 0 <= j < |rows| && rows[j] == t;
    if i < j || j < i {
      assert SoldKey(rows[i]) != SoldKey(rows[j]);
    }
  }

  /** When the buyer's tickets are rows of a consistent table, confirming
      the payment marks exactly those rows paid and leaves every other row,
      and the order, as it was. */
  lemma {:induction false} MarkPaidSpec(rows: seq<SoldNumber>, raffles: seq<Raffle>, tickets: seq<SoldNumber>)
    requires Ascending(rows, SoldKey) && References(rows, raffles)
    requires forall k :: 0 <= k < |tickets| ==> tickets[k] in rows
    ensures forall i :: 0 <= i < |rows| ==>
      MarkPaid(rows, raffles, tickets)[i] == if rows[i] in tickets then rows[i].(isPaid := true) else rows[i]
  {
    if tickets != [] {
      var q := tickets[..|tickets| - 1];
      var t := tickets[|tickets| - 1];
      MarkPaidSpec(rows, raffles, q);
      var prev := MarkPaid(rows, raffles, q);
      assert t in rows;
      assert HasKey(raffles, RaffleKey, t.raffleId);
      forall i | 0 <= i < |rows|
        ensures MarkPaid(rows, raffles, tickets)[i] == if rows[i] in tickets then rows[i].(isPaid := true) else rows[i]
      {
        SameIdSameRow(rows, i, t);
        assert rows[i] in tickets <==> rows[i] in q || rows[i] == t by {
          assert tickets == q + [t];
        }
        assert prev[i].id == rows[i].id;
      }
    }
  }

  /** Afterwards the buyer is fully paid: every one of their tickets is a
      paid row of the table. */
  lemma MarkPaidPaysBuyer(rows: seq<SoldNumber>, raffles: seq<Raffle>, buyer: BuyerSummary)
    requires Ascending(rows, SoldKey) && References(rows, raffles)
    requires forall k :: 0 <= k < |buyer.soldNumbers| ==> buyer.soldNumbers[k] in rows
    ensures forall k :: 0 <= k < |buyer.soldNumbers| ==>
      buyer.soldNumbers[k].(isPaid := true) in MarkPaid(rows, raffles, buyer.soldNumbers)
  {
    MarkPaidSpec(rows, raffles, buyer.soldNumbers);
    forall k | 0 <= k < |buyer.soldNumbers|
      ensures buyer.soldNumbers[k].(isPaid := true) in MarkPaid(rows, raffles, buyer.soldNumbers)
    {
      var j :| 0 <= j < |rows| && rows[j] == buyer.soldNumbers[k];
      assert MarkPaid(rows, raffles, buyer.soldNumbers)[j] == rows[j].(isPaid := true);
    }
  }

  /** The payment dialog's confirm button. */
  method ConfirmPayment(vm: RaffleViewModel, buyer: BuyerSummary)
    requires vm.Valid()
    modifies vm.repository.dao
    ensures vm.Valid()
    ensures vm.repository.dao.soldNumbers
      == MarkPaid(old(vm.repository.dao.soldNumbers), vm.repository.dao.raffles, buyer.soldNumbers)
    ensures vm.repository.dao.raffles == old(vm.repository.dao.raffles)
    ensures vm.repository.dao.raffleSeq == old(vm.repository.dao.raffleSeq)
    ensures vm.repository.dao.soldSeq == old(vm.repository.dao.soldSeq)
  {
    var dao := vm.repository.dao;
    ghost var rows0, raffles0 := dao.soldNumbers, dao.raffles;
    var tickets := buyer.soldNumbers;
    var i := 0;
    while i < |tickets|
      invariant 0 <= i <= |tickets|
      invariant vm.Valid()
      invariant dao.soldNumbers == MarkPaid(rows0, raffles0, tickets[..i])
      invariant dao.raffles == raffles0 && dao.raffleSeq == old(dao.raffleSeq) && dao.soldSeq == old(dao.soldSeq)
    {
      MarkPaidStep(rows0, raffles0, tickets, i);
      PayTicket(vm, tickets[i]);
      i := i + 1;
    }
    assert tickets[..i] == tickets;
  }

  /** The loop body: an update only for a ticket not yet paid. */
  method PayTicket(vm: RaffleViewModel, sold: SoldNumber)
    requires vm.Valid()
    modifies vm.repository.dao
    ensures vm.Valid()
    ensures vm.repository.dao.soldNumbers == if sold.isPaid then old(vm.repository.dao.soldNumbers)
      else PayOne(old(vm.repository.dao.soldNumbers), vm.repository.dao.raffles, sold)
    ensures vm.repository.dao.raffles == old(vm.repository.dao.raffles)
    ensures vm.repository.dao.raffleSeq == old(vm.repository.dao.raffleSeq)
    ensures vm.repository.dao.soldSeq == old(vm.repository.dao.soldSeq)
  {
    if !sold.isPaid {
      var _ := vm.UpdateSoldNumber(sold.(isPaid := true));
    }
  }

  /** One turn of the confirm loop. */
  lemma MarkPaidStep(rows: seq<SoldNumber>, raffles: seq<Raffle>, tickets: seq<SoldNumber>, i: nat)
    requires i < |tickets|
    ensures MarkPaid(rows, raffles, tickets[..i + 1]) == if tickets[i].isPaid then MarkPaid(rows, raffles, tickets[..i])
      else PayOne(MarkPaid(rows, raffles, tickets[..i]), raffles, tickets[i])
  {
    assert tickets[..i + 1][..i] == tickets[..i];
  }

  // ---------------------------------------------------------------------
  // Deleting a buyer
  // ---------------------------------------------------------------------

  /** The table after `deleteSoldNumber` of each of `tickets`, in order. */
  function DeleteAll(rows: seq<SoldNumber>, tickets: seq<SoldNumber>): (r: seq<SoldNumber>)
    requires Ascending(rows, SoldKey)
    ensures Ascending(r, SoldKey)
    ensures forall x :: x in r <==> x in rows && forall k :: 0 <= k < |tickets| ==> tickets[k].id != x.id
  {
    if tickets == [] then rows
    else
      var prev := DeleteAll(rows, tickets[..|tickets| - 1]);
      assert forall k :: 0 <= k < |tickets| - 1 ==> tickets[..|tickets| - 1][k] == tickets[k];
      DeleteKey(prev, SoldKey, tickets[|tickets| - 1].id)
  }

  /** When the buyer's tickets are rows of the table, deleting the buyer
      removes exactly those rows; the rest keep their order. */
  lemma DeleteAllSpec(rows: seq<SoldNumber>, tickets: seq<SoldNumber>)
    requires Ascending(rows, SoldKey)
    requires forall k :: 0 <= k < |tickets| ==> tickets[k] in rows
    ensures forall x :: x in DeleteAll(rows, tickets) <==> x in rows && x !in tickets
    ensures Lists.IsSubsequence(DeleteAll(rows, tickets), rows)
  {
    var r := DeleteAll(rows, tickets);
    forall x | x in rows ensures (forall k :: 0 <= k < |tickets| ==> tickets[k].id != x.id) <==> x !in tickets {
      var i :| 0 <= i < |rows| && rows[i] == x;
      forall k | 0 <= k < |tickets| ensures tickets[k].id == x.id <==> tickets[k] == x {
        SameIdSameRow(rows, i, tickets[k]);
      }
    }
    var keep := Lists.Filter(rows, (s: SoldNumber) => s !in tickets);
    Lists.FilterSpec(rows, (s: SoldNumber) => s !in tickets);
    SubsequenceAscending(keep, rows, SoldKey);
    AscendingUnique(r, keep, SoldKey);
  }

  /** The buyer card's delete button. */
  method DeleteBuyer(vm: RaffleViewModel, buyer: BuyerSummary)
    requires vm.Valid()
    modifies vm.repository.dao
    ensures vm.Valid()
    ensures vm.repository.dao.soldNumbers == DeleteAll(old(vm.repository.dao.soldNumbers), buyer.soldNumbers)
    ensures vm.repository.dao.raffles == old(vm.repository.dao.raffles)
    ensures vm.repository.dao.raffleSeq == old(vm.repository.dao.raffleSeq)
    ensures vm.repository.dao.soldSeq == old(vm.repository.dao.soldSeq)
  {
    var dao := vm.repository.dao;
    ghost var rows0 := dao.soldNumbers;
    var tickets := buyer.soldNumbers;
    var i := 0;
    while i < |tickets|
      invariant 0 <= i <= |tickets|
      invariant vm.Valid()
      invariant dao.soldNumbers == DeleteAll(rows0, tickets[..i])
      invariant dao.raffles == old(dao.raffles) && dao.raffleSeq == old(dao.raffleSeq) && dao.soldSeq == old(dao.soldSeq)
    {
      vm.DeleteSoldNumber(tickets[i]);
      assert tickets[..i + 1][..i] == tickets[..i];
      i := i + 1;
    }
    assert tickets[..i] == tickets;
  }

  // ---------------------------------------------------------------------
  // Raffle status, the create form, the sale
  // ---------------------------------------------------------------------

  /** `raffle.copy(isActive = !raffle.isActive)`. */
  function Toggled(raffle: Raffle): (r: Raffle)
    ensures r.isActive != raffle.isActive && r.(isActive := raffle.isActive) == raffle
  {
    raffle.(isActive := !raffle.isActive)
  }

  /** Switching a raffle twice gives back the table it started from. */
  lemma ToggleTwiceRestores(raffles: seq<Raffle>, i: nat)
    requires Ascending(raffles, RaffleKey) && i < |raffles|
    ensures Replace(Replace(raffles, RaffleKey, Toggled(raffles[i])), RaffleKey, Toggled(Toggled(raffles[i]))) == raffles
  {
    var once := Replace(raffles, RaffleKey, Toggled(raffles[i]));
    forall j | 0 <= j < |raffles| ensures Replace(once, RaffleKey, raffles[i])[j] == raffles[j] {
      if j < i || i < j {
        assert RaffleKey(raffles[j]) != RaffleKey(raffles[i]);
      }
    }
  }

  /** The status dialog's confirm button. */
  method ToggleRaffleStatus(vm: RaffleViewModel, raffle: Raffle)
    requires vm.Valid()
    modifies vm.repository.dao
    ensures vm.Valid()
    ensures vm.repository.dao.raffles == Replace(old(vm.repository.dao.raffles), RaffleKey, Toggled(raffle))
    ensures vm.repository.dao.soldNumbers == old(vm.repository.dao.soldNumbers)
    ensures vm.repository.dao.raffleSeq == old(vm.repository.dao.raffleSeq)
    ensures vm.repository.dao.soldSeq == old(vm.repository.dao.soldSeq)
  {
    vm.UpdateRaffle(Toggled(raffle));
  }

  /** "Guardar Rifa": enabled only when `canSave`; it adds the raffle with
      the parsed range and `parsedDigits`. The saved raffle's grid is the
      preview the form showed. Text field lengths are JVM `Int`s. */
  method SaveRaffle(vm: RaffleViewModel, name: string, startText: string, endText: string,
                    drawDate: string, lotteryName: string, prize: string, price: string) returns (saved: bool)
    requires vm.Valid()
    requires |startText| < 0x8000_0000 && |endText| < 0x8000_0000
    modifies vm.repository.dao
    ensures vm.Valid()
    ensures saved <==> Tickets.CanSave(name, startText, endText)
    ensures !saved ==> unchanged(vm.repository.dao)
    ensures saved ==>
      && ToIntOrNull(startText).Some? && ToIntOrNull(endText).Some?
      && vm.repository.dao.raffleSeq == old(vm.repository.dao.raffleSeq) + 1
      && vm.repository.dao.raffles == old(vm.repository.dao.raffles)
           + [RaffleOf(name, ToIntOrNull(startText).value, ToIntOrNull(endText).value,
                       Tickets.ParsedDigits(startText, endText), drawDate, lotteryName, prize, price)
                .(id := vm.repository.dao.raffleSeq)]
    ensures saved ==>
      Tickets.TicketLabels(vm.repository.dao.raffles[|vm.repository.dao.raffles| - 1])
        == Tickets.PreviewItems(startText, endText)
    ensures vm.repository.dao.soldNumbers == old(vm.repository.dao.soldNumbers)
    ensures vm.repository.dao.soldSeq == old(vm.repository.dao.soldSeq)
  {
    if !Tickets.CanSave(name, startText, endText) {
      return false;
    }
    var rangeStart := ToIntOrNull(startText).value;
    var rangeEnd := ToIntOrNull(endText).value;
    var digits: Int32 := Tickets.ParsedDigits(startText, endText);
    var id := vm.AddRaffle(name, rangeStart, rangeEnd, digits, drawDate, lotteryName, prize, price);
    saved := true;
    var r := RaffleOf(name, rangeStart, rangeEnd, digits, drawDate, lotteryName, prize, price).(id := id);
    assert vm.repository.dao.raffles[|vm.repository.dao.raffles| - 1] == r;
    Tickets.PreviewMatchesGrid(name, startText, endText, r);
  }

  /** The sell dialog's "Vender", enabled while the buyer's name is not
      blank: the selection, in selection order, goes to `sellNumbers` of the
      shown raffle, and the dialog, the selection and both fields are reset
      whatever the store does with the sale. `confirmed` says the button
      was enabled, `stored` that the store took the batch. */
  method SellSelection(screen: DetailScreen.Screen, vm: RaffleViewModel, raffleId: int)
    returns (confirmed: bool, stored: bool)
    requires screen.Valid() && vm.Valid()
    modifies screen, vm.repository.dao
    ensures screen.Valid() && vm.Valid()
    ensures confirmed <==> old(screen.showSellDialog) && !IsBlank(old(screen.buyerName))
    ensures !confirmed ==> unchanged(screen) && unchanged(vm.repository.dao)
    ensures confirmed ==> (
      && screen.selectedNumbers == [] && !screen.isMultiSelectActive && !screen.showSellDialog
      && screen.buyerName == "" && screen.buyerPhone == ""
      && screen.showBuyerInfoDialog == old(screen.showBuyerInfoDialog))
    ensures stored ==> confirmed
    ensures confirmed ==> (stored <==> old(screen.selectedNumbers) == [] || HasKey(old(vm.repository.dao.raffles), RaffleKey, raffleId))
    ensures stored ==> (
      && vm.repository.dao.soldNumbers == old(vm.repository.dao.soldNumbers)
           + Numbered(SoldBatch(raffleId, old(screen.selectedNumbers), old(screen.buyerName), old(screen.buyerPhone)),
                      old(vm.repository.dao.soldSeq))
      && vm.repository.dao.soldSeq == old(vm.repository.dao.soldSeq) + |old(screen.selectedNumbers)|)
    ensures !stored ==> (
      && vm.repository.dao.soldNumbers == old(vm.repository.dao.soldNumbers)
      && vm.repository.dao.soldSeq == old(vm.repository.dao.soldSeq))
    ensures vm.repository.dao.raffles == old(vm.repository.dao.raffles)
    ensures vm.repository.dao.raffleSeq == old(vm.repository.dao.raffleSeq)
  {
    var sale := screen.ConfirmSale();
    confirmed := sale.Some?;
    stored := false;
    if sale.Some? {
      stored := vm.SellNumbers(raffleId, sale.value.numbers, sale.value.buyerName, sale.value.buyerPhone);
    }
  }

  // ---------------------------------------------------------------------
  // The update dialog
  // ---------------------------------------------------------------------

  /** The update dialog is shown while an update is offered and no download
      runs. */
  predicate UpdateDialogShown(vm: RaffleViewModel)
    reads vm
  {
    vm.updateAvailable.Some? && !vm.isDownloading
  }

  /** "Actualizar": starts the download of the offered update, then
      withdraws the offer. `enqueued` is what `DownloadManager.enqueue`
      reports for its URL. */
  method AcceptUpdate(vm: RaffleViewModel, enqueued: Option<int>) returns (started: bool)
    requires vm.Valid() && UpdateDialogShown(vm)
    modifies vm
    ensures vm.Valid()
    ensures started <==> enqueued.Some?
    ensures vm.updateAvailable == None && !UpdateDialogShown(vm)
    ensures vm.isDownloading == enqueued.Some? && vm.pendingDownload == enqueued
  {
    started := vm.DownloadUpdate(enqueued);
    vm.updateAvailable := None;
  }

  /** "Más Tarde" or a tap outside: the offer is withdrawn. */
  method DismissUpdate(vm: RaffleViewModel)
    requires vm.Valid()
    modifies vm
    ensures vm.Valid()
    ensures vm.updateAvailable == None
    ensures vm.isDownloading == old(vm.isDownloading) && vm.pendingDownload == old(vm.pendingDownload)
  {
    vm.updateAvailable := None;
  }
}
