/** `RaffleViewModel`: the screens' entry point to the store, plus the state
    of the in-app update (the offered update and the "download running"
    flag). The network fetch, the JSON parsing, `DownloadManager` and the
    package installer are not modelled; what they report back comes in as
    parameters: the outcome of the fetch, the current version code, and
    the id `enqueue` returned (or its failure). */
module ViewModel {
  import opened Wrappers
  import opened KotlinText
  import opened Entities
  import opened Tables
  import opened Dao
  import Lists
  import opened Repository

  /** `AppUpdate`: the contents of the remote `update.json`. */
  datatype AppUpdate = AppUpdate(versionCode: Int32, versionName: string, updateUrl: string, description: string)

  /** How the update fetch ended: it threw (network or parsing error), the
      response was not successful, it had no body, or it was parsed. */
  datatype UpdateCheck = Failed | Unsuccessful | NoBody | Received(info: AppUpdate)

  /** The installed version code: `longVersionCode.toInt()` from Android P
      on (the low 32 bits of a `Long`), the deprecated `versionCode` before. */
  function CurrentVersionCode(sdkAtLeastP: bool, longVersionCode: int, versionCode: Int32): (r: Int32)
    ensures !sdkAtLeastP ==> r == versionCode
    ensures sdkAtLeastP && -0x8000_0000 <= longVersionCode < 0x8000_0000 ==> r == longVersionCode
    ensures sdkAtLeastP ==> (r - longVersionCode) % 0x1_0000_0000 == 0
  {
    if sdkAtLeastP then Wrap32(longVersionCode) else versionCode
  }

  /** The update a fetch offers: the parsed one, when its version code is
      strictly greater than the installed one. */
  function Offer(outcome: UpdateCheck, current: Int32): (r: Option<AppUpdate>)
    ensures r.Some? <==> outcome.Received? && outcome.info.versionCode > current
    ensures r.Some? ==> r.value == outcome.info
  {
    match outcome
    case Received(info) => if info.versionCode > current then Some(info) else None
    case _ => None
  }

  /** The rows `sellNumbers` builds: one per requested number, in order, each
      with the given raffle and buyer, no id and not paid. */
  function SoldBatch(raffleId: int, numbers: seq<string>, buyerName: string, buyerPhone: string): (r: seq<SoldNumber>)
    ensures |r| == |numbers|
    ensures forall i :: 0 <= i < |r| ==>
      && r[i].id == 0 && r[i].raffleId == raffleId && r[i].number == numbers[i]
      && r[i].buyerName == buyerName && r[i].buyerPhone == buyerPhone && !r[i].isPaid
  {
    seq(|numbers|, i requires 0 <= i < |numbers| => NewSoldNumber(raffleId, numbers[i], buyerName, buyerPhone))
  }

  /** The raffle `addRaffle` builds: the given fields, no id, active. */
  function RaffleOf(name: string, rangeStart: Int32, rangeEnd: Int32, digits: Int32, drawDate: string,
                    lotteryName: string, prize: string, price: string): (r: Raffle)
    ensures r.id == 0 && r.isActive
    ensures r.name == name && r.rangeStart == rangeStart && r.rangeEnd == rangeEnd && r.digits == digits
    ensures r.drawDate == drawDate && r.lotteryName == lotteryName && r.prize == prize && r.price == price
  {
    NewRaffle(name, rangeStart, rangeEnd, digits, drawDate, lotteryName, prize, price)
  }

  /** No row has a key above the counter. */
  lemma NoKeyAbove<T(!new)>(rows: seq<T>, key: T -> int, bound: int, id: int)
    requires KeysAtMost(rows, key, bound) && id > bound
    ensures !HasKey(rows, key, id)
  {
  }

  class RaffleViewModel {
    const repository: RaffleRepository
    /** `updateAvailable`: the update offered to the user, if any. */
    var updateAvailable: Option<AppUpdate>
    /** `isDownloading`. */
    var isDownloading: bool
    /** The download whose completion the registered receiver waits for. */
    var pendingDownload: Option<int>

    /** The download flag is up exactly while a download is awaited. */
    ghost predicate Valid()
      reads this, repository, repository.dao
    {
      repository.Valid() && (isDownloading <==> pendingDownload.Some?)
    }

    constructor (repository: RaffleRepository)
      requires repository.Valid()
      ensures Valid() && this.repository == repository
      ensures updateAvailable == None && !isDownloading && pendingDownload == None
    {
      this.repository := repository;
      updateAvailable := None;
      isDownloading := false;
      pendingDownload := None;
    }

    /** `checkForUpdates`, once the fetch has ended: only a strictly newer
        version replaces the offered update; every other outcome leaves it. */
    method CheckForUpdates(outcome: UpdateCheck, current: Int32)
      requires Valid()
      modifies this
      ensures Valid()
      ensures updateAvailable == if Offer(outcome, current).Some? then Offer(outcome, current) else old(updateAvailable)
      ensures isDownloading == old(isDownloading) && pendingDownload == old(pendingDownload)
    {
      var offer := Offer(outcome, current);
      if offer.Some? {
        updateAvailable := offer;
      }
    }

    /** `downloadUpdate`: ignored while a download runs; otherwise the flag
        goes up, and comes down again at once if `enqueue` fails (`None`). */
    method DownloadUpdate(enqueued: Option<int>) returns (started: bool)
      requires Valid()
      modifies this
      ensures Valid()
      ensures started <==> !old(isDownloading) && enqueued.Some?
      ensures old(isDownloading) ==> isDownloading && pendingDownload == old(pendingDownload)
      ensures !old(isDownloading) ==> isDownloading == enqueued.Some? && pendingDownload == enqueued
      ensures updateAvailable == old(updateAvailable)
    {
      if isDownloading {
        return false;
      }
      isDownloading := true;
      match enqueued {
        case None =>
          isDownloading := false;
          started := false;
        case Some(id) =>
          pendingDownload := Some(id);
          started := true;
      }
    }

    /** The receiver's `onReceive` for a finished download `id`: only the
        awaited download lowers the flag (and triggers the install). */
    method OnDownloadComplete(id: int) returns (install: bool)
      requires Valid()
      modifies this
      ensures Valid()
      ensures install <==> old(pendingDownload) == Some(id)
      ensures install ==> !isDownloading && pendingDownload == None
      ensures !install ==> isDownloading == old(isDownloading) && pendingDownload == old(pendingDownload)
      ensures updateAvailable == old(updateAvailable)
    {
      install := pendingDownload == Some(id);
      if install {
        isDownloading := false;
        pendingDownload := None;
      }
    }

    /** `raffles`. */
    function Raffles(): (r: seq<Raffle>)
      reads this, repository, repository.dao
      requires Valid()
      ensures forall x :: x in r <==> x in repository.dao.raffles
      ensures forall i, j :: 0 <= i < j < |r| ==> r[i].id > r[j].id
    {
      repository.AllRaffles()
    }

    function GetRaffleById(id: int): (r: Option<Raffle>)
      reads this, repository, repository.dao
      ensures r.Some? <==> exists x | x in repository.dao.raffles :: x.id == id
      ensures r.Some? ==> r.value in repository.dao.raffles && r.value.id == id
    {
      repository.GetRaffleById(id)
    }

    function GetSoldNumbers(raffleId: int): (r: seq<SoldNumber>)
      reads this, repository, repository.dao
      ensures forall s :: s in r <==> s in repository.dao.soldNumbers && s.raffleId == raffleId
      ensures Lists.IsSubsequence(r, repository.dao.soldNumbers)
    {
      repository.GetSoldNumbers(raffleId)
    }

    /** `addRaffle`: the new raffle gets the next id and joins the end of
        the table; no sold number is touched. */
    method AddRaffle(name: string, rangeStart: Int32, rangeEnd: Int32, digits: Int32, drawDate: string,
                     lotteryName: string, prize: string, price: string) returns (id: int)
      requires Valid()
      modifies repository.dao
      ensures Valid()
      ensures id == old(repository.dao.raffleSeq) + 1 && repository.dao.raffleSeq == id
      ensures repository.dao.raffles
        == old(repository.dao.raffles) + [RaffleOf(name, rangeStart, rangeEnd, digits, drawDate, lotteryName, prize, price).(id := id)]
      ensures repository.dao.soldNumbers == old(repository.dao.soldNumbers)
      ensures repository.dao.soldSeq == old(repository.dao.soldSeq)
    {
      var raffle := RaffleOf(name, rangeStart, rangeEnd, digits, drawDate, lotteryName, prize, price);
      ghost var raffles0, seq0 := repository.dao.raffles, repository.dao.raffleSeq;
      NoKeyAbove(raffles0, RaffleKey, seq0, seq0 + 1);
      UpsertAbove(raffles0, RaffleKey, raffle.(id := seq0 + 1), seq0);
      id := repository.AddRaffle(raffle);
    }

    /** `sellNumbers`: one batch insert of `SoldBatch`. With an existing
        raffle the rows are appended with consecutive fresh ids; with a
        missing raffle (and a non-empty batch) the store refuses it whole. */
    method SellNumbers(raffleId: int, numbers: seq<string>, buyerName: string, buyerPhone: string) returns (ok: bool)
      requires Valid()
      modifies repository.dao
      ensures Valid()
      ensures ok <==> numbers == [] || HasKey(repository.dao.raffles, RaffleKey, raffleId)
      ensures ok ==> (repository.dao.soldNumbers
        == old(repository.dao.soldNumbers) + Numbered(SoldBatch(raffleId, numbers, buyerName, buyerPhone), old(repository.dao.soldSeq)))
      ensures ok ==> repository.dao.soldSeq == old(repository.dao.soldSeq) + |numbers|
      ensures !ok ==> repository.dao.soldNumbers == old(repository.dao.soldNumbers) && repository.dao.soldSeq == old(repository.dao.soldSeq)
      ensures repository.dao.raffles == old(repository.dao.raffles) && repository.dao.raffleSeq == old(repository.dao.raffleSeq)
    {
      var batch := SoldBatch(raffleId, numbers, buyerName, buyerPhone);
      InsertAllFresh(repository.dao.soldNumbers, repository.dao.soldSeq, batch);
      ok := repository.SellNumbers(batch);
      if numbers != [] {
        assert batch[0].raffleId == raffleId;
      }
    }

    method DeleteRaffle(raffle: Raffle)
      requires Valid()
      modifies repository.dao
      ensures Valid()
      ensures repository.dao.raffles == DeleteKey(old(repository.dao.raffles), RaffleKey, raffle.id)
      ensures repository.dao.soldNumbers == WithoutRaffle(old(repository.dao.soldNumbers), raffle.id)
      ensures repository.dao.raffleSeq == old(repository.dao.raffleSeq) && repository.dao.soldSeq == old(repository.dao.soldSeq)
    {
      repository.DeleteRaffle(raffle);
    }

    method UpdateRaffle(raffle: Raffle)
      requires Valid()
      modifies repository.dao
      ensures Valid()
      ensures repository.dao.raffles == Replace(old(repository.dao.raffles), RaffleKey, raffle)
      ensures repository.dao.soldNumbers == old(repository.dao.soldNumbers)
      ensures repository.dao.raffleSeq == old(repository.dao.raffleSeq) && repository.dao.soldSeq == old(repository.dao.soldSeq)
    {
      repository.UpdateRaffle(raffle);
    }

    method UpdateSoldNumber(soldNumber: SoldNumber) returns (ok: bool)
      requires Valid()
      modifies repository.dao
      ensures Valid()
      ensures ok <==> (!HasKey(old(repository.dao.soldNumbers), SoldKey, soldNumber.id)
        || HasKey(repository.dao.raffles, RaffleKey, soldNumber.raffleId))
      ensures repository.dao.soldNumbers
        == if ok then Replace(old(repository.dao.soldNumbers), SoldKey, soldNumber) else old(repository.dao.soldNumbers)
      ensures repository.dao.raffles == old(repository.dao.raffles)
      ensures repository.dao.raffleSeq == old(repository.dao.raffleSeq) && repository.dao.soldSeq == old(repository.dao.soldSeq)
    {
      ok := repository.UpdateSoldNumber(soldNumber);
    }

    method DeleteSoldNumber(soldNumber: SoldNumber)
      requires Valid()
      modifies repository.dao
      ensures Valid()
      ensures repository.dao.soldNumbers == DeleteKey(old(repository.dao.soldNumbers), SoldKey, soldNumber.id)
      ensures repository.dao.raffles == old(repository.dao.raffles)
      ensures repository.dao.raffleSeq == old(repository.dao.raffleSeq) && repository.dao.soldSeq == old(repository.dao.soldSeq)
    {
      repository.DeleteSoldNumber(soldNumber);
    }
  }
}
