/** `RaffleDao`: the two Room tables as one object whose methods run the
    DAO's statements. Room opens the database with `PRAGMA foreign_keys=ON`
    because `sold_numbers` declares a foreign key, so the key is enforced:
    a statement that would leave a sold number pointing at no raffle fails
    and changes nothing (Room runs the batch insert in one transaction), and
    removing a raffle row (by `DELETE` or by the delete half of `INSERT OR
    REPLACE`) removes its sold numbers (ON DELETE CASCADE). */
module Dao {
  import opened Entities
  import opened Tables
  import Lists
  import opened Wrappers

  /** `WHERE raffleId = :raffleId`, in rowid order. */
  function OfRaffle(rows: seq<SoldNumber>, raffleId: int): (r: seq<SoldNumber>)
    ensures forall s :: s in r <==> s in rows && s.raffleId == raffleId
    ensures Lists.IsSubsequence(r, rows)
  {
    Lists.FilterSpec(rows, (s: SoldNumber) => s.raffleId == raffleId);
    Lists.Filter(rows, (s: SoldNumber) => s.raffleId == raffleId)
  }

  /** What is left after `DELETE FROM sold_numbers WHERE raffleId = :raffleId`,
      which is also what the cascade leaves. */
  function WithoutRaffle(rows: seq<SoldNumber>, raffleId: int): (r: seq<SoldNumber>)
    requires Ascending(rows, SoldKey)
    ensures forall s :: s in r <==> s in rows && s.raffleId != raffleId
    ensures Lists.IsSubsequence(r, rows) && Ascending(r, SoldKey)
  {
    Lists.FilterSpec(rows, (s: SoldNumber) => s.raffleId != raffleId);
    var r := Lists.Filter(rows, (s: SoldNumber) => s.raffleId != raffleId);
    SubsequenceAscending(r, rows, SoldKey);
    r
  }

  /** One row of a batch `INSERT OR REPLACE` into `sold_numbers`, with the
      table's AUTOINCREMENT counter. */
  function InsertOne(rows: seq<SoldNumber>, last: int, s: SoldNumber): (r: (seq<SoldNumber>, int))
    requires Ascending(rows, SoldKey)
    ensures Ascending(r.0, SoldKey)
  {
    var id := AssignedKey(last, s.id);
    (Upsert(rows, SoldKey, s.(id := id)), if id > last then id else last)
  }

  /** Which rows one insert leaves. */
  lemma InsertOneMembers(rows: seq<SoldNumber>, last: int, s: SoldNumber, x: SoldNumber)
    requires Ascending(rows, SoldKey)
    ensures var id := AssignedKey(last, s.id);
      x in InsertOne(rows, last, s).0 <==> x == s.(id := id) || (x in rows && x.id != id)
  {
    UpsertMembers(rows, SoldKey, s.(id := AssignedKey(last, s.id)), x);
  }

  /** The rows of a batch inserted one after the other. */
  function InsertAll(rows: seq<SoldNumber>, last: int, batch: seq<SoldNumber>): (r: (seq<SoldNumber>, int))
    requires Ascending(rows, SoldKey)
    ensures Ascending(r.0, SoldKey)
    decreases |batch|
  {
    if batch == [] then (rows, last)
    else
      var p := InsertAll(rows, last, batch[..|batch| - 1]);
      InsertOne(p.0, p.1, batch[|batch| - 1])
  }

  /** The counter never falls and stays an upper bound of the keys. */
  lemma {:induction false} InsertAllKeysAtMost(rows: seq<SoldNumber>, last: int, batch: seq<SoldNumber>)
    requires Ascending(rows, SoldKey) && KeysAtMost(rows, SoldKey, last)
    ensures var r := InsertAll(rows, last, batch); r.1 >= last && KeysAtMost(r.0, SoldKey, r.1)
    decreases |batch|
  {
    if batch != [] {
      var p := InsertAll(rows, last, batch[..|batch| - 1]);
      var s := batch[|batch| - 1];
      var id := AssignedKey(p.1, s.id);
      var bound := if id > p.1 then id else p.1;
      InsertAllKeysAtMost(rows, last, batch[..|batch| - 1]);
      assert KeysAtMost(p.0, SoldKey, bound);
      UpsertKeysAtMost(p.0, SoldKey, s.(id := id), bound);
    }
  }

  /** Every row after a batch insert was there before or comes from the
      batch (with the raffle it names). */
  lemma {:induction false} InsertAllOrigin(rows: seq<SoldNumber>, last: int, batch: seq<SoldNumber>, x: SoldNumber)
    requires Ascending(rows, SoldKey) && x in InsertAll(rows, last, batch).0
    ensures x in rows || exists i :: 0 <= i < |batch| && batch[i].raffleId == x.raffleId
    decreases |batch|
  {
    if batch != [] {
      var q := batch[..|batch| - 1];
      var p := InsertAll(rows, last, q);
      var s := batch[|batch| - 1];
      InsertOneMembers(p.0, p.1, s, x);
      if x in p.0 {
        InsertAllOrigin(rows, last, q, x);
        if !(x in rows) {
          var i :| 0 <= i < |q| && q[i].raffleId == x.raffleId;
          assert batch[i] == q[i];
        }
      } else {
        assert x.raffleId == batch[|batch| - 1].raffleId;
      }
    }
  }

  /** The rows of `batch` numbered `last + 1`, `last + 2`, ... */
  function Numbered(batch: seq<SoldNumber>, last: int): (r: seq<SoldNumber>)
    ensures |r| == |batch|
    ensures forall i :: 0 <= i < |batch| ==> r[i] == batch[i].(id := last + 1 + i)
  {
    seq(|batch|, i requires 0 <= i < |batch| => batch[i].(id := last + 1 + i))
  }

  /** Step of the batch insert, as the loop performs it. */
  lemma InsertAllSnoc(rows: seq<SoldNumber>, last: int, batch: seq<SoldNumber>, i: nat)
    requires Ascending(rows, SoldKey) && i < |batch|
    ensures var p := InsertAll(rows, last, batch[..i]);
      InsertAll(rows, last, batch[..i + 1]) == InsertOne(p.0, p.1, batch[i])
  {
    assert batch[..i + 1][..i] == batch[..i];
  }

  /** A row without id is appended with the next id. */
  lemma InsertOneFresh(rows: seq<SoldNumber>, last: int, s: SoldNumber)
    requires Ascending(rows, SoldKey) && KeysAtMost(rows, SoldKey, last) && s.id == 0
    ensures InsertOne(rows, last, s) == (rows + [s.(id := last + 1)], last + 1)
  {
    UpsertAbove(rows, SoldKey, s.(id := last + 1), last);
  }

  /** A batch whose rows carry no id (the only kind the app inserts) gets
      consecutive fresh ids and is appended in order; nothing is replaced,
      and in particular two rows with the same raffle and number are both
      stored. */
  lemma {:induction false} InsertAllFresh(rows: seq<SoldNumber>, last: int, batch: seq<SoldNumber>)
    requires Ascending(rows, SoldKey) && KeysAtMost(rows, SoldKey, last)
    requires forall i :: 0 <= i < |batch| ==> batch[i].id == 0
    ensures InsertAll(rows, last, batch) == (rows + Numbered(batch, last), last + |batch|)
    decreases |batch|
  {
    if batch != [] {
      InsertAllFresh(rows, last, batch[..|batch| - 1]);
      InsertAllFreshStep(rows, last, batch);
    } else {
      assert rows + Numbered(batch, last) == rows;
    }
  }

  lemma InsertAllFreshStep(rows: seq<SoldNumber>, last: int, batch: seq<SoldNumber>)
    requires Ascending(rows, SoldKey) && KeysAtMost(rows, SoldKey, last)
    requires batch != [] && batch[|batch| - 1].id == 0
    requires InsertAll(rows, last, batch[..|batch| - 1])
      == (rows + Numbered(batch[..|batch| - 1], last), last + |batch| - 1)
    ensures InsertAll(rows, last, batch) == (rows + Numbered(batch, last), last + |batch|)
  {
    var q := batch[..|batch| - 1];
    var s := batch[|batch| - 1];
    var p := InsertAll(rows, last, q);
    NumberedBound(rows, Numbered(q, last), q, last);
    InsertOneFresh(p.0, p.1, s);
    AppendNumbered(rows, batch, last);
    var s' := s.(id := last + |batch|);
    assert InsertOne(p.0, p.1, s) == (p.0 + [s'], last + |batch|);
    assert InsertAll(rows, last, batch) == InsertOne(p.0, p.1, s);
    assert p.0 + [s'] == rows + Numbered(batch, last);
  }

  lemma AppendNumbered(rows: seq<SoldNumber>, batch: seq<SoldNumber>, last: int)
    requires batch != []
    ensures rows + Numbered(batch, last)
      == (rows + Numbered(batch[..|batch| - 1], last)) + [batch[|batch| - 1].(id := last + |batch|)]
  {
    NumberedSnoc(batch, last);
  }

  lemma NumberedSnoc(batch: seq<SoldNumber>, last: int)
    requires batch != []
    ensures Numbered(batch, last)
      == Numbered(batch[..|batch| - 1], last) + [batch[|batch| - 1].(id := last + |batch|)]
  {
    var a := Numbered(batch, last);
    var b := Numbered(batch[..|batch| - 1], last) + [batch[|batch| - 1].(id := last + |batch|)];
    forall i | 0 <= i < |batch| ensures a[i] == b[i] {
      if i < |batch| - 1 {
        assert batch[..|batch| - 1][i] == batch[i];
      }
    }
  }

  lemma NumberedBound(rows: seq<SoldNumber>, added: seq<SoldNumber>, q: seq<SoldNumber>, last: int)
    requires KeysAtMost(rows, SoldKey, last) && added == Numbered(q, last)
    ensures KeysAtMost(rows + added, SoldKey, last + |q|)
  {
    forall x | x in rows + added ensures SoldKey(x) <= last + |q| {
      if x !in rows {
        var i :| 0 <= i < |added| && added[i] == x;
      }
    }
  }

  /** Every sold number names an existing raffle. */
  ghost predicate References(rows: seq<SoldNumber>, raffles: seq<Raffle>) {
    forall s | s in rows :: HasKey(raffles, RaffleKey, s.raffleId)
  }

  /** A batch whose rows all name existing raffles keeps the references. */
  lemma InsertAllReferences(rows: seq<SoldNumber>, last: int, batch: seq<SoldNumber>, raffles: seq<Raffle>)
    requires Ascending(rows, SoldKey) && References(rows, raffles)
    requires forall i :: 0 <= i < |batch| ==> HasKey(raffles, RaffleKey, batch[i].raffleId)
    ensures References(InsertAll(rows, last, batch).0, raffles)
  {
    forall x | x in InsertAll(rows, last, batch).0 ensures HasKey(raffles, RaffleKey, x.raffleId) {
      InsertAllOrigin(rows, last, batch, x);
    }
  }

  /** The database invariant: both tables in rowid order, each below its
      AUTOINCREMENT counter, and the foreign key satisfied. */
  ghost predicate Consistent(raffles: seq<Raffle>, sold: seq<SoldNumber>, raffleSeq: int, soldSeq: int) {
    && Ascending(raffles, RaffleKey) && KeysAtMost(raffles, RaffleKey, raffleSeq)
    && Ascending(sold, SoldKey) && KeysAtMost(sold, SoldKey, soldSeq)
    && References(sold, raffles)
  }

  /** A batch naming existing raffles keeps the database consistent. */
  lemma InsertAllConsistent(raffles: seq<Raffle>, rows: seq<SoldNumber>, raffleSeq: int, last: int, batch: seq<SoldNumber>)
    requires Consistent(raffles, rows, raffleSeq, last)
    requires forall i :: 0 <= i < |batch| ==> HasKey(raffles, RaffleKey, batch[i].raffleId)
    ensures var r := InsertAll(rows, last, batch); Consistent(raffles, r.0, raffleSeq, r.1)
  {
    InsertAllKeysAtMost(rows, last, batch);
    InsertAllReferences(rows, last, batch, raffles);
  }

  /** `INSERT OR REPLACE` of a raffle, with the cascade it triggers, keeps
      the database consistent. */
  lemma InsertRaffleConsistent(raffles: seq<Raffle>, sold: seq<SoldNumber>, raffleSeq: int, soldSeq: int, row: Raffle)
    requires Consistent(raffles, sold, raffleSeq, soldSeq)
    ensures var sold' := if HasKey(raffles, RaffleKey, row.id) then WithoutRaffle(sold, row.id) else sold;
      Consistent(Upsert(raffles, RaffleKey, row), sold', if row.id > raffleSeq then row.id else raffleSeq, soldSeq)
  {
    var raffles' := Upsert(raffles, RaffleKey, row);
    var sold' := if HasKey(raffles, RaffleKey, row.id) then WithoutRaffle(sold, row.id) else sold;
    UpsertKeysAtMost(raffles, RaffleKey, row, if row.id > raffleSeq then row.id else raffleSeq);
    forall s | s in sold' ensures HasKey(raffles', RaffleKey, s.raffleId) {
      assert s in sold;
      var r :| r in raffles && r.id == s.raffleId;
      UpsertMembers(raffles, RaffleKey, row, r);
      UpsertMembers(raffles, RaffleKey, row, row);
    }
  }

  /** The transaction of a batch insert: the rows are inserted one by one.
      A row naming a missing raffle fails the foreign-key check and rolls the
      whole transaction back, so a batch with such a row, wherever it is,
      stores nothing. */
  method InsertBatch(raffles: seq<Raffle>, sold: seq<SoldNumber>, soldSeq: int, batch: seq<SoldNumber>)
      returns (ok: bool, rows: seq<SoldNumber>, last: int)
    requires Ascending(sold, SoldKey)
    ensures ok <==> forall i :: 0 <= i < |batch| ==> HasKey(raffles, RaffleKey, batch[i].raffleId)
    ensures ok ==> (rows, last) == InsertAll(sold, soldSeq, batch)
    ensures !ok ==> rows == sold && last == soldSeq
  {
    rows, last := sold, soldSeq;
    ok := forall i | 0 <= i < |batch| :: HasKey(raffles, RaffleKey, batch[i].raffleId);
    if !ok {
      return;
    }
    var i := 0;
    while i < |batch|
      invariant 0 <= i <= |batch|
      invariant (rows, last) == InsertAll(sold, soldSeq, batch[..i])
    {
      InsertAllSnoc(sold, soldSeq, batch, i);
      var next := InsertOne(rows, last, batch[i]);
      rows, last := next.0, next.1;
      i := i + 1;
    }
    assert batch[..i] == batch;
  }

  class RaffleDao {
    /** Table `raffles` in rowid order. */
    var raffles: seq<Raffle>
    /** Table `sold_numbers` in rowid order. */
    var soldNumbers: seq<SoldNumber>
    /** The `sqlite_sequence` entries of the two AUTOINCREMENT keys. */
    var raffleSeq: int
    var soldSeq: int

    ghost predicate Valid()
      reads this
    {
      Consistent(raffles, soldNumbers, raffleSeq, soldSeq)
    }

    /** A freshly created database. */
    constructor ()
      ensures Valid()
      ensures raffles == [] && soldNumbers == [] && raffleSeq == 0 && soldSeq == 0
    {
      raffles, soldNumbers, raffleSeq, soldSeq := [], [], 0, 0;
    }

    /** `SELECT * FROM raffles ORDER BY id DESC`. */
    function GetAllRaffles(): (r: seq<Raffle>)
      reads this
      requires Valid()
      ensures forall x :: x in r <==> x in raffles
      ensures forall i, j :: 0 <= i < j < |r| ==> r[i].id > r[j].id
    {
      ReversedDescending(raffles, RaffleKey);
      Reversed(raffles)
    }

    /** `SELECT * FROM raffles WHERE id = :id`: the row, or none. */
    function GetRaffleById(id: int): (r: Option<Raffle>)
      reads this
      ensures r.Some? <==> exists x | x in raffles :: x.id == id
      ensures r.Some? ==> r.value in raffles && r.value.id == id
    {
      Find(raffles, RaffleKey, id)
    }

    /** `@Insert(onConflict = REPLACE)` of one raffle; returns the rowid. A
        row with the same id is deleted first, and with it (cascade) its
        sold numbers. */
    method InsertRaffle(raffle: Raffle) returns (id: int)
      requires Valid()
      modifies this
      ensures Valid()
      ensures id == AssignedKey(old(raffleSeq), raffle.id)
      ensures raffles == Upsert(old(raffles), RaffleKey, raffle.(id := id))
      ensures raffleSeq == if id > old(raffleSeq) then id else old(raffleSeq)
      ensures soldNumbers == if HasKey(old(raffles), RaffleKey, id) then WithoutRaffle(old(soldNumbers), id) else old(soldNumbers)
      ensures soldSeq == old(soldSeq)
    {
      id := AssignedKey(raffleSeq, raffle.id);
      var row := raffle.(id := id);
      InsertRaffleConsistent(raffles, soldNumbers, raffleSeq, soldSeq, row);
      if HasKey(raffles, RaffleKey, id) {
        soldNumbers := WithoutRaffle(soldNumbers, id);
      }
      raffles := Upsert(raffles, RaffleKey, row);
      if id > raffleSeq {
        raffleSeq := id;
      }
    }

    /** `@Update`: `UPDATE raffles ... WHERE id = raffle.id`. */
    method UpdateRaffle(raffle: Raffle)
      requires Valid()
      modifies this
      ensures Valid()
      ensures raffles == Replace(old(raffles), RaffleKey, raffle)
      ensures soldNumbers == old(soldNumbers) && raffleSeq == old(raffleSeq) && soldSeq == old(soldSeq)
    {
      ghost var raffles0 := raffles;
      raffles := Replace(raffles, RaffleKey, raffle);
      ReplaceKeepsTable(raffles0, RaffleKey, raffle, raffleSeq);
      forall s | s in soldNumbers ensures HasKey(raffles, RaffleKey, s.raffleId) {
        var r :| r in raffles0 && r.id == s.raffleId;
        var m :| 0 <= m < |raffles0| && raffles0[m] == r;
        assert raffles[m] in raffles;
      }
    }

    /** `@Delete`: `DELETE FROM raffles WHERE id = raffle.id`, cascading to
        the raffle's sold numbers. */
    method DeleteRaffle(raffle: Raffle)
      requires Valid()
      modifies this
      ensures Valid()
      ensures raffles == DeleteKey(old(raffles), RaffleKey, raffle.id)
      ensures soldNumbers == WithoutRaffle(old(soldNumbers), raffle.id)
      ensures raffleSeq == old(raffleSeq) && soldSeq == old(soldSeq)
    {
      ghost var raffles0 := raffles;
      raffles := DeleteKey(raffles, RaffleKey, raffle.id);
      soldNumbers := WithoutRaffle(soldNumbers, raffle.id);
      forall s | s in soldNumbers ensures HasKey(raffles, RaffleKey, s.raffleId) {
        assert s in old(soldNumbers);
        var r :| r in raffles0 && r.id == s.raffleId;
        assert r in raffles;
      }
    }

    /** `@Insert(onConflict = REPLACE)` of a list, in one transaction: every
        row must name an existing raffle, otherwise nothing is stored. */
    method InsertSoldNumbers(batch: seq<SoldNumber>) returns (ok: bool)
      requires Valid()
      modifies this
      ensures Valid()
      ensures ok <==> forall i :: 0 <= i < |batch| ==> HasKey(raffles, RaffleKey, batch[i].raffleId)
      ensures ok ==> (soldNumbers, soldSeq) == InsertAll(old(soldNumbers), old(soldSeq), batch)
      ensures !ok ==> soldNumbers == old(soldNumbers) && soldSeq == old(soldSeq)
      ensures raffles == old(raffles) && raffleSeq == old(raffleSeq)
    {
      var rows, last;
      ok, rows, last := InsertBatch(raffles, soldNumbers, soldSeq, batch);
      if ok {
        InsertAllConsistent(raffles, soldNumbers, raffleSeq, soldSeq, batch);
        soldNumbers, soldSeq := rows, last;
      }
    }

    /** `@Update`: `UPDATE sold_numbers ... WHERE id = soldNumber.id`. With no
        such row nothing happens; a row moved to a missing raffle violates
        the foreign key and the statement fails. */
    method UpdateSoldNumber(soldNumber: SoldNumber) returns (ok: bool)
      requires Valid()
      modifies this
      ensures Valid()
      ensures ok <==> !HasKey(old(soldNumbers), SoldKey, soldNumber.id) || HasKey(raffles, RaffleKey, soldNumber.raffleId)
      ensures soldNumbers == if ok then Replace(old(soldNumbers), SoldKey, soldNumber) else old(soldNumbers)
      ensures raffles == old(raffles) && raffleSeq == old(raffleSeq) && soldSeq == old(soldSeq)
    {
      ok := !HasKey(soldNumbers, SoldKey, soldNumber.id) || HasKey(raffles, RaffleKey, soldNumber.raffleId);
      if ok {
        ReplaceKeepsTable(soldNumbers, SoldKey, soldNumber, soldSeq);
        soldNumbers := Replace(soldNumbers, SoldKey, soldNumber);
      }
    }

    /** `@Delete`: `DELETE FROM sold_numbers WHERE id = soldNumber.id`. */
    method DeleteSoldNumber(soldNumber: SoldNumber)
      requires Valid()
      modifies this
      ensures Valid()
      ensures soldNumbers == DeleteKey(old(soldNumbers), SoldKey, soldNumber.id)
      ensures raffles == old(raffles) && raffleSeq == old(raffleSeq) && soldSeq == old(soldSeq)
    {
      soldNumbers := DeleteKey(soldNumbers, SoldKey, soldNumber.id);
    }

    /** `SELECT * FROM sold_numbers WHERE raffleId = :raffleId`. */
    function GetSoldNumbersByRaffleId(raffleId: int): (r: seq<SoldNumber>)
      reads this
      ensures forall s :: s in r <==> s in soldNumbers && s.raffleId == raffleId
      ensures Lists.IsSubsequence(r, soldNumbers)
    {
      OfRaffle(soldNumbers, raffleId)
    }

    /** `DELETE FROM sold_numbers WHERE raffleId = :raffleId`. */
    method DeleteSoldNumbersByRaffleId(raffleId: int)
      requires Valid()
      modifies this
      ensures Valid()
      ensures soldNumbers == WithoutRaffle(old(soldNumbers), raffleId)
      ensures raffles == old(raffles) && raffleSeq == old(raffleSeq) && soldSeq == old(soldSeq)
    {
      soldNumbers := WithoutRaffle(soldNumbers, raffleId);
    }

    /** Every sold-number row. The query behind it is not declared by the
        DAO; the model promises every row once and no order (it yields
        rowid order). */
    function AllSoldNumbers(): (r: seq<SoldNumber>)
      reads this
      ensures forall s :: s in r <==> s in soldNumbers
      ensures multiset(r) == multiset(soldNumbers)
    {
      soldNumbers
    }
  }
}
