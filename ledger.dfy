/**
 * The investments ledger of main_2.py: the row schema, the mapping of a stored
 * row to an Investment object, and the store itself, which only ever grows.
 */
module Ledger {

  import opened Wrappers

  /** One row of the `investments` table: coin_id TEXT, currency TEXT,
      amount REAL, sell INT, date TIMESTAMP (dates are kept opaque). */
  datatype Row = Row(coinId: string, currency: string, amount: real, sell: int, date: string)

  /** The Investment object the row factory builds from a stored row. */
  datatype Investment = Investment(coinId: string, currency: string, amount: real, sell: bool, date: string)

  /** Python's int(b) for a bool: 1 for True, 0 for False. */
  function IntOfBool(b: bool): (i: int)
    ensures i == 0 || i == 1
    ensures i == 1 <==> b
  {
    if b then 1 else 0
  }

  /** SQLite binds a Python int as a signed 64-bit INTEGER; a value outside
      that range raises OverflowError. */
  const MinInteger: int := -0x8000_0000_0000_0000
  const MaxInteger: int := 0x7FFF_FFFF_FFFF_FFFF

  predicate FitsInteger(i: int)
  {
    MinInteger <= i <= MaxInteger
  }

  /** A row whose values can all be bound to the INSERT: only `sell` can be
      out of range, since a float amount always fits REAL. */
  predicate Bindable(r: Row)
  {
    FitsInteger(r.sell)
  }

  predicate AllBindable(batch: seq<Row>)
  {
    forall i :: 0 <= i < |batch| ==> Bindable(batch[i])
  }

  /** The row add_investment inserts: the sell flag goes through int(...),
      the date is the caller's clock reading. */
  function NewRow(coinId: string, currency: string, amount: real, sell: bool, now: string): (r: Row)
    ensures r.sell == 0 || r.sell == 1
    ensures r.sell == 1 <==> sell
    ensures Bindable(r)
    ensures r.coinId == coinId && r.currency == currency && r.amount == amount && r.date == now
  {
    Row(coinId, currency, amount, IntOfBool(sell), now)
  }

  /** The row factory: the stored sell integer becomes a bool by Python
      truthiness, so every non-zero value reads as a sell. */
  function ToInvestment(row: Row): (inv: Investment)
    ensures inv.sell <==> row.sell != 0
    ensures inv.coinId == row.coinId && inv.currency == row.currency
    ensures inv.amount == row.amount && inv.date == row.date
  {
    Investment(row.coinId, row.currency, row.amount, row.sell != 0, row.date)
  }

  /** Storing a flag and reading it back through the row factory gives the flag. */
  lemma SellFlagRoundTrip(coinId: string, currency: string, amount: real, sell: bool, now: string)
    ensures ToInvestment(NewRow(coinId, currency, amount, sell, now)).sell == sell
    ensures ToInvestment(NewRow(coinId, currency, amount, sell, now)).amount == amount
  {
  }

  /** The CREATE TABLE IF NOT EXISTS statement on a database whose
      `investments` table is either absent or holds some rows. */
  function CreateIfNotExists(table: Option<seq<Row>>): (t: Option<seq<Row>>)
    ensures t.Some?
    ensures table.Some? ==> t == table
    ensures table.None? ==> t == Some([])
  {
    match table
    case Some(_) => table
    case None => Some([])
  }

  /** Running the schema statement a second time changes nothing. */
  lemma CreateIfNotExistsIdempotent(table: Option<seq<Row>>)
    ensures CreateIfNotExists(CreateIfNotExists(table)) == CreateIfNotExists(table)
  {
  }

  /** The database connection: whether the table exists and its rows in store order. */
  class Store {
    var hasTable: bool
    var rows: seq<Row>

    /** A database without the table holds no rows. */
    ghost predicate Valid()
      reads this
    {
      hasTable || rows == []
    }

    /** The table as an optional value, as CreateIfNotExists sees it. */
    function Table(): (t: Option<seq<Row>>)
      reads this
      ensures t.Some? <==> hasTable
      ensures hasTable ==> t.value == rows
    {
      if hasTable then Some(rows) else None
    }

    /** Opens a database file, whose table may or may not exist yet. */
    constructor Connect(existing: Option<seq<Row>>)
      ensures Valid()
      ensures Table() == existing
    {
      match existing
      case Some(rs) =>
        hasTable := true;
        rows := rs;
      case None =>
        hasTable := false;
        rows := [];
    }

    /** Executes CREATE_INVESTMENTS_SQL: the table exists afterwards, and an
        existing table keeps its rows. */
    method EnsureSchema()
      requires Valid()
      modifies this
      ensures Valid() && hasTable
      ensures Table() == CreateIfNotExists(old(Table()))
      ensures rows == old(rows)
    {
      if !hasTable {
        hasTable := true;
        rows := [];
      }
    }

    /** add_investment: inserts exactly one row at the end; earlier rows are untouched. */
    method Add(coinId: string, currency: string, amount: real, sell: bool, now: string)
      requires hasTable
      modifies this
      ensures hasTable
      ensures rows == old(rows) + [NewRow(coinId, currency, amount, sell, now)]
    {
      rows := rows + [NewRow(coinId, currency, amount, sell, now)];
    }

    /** executemany of INSERT followed by commit: appends a batch in its own
        order. When some `sell` does not fit a 64-bit INTEGER the binding
        raises before the commit, and the stored ledger is unchanged. */
    method AppendMany(batch: seq<Row>) returns (ok: bool)
      requires hasTable
      modifies this
      ensures hasTable
      ensures ok <==> AllBindable(batch)
      ensures rows == if ok then old(rows) + batch else old(rows)
    {
      ok := AllBindable(batch);
      if ok {
        rows := rows + batch;
      }
    }
  }
}
