/** The indicator tables and their upsert template. Both templates insert
    the key (id column, timeframe, date) followed by 17 indicator columns,
    and on a key conflict replace exactly those 17 columns; any other
    stored column (the equity table's `is_final`) keeps its value. */
module Sql {

  /** A value SQLite stores: NULL (also what a NaN becomes), a number or
      text. */
  datatype Cell = Null | Num(r: real) | Int(i: int) | Text(s: string)

  /** The conflict key (id column, timeframe, date). */
  datatype Key = Key(id: Cell, timeframe: Cell, date: Cell)

  /** A stored indicator row: the 17 replaced columns, and `is_final`,
      the one column no template names. */
  datatype StoredRow = StoredRow(indicators: seq<Cell>, isFinal: Cell)

  type Table = map<Key, StoredRow>

  /** The shape of an `INSERT ... ON CONFLICT DO UPDATE` template. */
  datatype Template = Template(columns: seq<string>, placeholders: nat, conflict: seq<string>, updated: seq<string>)

  const IndicatorColumns: seq<string> := [
    "sma_20", "sma_50", "sma_200",
    "rsi_3", "rsi_9", "rsi_14",
    "bb_upper", "bb_middle", "bb_lower",
    "atr_14", "supertrend", "supertrend_dir",
    "ema_rsi_9_3", "wma_rsi_9_21", "pct_price_change",
    "macd", "macd_signal"]

  /** `SQL_INSERT[kind]` after substituting `col_id`: the equity and the
      index entries are this same template. */
  function InsertTemplate(colId: string): (t: Template)
    ensures |t.columns| == t.placeholders == 20
    ensures t.conflict == t.columns[..3] == [colId, "timeframe", "date"]
    ensures t.updated == t.columns[3..] && |t.updated| == 17
  {
    Template([colId, "timeframe", "date"] + IndicatorColumns, 20, [colId, "timeframe", "date"], IndicatorColumns)
  }

  /** Why a statement was refused. */
  datatype Status = Done | WrongBindingCount(supplied: nat)

  /** Binding one record to the template, and the upsert it performs: a
      record whose length differs from the 20 placeholders is refused;
      otherwise a new key gets a new row (with `is_final` left NULL) and
      an existing key has its 17 indicator columns replaced. */
  function Upsert(t: Table, record: seq<Cell>): (r: (Table, Status))
    ensures r.1 == Done <==> |record| == 20
    ensures r.1 != Done ==> r.0 == t
  {
    if |record| != 20 then (t, WrongBindingCount(|record|))
    else
      var k := Key(record[0], record[1], record[2]);
      var isFinal := if k in t then t[k].isFinal else Null;
      (t[k := StoredRow(record[3..], isFinal)], Done)
  }

  /** What a bound record writes: its indicator values under its key,
      the key's stored `is_final` kept, every other key left alone. */
  lemma UpsertWrites(t: Table, record: seq<Cell>)
    requires |record| == 20
    ensures var r := Upsert(t, record).0;
      var k := Key(record[0], record[1], record[2]);
      k in r && r[k].indicators == record[3..]
      && (k in t ==> r[k].isFinal == t[k].isFinal)
      && forall k' :: k' != k ==> (k' in r <==> k' in t) && (k' in t ==> r[k'] == t[k'])
  {
  }

  /** `executemany`: the records in order, stopping at the first one that
      cannot be bound; the rows written before it stay written. */
  function ExecuteMany(t: Table, records: seq<seq<Cell>>): (Table, Status)
    decreases |records|
  {
    if |records| == 0 then (t, Done)
    else
      var prev := ExecuteMany(t, records[..|records| - 1]);
      if prev.1 != Done then prev else Upsert(prev.0, records[|records| - 1])
  }

  predicate WellFormed(records: seq<seq<Cell>>) {
    forall j :: 0 <= j < |records| ==> |records[j]| == 20
  }

  function KeyOf(record: seq<Cell>): Key
    requires |record| >= 3
  {
    Key(record[0], record[1], record[2])
  }

  predicate HasKey(records: seq<seq<Cell>>, k: Key)
    requires WellFormed(records)
  {
    exists j :: 0 <= j < |records| && KeyOf(records[j]) == k
  }

  /** The indicator values of the last record carrying key k. */
  function LastFor(records: seq<seq<Cell>>, k: Key): seq<Cell>
    requires WellFormed(records) && HasKey(records, k)
    decreases |records|
  {
    var last := records[|records| - 1];
    if KeyOf(last) == k then last[3..]
    else
      var init := records[..|records| - 1];
      assert HasKey(init, k) by {
        var j :| 0 <= j < |records| && KeyOf(records[j]) == k;
        assert j < |records| - 1 && init[j] == records[j];
      }
      LastFor(init, k)
  }

  /** What a batch leaves at key k: the last write for a key it carries
      (keeping the stored `is_final`), the old row otherwise. */
  lemma {:induction false} ExecuteManyAt(t: Table, records: seq<seq<Cell>>, k: Key)
    requires WellFormed(records)
    ensures ExecuteMany(t, records).1 == Done
    ensures var r := ExecuteMany(t, records).0;
      (k in r <==> k in t || HasKey(records, k))
      && (k in r ==> r[k] == if HasKey(records, k)
            then StoredRow(LastFor(records, k), if k in t then t[k].isFinal else Null)
            else t[k])
    decreases |records|
  {
    if |records| > 0 {
      var init := records[..|records| - 1];
      var last := records[|records| - 1];
      assert WellFormed(init) by {
        forall j | 0 <= j < |init| ensures |init[j]| == 20 {
          assert init[j] == records[j];
        }
      }
      ExecuteManyAt(t, init, k);
      assert HasKey(records, k) <==> HasKey(init, k) || KeyOf(last) == k by {
        if HasKey(records, k) && KeyOf(last) != k {
          var j :| 0 <= j < |records| && KeyOf(records[j]) == k;
          assert j < |records| - 1 && init[j] == records[j];
        }
        if HasKey(init, k) {
          var j :| 0 <= j < |init| && KeyOf(init[j]) == k;
          assert records[j] == init[j];
        }
      }
    }
  }

  /** Running the same batch again leaves the table as the first run left
      it: re-running a refresh over unchanged bars rewrites identical
      values. */
  lemma ExecuteManyIdempotent(t: Table, records: seq<seq<Cell>>)
    requires WellFormed(records)
    ensures var once := ExecuteMany(t, records).0;
      ExecuteMany(once, records) == (once, Done)
  {
    var once := ExecuteMany(t, records).0;
    var twice := ExecuteMany(once, records);
    forall k
      ensures (k in twice.0 <==> k in once) && (k in once ==> twice.0[k] == once[k])
    {
      ExecuteManyAt(t, records, k);
      ExecuteManyAt(once, records, k);
    }
    ExecuteManyAt(once, records, Key(Null, Null, Null));
    assert twice.0 == once;
  }

  /** A batch whose first record cannot be bound writes nothing. */
  lemma {:induction false} ExecuteManyRefusedFirst(t: Table, records: seq<seq<Cell>>)
    requires |records| > 0 && |records[0]| != 20
    ensures ExecuteMany(t, records) == (t, WrongBindingCount(|records[0]|))
    decreases |records|
  {
    if |records| > 1 {
      var init := records[..|records| - 1];
      assert init[0] == records[0];
      ExecuteManyRefusedFirst(t, init);
    }
  }

  /** The table an upsert statement runs against, changed in place. */
  class IndicatorTable {
    var rows: Table

    constructor (initial: Table)
      ensures rows == initial
    {
      rows := initial;
    }

    /** `cur.executemany(sql, records)`: binds and runs the records one
        by one and raises at the first record of the wrong length. */
    method ExecuteManyInPlace(records: seq<seq<Cell>>) returns (status: Status)
      modifies this
      ensures (rows, status) == ExecuteMany(old(rows), records)
    {
      var i := 0;
      status := Done;
      while i < |records|
        invariant 0 <= i <= |records| && status == Done
        invariant (rows, status) == ExecuteMany(old(rows), records[..i])
      {
        assert records[..i + 1][..i] == records[..i];
        var r := Upsert(rows, records[i]);
        assert r == ExecuteMany(old(rows), records[..i + 1]);
        rows := r.0;
        status := r.1;
        if status != Done {
          ExecuteManyStops(old(rows), records, i + 1);
          return;
        }
        i := i + 1;
      }
      assert records[..i] == records;
    }
  }

  /** Once a prefix of a batch has failed, the whole batch ends the same
      way. */
  lemma {:induction false} ExecuteManyStops(t: Table, records: seq<seq<Cell>>, i: nat)
    requires i <= |records| && ExecuteMany(t, records[..i]).1 != Done
    ensures ExecuteMany(t, records) == ExecuteMany(t, records[..i])
    decreases |records| - i
  {
    if i < |records| {
      assert records[..i + 1][..i] == records[..i];
      ExecuteManyStops(t, records, i + 1);
    } else {
      assert records[..i] == records;
    }
  }
}
