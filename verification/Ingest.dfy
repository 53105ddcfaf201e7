/** Ingesting scraped rows into the odds table: exact-key updates, near-duplicate skips, inserts. */
module Ingest {
  import opened Common
  import opened Windows

  /** The identity of a match row. */
  datatype Key = Key(country: string, league: string, season: int, date: int, time: Option<int>,
                     homeTeam: string, awayTeam: string)

  /** The columns a later scrape may fill in. */
  datatype Info = Info(result: Option<string>, odd1: Option<real>, oddX: Option<real>, odd2: Option<real>,
                       bets: Option<int>)

  datatype Row = Row(key: Key, info: Info)
  {
    predicate HasResult() { info.result.Some? && info.result.value != "" }
  }

  /** Same country, league, season and teams on another date at most two days away. */
  predicate NearDuplicate(a: Key, b: Key) {
    && a.country == b.country && a.league == b.league && a.season == b.season
    && a.homeTeam == b.homeTeam && a.awayTeam == b.awayTeam
    && NearDates(a.date, b.date)
  }

  /** COALESCE(new, old). */
  function Coalesce<T>(new_: Option<T>, old_: Option<T>): Option<T> {
    if new_.Some? then new_ else old_
  }

  function Merge(scraped: Info, stored: Info): Info {
    Info(Coalesce(scraped.result, stored.result), Coalesce(scraped.odd1, stored.odd1),
         Coalesce(scraped.oddX, stored.oddX),
         Coalesce(scraped.odd2, stored.odd2), Coalesce(scraped.bets, stored.bets))
  }

  /** UPDATE of every row with this key. */
  function Update(table: seq<Row>, val: Row): (r: seq<Row>)
    ensures |r| == |table|
    ensures forall i | 0 <= i < |table| ::
              r[i] == if table[i].key == val.key then Row(val.key, Merge(val.info, table[i].info)) else table[i]
  {
    seq(|table|, i requires 0 <= i < |table| =>
      if table[i].key == val.key then Row(val.key, Merge(val.info, table[i].info)) else table[i])
  }

  predicate Exists(table: seq<Row>, key: Key) { exists i | 0 <= i < |table| :: table[i].key == key }

  predicate Suspicious(table: seq<Row>, key: Key) {
    exists i | 0 <= i < |table| :: NearDuplicate(table[i].key, key)
  }

  predicate SuspiciousWithResult(table: seq<Row>, key: Key) {
    exists i | 0 <= i < |table| :: NearDuplicate(table[i].key, key) && table[i].HasResult()
  }

  /** A scraped row whose key is new is held back when a near duplicate is stored, unless only the
      scraped row has a result. */
  predicate HeldBack(table: seq<Row>, val: Row) {
    Suspicious(table, val.key) && (SuspiciousWithResult(table, val.key) || !val.HasResult())
  }

  /** The checking pass: the table with its updates so far, and the rows kept for insertion. */
  datatype Pass = Pass(table: seq<Row>, inserts: seq<Row>)

  function Check(pass: Pass, val: Row, allowUpdate: bool): Pass {
    if !Exists(pass.table, val.key) then
      if HeldBack(pass.table, val) then pass else pass.(inserts := pass.inserts + [val])
    else if allowUpdate then pass.(table := Update(pass.table, val))
    else pass
  }

  function CheckAll(table: seq<Row>, values: seq<Row>, allowUpdate: bool): Pass {
    if values == [] then Pass(table, [])
    else Check(CheckAll(table, values[..|values| - 1], allowUpdate), values[|values| - 1], allowUpdate)
  }

  /** insert_rows: check every row first, then insert what is left over. */
  function InsertRows(table: seq<Row>, values: seq<Row>, allowUpdate: bool): seq<Row> {
    var pass := CheckAll(table, values, allowUpdate);
    pass.table + pass.inserts
  }

  class OddsTable {
    var rows: seq<Row>

    constructor (rows: seq<Row>)
      ensures this.rows == rows
    {
      this.rows := rows;
    }

    method Ingest(values: seq<Row>, allowUpdate: bool)
      modifies this
      ensures rows == InsertRows(old(rows), values, allowUpdate)
    {
      if values == [] {
        assert rows + [] == rows;
        return;
      }
      var filtered := [];
      assert values[..0] == [];
      for k := 0 to |values|
        invariant Pass(rows, filtered) == CheckAll(old(rows), values[..k], allowUpdate)
      {
        assert values[..k + 1][..k] == values[..k];
        var val := values[k];
        if !Exists(rows, val.key) {
          if Suspicious(rows, val.key) {
            if SuspiciousWithResult(rows, val.key) {
              continue;
            } else if val.HasResult() {
              // the scraped row is the one with the result: insert it
            } else {
              continue;
            }
          }
          filtered := filtered + [val];
        } else if allowUpdate {
          rows := Update(rows, val);
        }
      }
      assert values[..|values|] == values;
      rows := rows + filtered;
    }
  }

  // ---- what one pass does ----

  ghost predicate DistinctKeys(rows: seq<Row>) {
    forall i, j | 0 <= i < j < |rows| :: rows[i].key != rows[j].key
  }

  /** Batches come out of the normaliser, which never emits an empty result. */
  ghost predicate Normalised(values: seq<Row>) {
    forall k | 0 <= k < |values| :: values[k].info.result != Some("")
  }

  /** Each stored row absorbs the batch row with its key, if updates are on; keys stay put. */
  ghost predicate Absorbs(table: seq<Row>, after: seq<Row>, values: seq<Row>, allowUpdate: bool) {
    && |after| == |table|
    && (forall i | 0 <= i < |table| :: after[i].key == table[i].key)
    && (forall i, k | 0 <= i < |table| && 0 <= k < |values| && values[k].key == table[i].key && allowUpdate ::
          after[i].info == Merge(values[k].info, table[i].info))
    && (forall i | 0 <= i < |table| && !(allowUpdate && Exists(values, table[i].key)) :: after[i] == table[i])
  }

  lemma ExistsAppend(rows: seq<Row>, row: Row, key: Key)
    ensures Exists(rows + [row], key) <==> Exists(rows, key) || row.key == key
  {
    if Exists(rows, key) {
      var i :| 0 <= i < |rows| && rows[i].key == key;
      assert (rows + [row])[i].key == key;
    }
    assert (rows + [row])[|rows|] == row;
  }

  lemma {:induction false} CheckAbsorbs(table: seq<Row>, values: seq<Row>, allowUpdate: bool)
    requires DistinctKeys(values)
    ensures Absorbs(table, CheckAll(table, values, allowUpdate).table, values, allowUpdate)
  {
    if values == [] {
    } else {
      var init, last := values[..|values| - 1], values[|values| - 1];
      CheckAbsorbs(table, init, allowUpdate);
      var before, after := CheckAll(table, init, allowUpdate).table, CheckAll(table, values, allowUpdate).table;
      forall i | 0 <= i < |table|
        ensures after[i] == if allowUpdate && table[i].key == last.key
                            then Row(last.key, Merge(last.info, before[i].info)) else before[i]
      {
        assert before[i].key == table[i].key;
      }
      forall i | 0 <= i < |table|
        ensures Exists(values, table[i].key) <==> Exists(init, table[i].key) || table[i].key == last.key
      {
        ExistsAppend(init, last, table[i].key);
        assert values == init + [last];
      }
    }
  }

  lemma ExistsByKeys(a: seq<Row>, b: seq<Row>, key: Key)
    requires |a| == |b| && forall i | 0 <= i < |a| :: a[i].key == b[i].key
    ensures Exists(a, key) == Exists(b, key) && Suspicious(a, key) == Suspicious(b, key)
  {
    if i :| 0 <= i < |a| && a[i].key == key { assert b[i].key == key; }
    if i :| 0 <= i < |b| && b[i].key == key { assert a[i].key == key; }
    if i :| 0 <= i < |a| && NearDuplicate(a[i].key, key) { assert NearDuplicate(b[i].key, key); }
    if i :| 0 <= i < |b| && NearDuplicate(b[i].key, key) { assert NearDuplicate(a[i].key, key); }
  }

  lemma EarlierKeysDiffer(values: seq<Row>)
    requires DistinctKeys(values) && values != []
    ensures forall row | row in values[..|values| - 1] :: row.key != values[|values| - 1].key
  {
    forall row | row in values[..|values| - 1] ensures row.key != values[|values| - 1].key {
      var k :| 0 <= k < |values| - 1 && values[..|values| - 1][k] == row;
      assert values[k] == row;
    }
  }

  lemma InsertsStep(table: seq<Row>, before: Pass, values: seq<Row>, allowUpdate: bool)
    requires values != []
    requires var init, last := values[..|values| - 1], values[|values| - 1];
             && (forall row | row in before.inserts :: row in init && !Exists(table, row.key))
             && (forall row | row in init :: row.key != last.key)
             && Exists(before.table, last.key) == Exists(table, last.key)
    requires DistinctKeys(before.inserts)
    ensures var inserts := Check(before, values[|values| - 1], allowUpdate).inserts;
            && (forall row | row in inserts :: row in values && !Exists(table, row.key))
            && DistinctKeys(inserts)
  {
    var init, last := values[..|values| - 1], values[|values| - 1];
    assert values == init + [last];
    assert forall j | 0 <= j < |before.inserts| :: before.inserts[j] in before.inserts;
  }

  /** The rows inserted are the batch rows with a new key that were not held back when checked. */
  lemma {:induction false} InsertsAre(table: seq<Row>, values: seq<Row>, allowUpdate: bool)
    requires DistinctKeys(values)
    ensures var inserts := CheckAll(table, values, allowUpdate).inserts;
            && (forall row | row in inserts :: row in values && !Exists(table, row.key))
            && DistinctKeys(inserts)
  {
    if values == [] {
    } else {
      var init, last := values[..|values| - 1], values[|values| - 1];
      InsertsAre(table, init, allowUpdate);
      CheckAbsorbs(table, init, allowUpdate);
      ExistsByKeys(CheckAll(table, init, allowUpdate).table, table, last.key);
      EarlierKeysDiffer(values);
      InsertsStep(table, CheckAll(table, init, allowUpdate), values, allowUpdate);
    }
  }

  // ---- unique keys and monotone columns ----

  /** A batch with distinct keys keeps match keys unique. */
  lemma IngestKeepsKeysUnique(table: seq<Row>, values: seq<Row>, allowUpdate: bool)
    requires DistinctKeys(table) && DistinctKeys(values)
    ensures DistinctKeys(InsertRows(table, values, allowUpdate))
  {
    var pass := CheckAll(table, values, allowUpdate);
    CheckAbsorbs(table, values, allowUpdate);
    InsertsAre(table, values, allowUpdate);
    forall i, j | 0 <= i < |table| && 0 <= j < |pass.inserts| ensures table[i].key != pass.inserts[j].key {
      assert pass.inserts[j] in pass.inserts;
    }
  }

  /** A stored value is never turned back into null. */
  predicate Keeps(before: Info, after: Info) {
    && (before.result.Some? ==> after.result.Some?) && (before.odd1.Some? ==> after.odd1.Some?)
    && (before.oddX.Some? ==> after.oddX.Some?) && (before.odd2.Some? ==> after.odd2.Some?)
    && (before.bets.Some? ==> after.bets.Some?)
  }

  lemma {:induction false} CheckSize(table: seq<Row>, values: seq<Row>, allowUpdate: bool)
    ensures |CheckAll(table, values, allowUpdate).table| == |table|
  {
    if values == [] {
    } else {
      CheckSize(table, values[..|values| - 1], allowUpdate);
    }
  }

  /** Whatever the batch, every stored row keeps its place, its key and its non-null columns. */
  lemma {:induction false} IngestNeverForgets(table: seq<Row>, values: seq<Row>, allowUpdate: bool)
    ensures var after := InsertRows(table, values, allowUpdate);
            && |table| <= |after|
            && forall i | 0 <= i < |table| :: after[i].key == table[i].key && Keeps(table[i].info, after[i].info)
  {
    if values == [] {
    } else {
      IngestNeverForgets(table, values[..|values| - 1], allowUpdate);
      CheckSize(table, values[..|values| - 1], allowUpdate);
    }
  }

  // ---- idempotence ----

  /** A table the batch has nothing left to do to: every batch row is either stored with all its
      values, or still held back. */
  ghost predicate Settled(table: seq<Row>, val: Row, allowUpdate: bool) {
    if Exists(table, val.key) then
      allowUpdate ==>
        forall i | 0 <= i < |table| && table[i].key == val.key :: Merge(val.info, table[i].info) == table[i].info
    else HeldBack(table, val)
  }

  lemma {:induction false} SettledIsFixed(table: seq<Row>, values: seq<Row>, allowUpdate: bool)
    requires forall k | 0 <= k < |values| :: Settled(table, values[k], allowUpdate)
    ensures CheckAll(table, values, allowUpdate) == Pass(table, [])
  {
    if values == [] {
    } else {
      var init, last := values[..|values| - 1], values[|values| - 1];
      SettledIsFixed(table, init, allowUpdate);
      if Exists(table, last.key) && allowUpdate {
        assert Update(table, last) == table;
      }
    }
  }

  lemma InsertsGrow(table: seq<Row>, values: seq<Row>, allowUpdate: bool, row: Row)
    requires values != [] && row in CheckAll(table, values[..|values| - 1], allowUpdate).inserts
    ensures row in CheckAll(table, values, allowUpdate).inserts
  {
  }

  lemma NewRowIsKept(pass: Pass, val: Row, allowUpdate: bool)
    requires !Exists(pass.table, val.key) && !HeldBack(pass.table, val)
    ensures val in Check(pass, val, allowUpdate).inserts
  {
  }

  lemma {:induction false} InsertedWhenKept(table: seq<Row>, values: seq<Row>, allowUpdate: bool, k: nat)
    requires DistinctKeys(values) && k < |values| && !Exists(table, values[k].key)
    requires !HeldBack(CheckAll(table, values[..k], allowUpdate).table, values[k])
    ensures values[k] in CheckAll(table, values, allowUpdate).inserts
  {
    var init := values[..|values| - 1];
    if k < |init| {
      assert init[..k] == values[..k];
      InsertedWhenKept(table, init, allowUpdate, k);
      InsertsGrow(table, values, allowUpdate, values[k]);
    } else {
      CheckAbsorbs(table, init, allowUpdate);
      ExistsByKeys(CheckAll(table, init, allowUpdate).table, table, values[k].key);
      NewRowIsKept(CheckAll(table, init, allowUpdate), values[k], allowUpdate);
    }
  }

  lemma NotInPrefix(values: seq<Row>, k: nat, j: nat)
    requires DistinctKeys(values) && k <= j < |values|
    ensures !Exists(values[..k], values[j].key)
  {
  }

  lemma NowhereInPrefix(values: seq<Row>, k: nat, key: Key)
    requires k <= |values| && !Exists(values, key)
    ensures !Exists(values[..k], key)
  {
    forall n | 0 <= n < k ensures values[..k][n].key != key {
      assert values[n].key != key;
    }
  }

  /** Results only appear: a row with a result at some point of the pass still has one later. */
  lemma ResultsStay(table: seq<Row>, values: seq<Row>, allowUpdate: bool, k: nat, i: nat)
    requires DistinctKeys(values) && Normalised(values) && k <= |values| && i < |table|
    requires |CheckAll(table, values[..k], allowUpdate).table| == |table|
    requires |CheckAll(table, values, allowUpdate).table| == |table|
    requires CheckAll(table, values[..k], allowUpdate).table[i].HasResult()
    ensures CheckAll(table, values, allowUpdate).table[i].HasResult()
  {
    var part := values[..k];
    CheckAbsorbs(table, part, allowUpdate);
    CheckAbsorbs(table, values, allowUpdate);
    if allowUpdate && Exists(values, table[i].key) {
      var j :| 0 <= j < |values| && values[j].key == table[i].key;
      if j < k {
        assert part[j].key == table[i].key;
      } else {
        NotInPrefix(values, k, j);
      }
    } else if allowUpdate {
      NowhereInPrefix(values, k, table[i].key);
    }
  }

  /** A row held back during the pass is held back by the final table as well. */
  lemma StillHeldBack(table: seq<Row>, values: seq<Row>, allowUpdate: bool, k: nat)
    requires DistinctKeys(values) && Normalised(values) && k < |values|
    requires HeldBack(CheckAll(table, values[..k], allowUpdate).table, values[k])
    ensures HeldBack(InsertRows(table, values, allowUpdate), values[k])
  {
    var val := values[k];
    var before, after := CheckAll(table, values[..k], allowUpdate).table, InsertRows(table, values, allowUpdate);
    CheckAbsorbs(table, values[..k], allowUpdate);
    CheckAbsorbs(table, values, allowUpdate);
    if SuspiciousWithResult(before, val.key) {
      var i :| 0 <= i < |before| && NearDuplicate(before[i].key, val.key) && before[i].HasResult();
      ResultsStay(table, values, allowUpdate, k, i);
      assert NearDuplicate(after[i].key, val.key) && after[i].HasResult();
    } else {
      var i :| 0 <= i < |before| && NearDuplicate(before[i].key, val.key);
      assert NearDuplicate(after[i].key, val.key);
    }
  }

  lemma NotStoredNotInserted(table: seq<Row>, values: seq<Row>, allowUpdate: bool, val: Row)
    requires DistinctKeys(values) && !Exists(InsertRows(table, values, allowUpdate), val.key)
    ensures !Exists(table, val.key) && val !in CheckAll(table, values, allowUpdate).inserts
  {
    var pass, after := CheckAll(table, values, allowUpdate), InsertRows(table, values, allowUpdate);
    CheckAbsorbs(table, values, allowUpdate);
    forall i | 0 <= i < |table| ensures table[i].key != val.key {
      assert after[i].key != val.key;
    }
    forall j | 0 <= j < |pass.inserts| ensures pass.inserts[j] != val {
      assert after[|table| + j].key != val.key;
    }
  }

  lemma BatchIsSettled(table: seq<Row>, values: seq<Row>, allowUpdate: bool, k: nat)
    requires DistinctKeys(values) && Normalised(values) && k < |values|
    ensures Settled(InsertRows(table, values, allowUpdate), values[k], allowUpdate)
  {
    var pass, after, val := CheckAll(table, values, allowUpdate), InsertRows(table, values, allowUpdate), values[k];
    CheckAbsorbs(table, values, allowUpdate);
    InsertsAre(table, values, allowUpdate);
    forall i | 0 <= i < |after| && after[i].key == val.key && allowUpdate
      ensures Merge(val.info, after[i].info) == after[i].info
    {
      if i >= |table| {
        var j := i - |table|;
        assert after[i] == pass.inserts[j] && pass.inserts[j] in pass.inserts;
        var n :| 0 <= n < |values| && values[n] == pass.inserts[j];
        assert n == k;
      }
    }
    if !Exists(after, val.key) {
      NotStoredNotInserted(table, values, allowUpdate, val);
      if HeldBack(CheckAll(table, values[..k], allowUpdate).table, val) {
        StillHeldBack(table, values, allowUpdate, k);
      } else {
        InsertedWhenKept(table, values, allowUpdate, k);
      }
    }
  }

  /** Ingesting the same batch again changes nothing: exact rows are stored with their values, and
      rows skipped as near duplicates are skipped again. */
  lemma IngestIsIdempotent(table: seq<Row>, values: seq<Row>, allowUpdate: bool)
    requires DistinctKeys(values) && Normalised(values)
    ensures InsertRows(InsertRows(table, values, allowUpdate), values, allowUpdate)
            == InsertRows(table, values, allowUpdate)
  {
    var after := InsertRows(table, values, allowUpdate);
    forall k | 0 <= k < |values| ensures Settled(after, values[k], allowUpdate) {
      BatchIsSettled(table, values, allowUpdate, k);
    }
    SettledIsFixed(after, values, allowUpdate);
    assert after + [] == after;
  }
}
