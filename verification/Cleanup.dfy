/** Pairwise clean-up of duplicate fixtures: same teams, different dates, at most two days apart. */
module Cleanup {
  import opened Common
  import opened Windows

  datatype Match = Match(
    id: int, country: Option<string>, league: string, season: int,
    homeTeam: string, awayTeam: string, date: int, result: Option<string>)
  {
    predicate HasResult() { result.Some? && result.value != "" }
  }

  /** Equality of every fixture column in SQL: a missing country equals nothing. */
  predicate SameFixture(a: Match, b: Match) {
    && a.country.Some? && a.country == b.country && a.league == b.league && a.season == b.season
    && a.homeTeam == b.homeTeam && a.awayTeam == b.awayTeam
  }

  predicate Duplicates(a: Match, b: Match) {
    SameFixture(a, b) && NearDates(a.date, b.date)
  }

  /** A row with a result beats one without; otherwise the earlier date wins. */
  predicate Better(a: Match, b: Match) {
    if a.HasResult() != b.HasResult() then a.HasResult() else a.date < b.date
  }

  predicate Keyed(rows: seq<Match>) { forall i, j | 0 <= i < j < |rows| :: rows[i].id != rows[j].id }

  /** The row loses to a duplicate that is in the table with it. */
  predicate Doomed(rows: seq<Match>, m: Match) {
    exists o | o in rows :: Duplicates(o, m) && Better(o, m)
  }

  // ---- the script ----

  function PairsWith(a: Match, rows: seq<Match>): (pairs: seq<(Match, Match)>)
    ensures forall p :: p in pairs <==> p.0 == a && p.1 in rows && a.id < p.1.id && Duplicates(a, p.1)
  {
    if rows == [] then []
    else (if a.id < rows[0].id && Duplicates(a, rows[0]) then [(a, rows[0])] else []) + PairsWith(a, rows[1..])
  }

  /** The self-join of the odds table on fixture and date window. */
  function DuplicatePairs(rows: seq<Match>, table: seq<Match>): (pairs: seq<(Match, Match)>)
    ensures forall p :: p in pairs <==> p.0 in rows && p.1 in table && p.0.id < p.1.id && Duplicates(p.0, p.1)
  {
    if rows == [] then [] else PairsWith(rows[0], table) + DuplicatePairs(rows[1..], table)
  }

  /** The id the script decides to delete from a pair. */
  function Loser(pair: (Match, Match)): int {
    if pair.0.HasResult() && !pair.1.HasResult() then pair.1.id
    else if pair.1.HasResult() && !pair.0.HasResult() then pair.0.id
    else if pair.0.date < pair.1.date then pair.1.id
    else pair.0.id
  }

  function Losers(pairs: seq<(Match, Match)>): (ids: seq<int>)
    ensures forall id :: id in ids <==> exists p | p in pairs :: Loser(p) == id
  {
    if pairs == [] then [] else [Loser(pairs[0])] + Losers(pairs[1..])
  }

  function Retain(rows: seq<Match>, ids: seq<int>): (kept: seq<Match>)
    ensures forall m :: m in kept <==> m in rows && m.id !in ids
  {
    if rows == [] then []
    else (if rows[0].id in ids then [] else [rows[0]]) + Retain(rows[1..], ids)
  }

  function Survivors(rows: seq<Match>): seq<Match> {
    Retain(rows, Losers(DuplicatePairs(rows, rows)))
  }

  /** The row that is kept of a pair is the better one. */
  lemma PairDecides(a: Match, b: Match)
    requires Duplicates(a, b) && a.id != b.id
    ensures if Loser((a, b)) == a.id then Duplicates(b, a) && Better(b, a)
            else Loser((a, b)) == b.id && Better(a, b)
  {
  }

  lemma SameRow(rows: seq<Match>, a: Match, b: Match)
    requires Keyed(rows) && a in rows && b in rows && a.id == b.id
    ensures a == b
  {
  }

  lemma DoomedBy(rows: seq<Match>, o: Match, m: Match)
    requires o in rows && Duplicates(o, m) && Better(o, m)
    ensures Doomed(rows, m)
  {
  }

  lemma LoserIsDoomed(rows: seq<Match>, m: Match)
    requires Keyed(rows) && m in rows && m.id in Losers(DuplicatePairs(rows, rows))
    ensures Doomed(rows, m)
  {
    var p :| p in DuplicatePairs(rows, rows) && Loser(p) == m.id;
    PairDecides(p.0, p.1);
    if Loser(p) == p.0.id {
      SameRow(rows, p.0, m);
      DoomedBy(rows, p.1, m);
    } else {
      SameRow(rows, p.1, m);
      DoomedBy(rows, p.0, m);
    }
  }

  lemma DoomedIsLoser(rows: seq<Match>, m: Match)
    requires Keyed(rows) && m in rows && Doomed(rows, m)
    ensures m.id in Losers(DuplicatePairs(rows, rows))
  {
    var o :| o in rows && Duplicates(o, m) && Better(o, m);
    var p := if o.id < m.id then (o, m) else (m, o);
    PairDecides(p.0, p.1);
    assert p in DuplicatePairs(rows, rows) && Loser(p) == m.id;
  }

  /** A row survives exactly when no duplicate of it is better. */
  lemma SurvivesIff(rows: seq<Match>, m: Match)
    requires Keyed(rows)
    ensures m in Survivors(rows) <==> m in rows && !Doomed(rows, m)
  {
    if m in rows {
      if Doomed(rows, m) { DoomedIsLoser(rows, m); }
      if m.id in Losers(DuplicatePairs(rows, rows)) { LoserIsDoomed(rows, m); }
    }
  }

  /** Some betting record points at one of the ids. */
  predicate Referenced(betMatchIds: seq<int>, ids: seq<int>) {
    exists id | id in betMatchIds :: id in ids
  }

  lemma {:induction false} LosersAppend(pairs: seq<(Match, Match)>, p: (Match, Match))
    ensures Losers(pairs + [p]) == Losers(pairs) + [Loser(p)]
  {
    if pairs == [] {
      assert [p][1..] == [] && pairs + [p] == [p];
    } else {
      assert (pairs + [p])[1..] == pairs[1..] + [p];
      LosersAppend(pairs[1..], p);
    }
  }

  lemma {:induction false} RetainShrinks(rows: seq<Match>, ids: seq<int>)
    ensures |Retain(rows, ids)| <= |rows|
  {
    if rows == [] {
    } else {
      RetainShrinks(rows[1..], ids);
    }
  }

  lemma {:induction false} RetainAll(rows: seq<Match>, ids: seq<int>)
    requires forall m | m in rows :: m.id !in ids
    ensures Retain(rows, ids) == rows
  {
    if rows == [] {
    } else {
      assert rows[0] in rows;
      RetainAll(rows[1..], ids);
    }
  }

  lemma KeepAll(rows: seq<Match>)
    requires DuplicatePairs(rows, rows) == []
    ensures Survivors(rows) == rows && Losers([]) == []
  {
    RetainAll(rows, Losers([]));
  }

  class OddsTable {
    var rows: seq<Match>

    constructor (rows: seq<Match>)
      ensures this.rows == rows
    {
      this.rows := rows;
    }

    method Delete(ids: seq<int>) returns (deleted: nat)
      modifies this
      ensures rows == Retain(old(rows), ids) && deleted == |old(rows)| - |rows|
    {
      var kept := Retain(rows, ids);
      RetainShrinks(rows, ids);
      deleted := |rows| - |kept|;
      rows := kept;
    }

    /** cleanup_duplicates. A dry run, or a betting record that points at a doomed row, leaves the
        table alone. */
    method CleanupDuplicates(dryRun: bool, betMatchIds: seq<int>) returns (deleted: nat)
      requires Keyed(rows)
      modifies this
      ensures var doomed := Losers(DuplicatePairs(old(rows), old(rows)));
              rows == if dryRun || Referenced(betMatchIds, doomed) then old(rows) else Survivors(old(rows))
      ensures deleted == |old(rows)| - |rows|
    {
      var duplicates := DuplicatePairs(rows, rows);
      if duplicates == [] {
        KeepAll(rows);
        assert !Referenced(betMatchIds, Losers(duplicates));
        return 0;
      }
      var idsToDelete := [];
      for k := 0 to |duplicates|
        invariant rows == old(rows)
        invariant idsToDelete == Losers(duplicates[..k])
      {
        var (m1, m2) := duplicates[k];
        var deleteId;
        if m1.HasResult() && !m2.HasResult() {
          deleteId := m2.id;
        } else if m2.HasResult() && !m1.HasResult() {
          deleteId := m1.id;
        } else if m1.date < m2.date {
          deleteId := m2.id;
        } else {
          deleteId := m1.id;
        }
        LosersAppend(duplicates[..k], duplicates[k]);
        assert duplicates[..k + 1] == duplicates[..k] + [duplicates[k]];
        idsToDelete := idsToDelete + [deleteId];
      }
      assert duplicates[..|duplicates|] == duplicates;
      assert idsToDelete == Losers(DuplicatePairs(rows, rows));
      if dryRun || Referenced(betMatchIds, idsToDelete) {
        return 0;
      }
      deleted := Delete(idsToDelete);
    }
  }

  // ---- what the clean-up promises ----

  /** Afterwards no two rows of a fixture lie within the window on different dates. */
  lemma NoDuplicatesSurvive(rows: seq<Match>, a: Match, b: Match)
    requires Keyed(rows) && a in Survivors(rows) && b in Survivors(rows)
    ensures !Duplicates(a, b)
  {
    SurvivesIff(rows, a);
    SurvivesIff(rows, b);
    assert Duplicates(a, b) ==> Duplicates(b, a);
  }

  lemma {:induction false} RetainKeyed(rows: seq<Match>, ids: seq<int>)
    requires Keyed(rows)
    ensures Keyed(Retain(rows, ids))
  {
    if rows == [] {
    } else {
      RetainKeyed(rows[1..], ids);
    }
  }

  /** A second run deletes nothing. */
  lemma CleanupIsIdempotent(rows: seq<Match>)
    requires Keyed(rows)
    ensures Survivors(Survivors(rows)) == Survivors(rows)
  {
    var kept := Survivors(rows);
    RetainKeyed(rows, Losers(DuplicatePairs(rows, rows)));
    forall m | m in kept ensures m.id !in Losers(DuplicatePairs(kept, kept)) {
      SurvivesIff(rows, m);
      if m.id in Losers(DuplicatePairs(kept, kept)) { LoserIsDoomed(kept, m); }
    }
    RetainAll(kept, Losers(DuplicatePairs(kept, kept)));
  }

  /** A path through the table in which each row is a better duplicate of the one before. */
  ghost predicate Climbs(rows: seq<Match>, path: seq<Match>) {
    && path != []
    && (forall k | 0 <= k < |path| :: path[k] in rows)
    && (forall k | 0 < k < |path| :: Duplicates(path[k], path[k - 1]) && Better(path[k], path[k - 1]))
  }

  ghost function Betters(rows: seq<Match>, m: Match): set<Match> {
    set o | o in rows && Better(o, m)
  }

  lemma BettersShrink(rows: seq<Match>, m: Match, o: Match)
    requires o in rows && Better(o, m)
    ensures Betters(rows, o) < Betters(rows, m)
  {
    assert o in Betters(rows, m) && o !in Betters(rows, o);
  }

  lemma ClimbExtends(rows: seq<Match>, m: Match, path: seq<Match>)
    requires Climbs(rows, path) && m in rows && Duplicates(path[0], m) && Better(path[0], m)
    ensures Climbs(rows, [m] + path)
  {
  }

  /** From every row a finite climb over ever better rows reaches a survivor. */
  lemma ClimbToSurvivor(rows: seq<Match>, m: Match) returns (path: seq<Match>)
    requires Keyed(rows) && m in rows
    ensures Climbs(rows, path) && path[0] == m && path[|path| - 1] in Survivors(rows)
    decreases Betters(rows, m)
  {
    SurvivesIff(rows, m);
    if Doomed(rows, m) {
      var o :| o in rows && Duplicates(o, m) && Better(o, m);
      BettersShrink(rows, m, o);
      var rest := ClimbToSurvivor(rows, o);
      path := [m] + rest;
      ClimbExtends(rows, m, rest);
    } else {
      path := [m];
    }
  }

  /** The end of a climb has a result if anything on it has, and stays within the same fixture. */
  lemma {:induction false} ClimbImproves(rows: seq<Match>, path: seq<Match>)
    requires Climbs(rows, path)
    ensures var top := path[|path| - 1]; top == path[0] || (Better(top, path[0]) && SameFixture(top, path[0]))
    ensures path[0].HasResult() ==> path[|path| - 1].HasResult()
  {
    if |path| == 1 {
    } else {
      ClimbImproves(rows, path[..|path| - 1]);
    }
  }

  /** Rows linked by duplicates in either direction. */
  ghost predicate Linked(rows: seq<Match>, path: seq<Match>) {
    && path != []
    && (forall k | 0 <= k < |path| :: path[k] in rows)
    && (forall k | 0 < k < |path| :: Duplicates(path[k], path[k - 1]))
  }

  ghost predicate Connected(rows: seq<Match>, a: Match, b: Match) {
    exists path :: Linked(rows, path) && path[0] == a && path[|path| - 1] == b
  }

  lemma DuplicatesConnect(rows: seq<Match>, a: Match, b: Match)
    requires a in rows && b in rows && Duplicates(b, a)
    ensures Connected(rows, a, b)
  {
    assert Linked(rows, [a, b]);
  }

  /** Every group of linked rows keeps its best row. */
  lemma GroupKeepsBest(rows: seq<Match>, best: Match)
    requires Keyed(rows) && best in rows
    requires forall o | o in rows && Connected(rows, best, o) :: !Better(o, best)
    ensures best in Survivors(rows)
  {
    SurvivesIff(rows, best);
    forall o | o in rows && Duplicates(o, best) ensures Connected(rows, best, o) {
      DuplicatesConnect(rows, best, o);
    }
  }

  lemma LinkedJoin(rows: seq<Match>, p: seq<Match>, q: seq<Match>)
    requires Linked(rows, p) && Linked(rows, q) && p[|p| - 1] == q[0]
    ensures Linked(rows, p + q[1..])
  {
    var path := p + q[1..];
    forall k | |p| <= k < |path| ensures path[k] in rows && Duplicates(path[k], path[k - 1]) {
      assert path[k] == q[k - |p| + 1] && path[k - 1] == q[k - |p|];
    }
  }

  lemma PathsJoin(rows: seq<Match>, a: Match, b: Match, c: Match)
    requires Connected(rows, a, b) && Connected(rows, b, c)
    ensures Connected(rows, a, c)
  {
    var p :| Linked(rows, p) && p[0] == a && p[|p| - 1] == b;
    var q :| Linked(rows, q) && q[0] == b && q[|q| - 1] == c;
    var path := p + q[1..];
    LinkedJoin(rows, p, q);
    assert path[0] == a && path[|path| - 1] == c;
  }

  /** A row that none of the first n rows linked to m beats. */
  ghost predicate BestSoFar(rows: seq<Match>, m: Match, n: nat, best: Match)
    requires n <= |rows|
  {
    && best in rows && Connected(rows, m, best)
    && forall k | 0 <= k < n && Connected(rows, m, rows[k]) :: !Better(rows[k], best)
  }

  lemma {:induction false} BestExists(rows: seq<Match>, m: Match, n: nat) returns (best: Match)
    requires m in rows && n <= |rows|
    ensures BestSoFar(rows, m, n, best)
  {
    if n == 0 {
      best := m;
      assert Linked(rows, [m]);
    } else {
      best := BestExists(rows, m, n - 1);
      if Connected(rows, m, rows[n - 1]) && Better(rows[n - 1], best) { best := rows[n - 1]; }
    }
  }

  /** Every group of linked rows has a row none of the group beats, and it survives. */
  lemma GroupHasSurvivingBest(rows: seq<Match>, m: Match) returns (best: Match)
    requires Keyed(rows) && m in rows
    ensures best in Survivors(rows) && Connected(rows, m, best)
    ensures forall o | o in rows && Connected(rows, m, o) :: !Better(o, best)
  {
    best := BestExists(rows, m, |rows|);
    forall o | o in rows && Connected(rows, best, o) ensures !Better(o, best) {
      PathsJoin(rows, m, best, o);
    }
    GroupKeepsBest(rows, best);
  }

  /** No fixture loses all its results: a row with a result survives, or an earlier row of its
      fixture with a result, perhaps a different one, survives in its place. */
  lemma ResultsSurvive(rows: seq<Match>, m: Match) returns (heir: Match)
    requires Keyed(rows) && m in rows && m.HasResult()
    ensures heir in Survivors(rows) && heir.HasResult()
    ensures heir == m || (SameFixture(heir, m) && heir.date < m.date)
  {
    var path := ClimbToSurvivor(rows, m);
    ClimbImproves(rows, path);
    heir := path[|path| - 1];
  }

  lemma {:induction false} RetainNone(rows: seq<Match>, ids: seq<int>)
    requires forall k | 0 <= k < |rows| :: rows[k].id in ids
    ensures Retain(rows, ids) == []
  {
    if rows == [] {
    } else {
      RetainNone(rows[1..], ids);
    }
  }

  lemma {:induction false} RetainOnlyFirst(rows: seq<Match>, ids: seq<int>)
    requires rows != [] && rows[0].id !in ids && forall k | 0 < k < |rows| :: rows[k].id in ids
    ensures Retain(rows, ids) == [rows[0]]
  {
    RetainNone(rows[1..], ids);
  }

  lemma BestIsKept(rows: seq<Match>, m: Match)
    requires Keyed(rows) && m in rows && forall o | o in rows :: !Better(o, m)
    ensures m.id !in Losers(DuplicatePairs(rows, rows))
  {
    SurvivesIff(rows, m);
  }

  /** A ladder of duplicates, each better than the next, collapses to its first row. */
  lemma LadderCollapses(rows: seq<Match>)
    requires Keyed(rows) && rows != []
    requires forall k | 0 < k < |rows| :: Duplicates(rows[k - 1], rows[k]) && Better(rows[k - 1], rows[k])
    requires forall o | o in rows :: !Better(o, rows[0])
    ensures Survivors(rows) == [rows[0]]
  {
    forall k | 0 < k < |rows| ensures rows[k].id in Losers(DuplicatePairs(rows, rows)) {
      assert rows[k - 1] in rows && Duplicates(rows[k - 1], rows[k]);
      DoomedIsLoser(rows, rows[k]);
    }
    BestIsKept(rows, rows[0]);
    RetainOnlyFirst(rows, Losers(DuplicatePairs(rows, rows)));
  }

  /** Of two duplicates with results the later one is deleted, whatever it says. */
  lemma LaterResultIsLost(early: Match, late: Match)
    requires early.id != late.id && Duplicates(early, late) && early.date < late.date
    requires early.HasResult() && late.HasResult()
    ensures Survivors([early, late]) == [early]
  {
    LadderCollapses([early, late]);
  }

  /** Undecided rows of one fixture, two days apart each. */
  function Spread(n: nat): (rows: seq<Match>)
    ensures |rows| == n
    ensures forall k | 0 <= k < n :: rows[k] == Match(k, Some("x"), "l", 2024, "h", "g", WINDOW * k, None)
  {
    seq(n, k => Match(k, Some("x"), "l", 2024, "h", "g", WINDOW * k, None))
  }

  /** The window is not transitive: of n rows two days apart only the first survives, although the
      last one lies any number of days away from it. */
  lemma DeletionCanLeaveTheWindow(n: nat)
    requires n > 0
    ensures Survivors(Spread(n)) == [Spread(n)[0]]
    ensures Spread(n)[n - 1].date - Spread(n)[0].date == WINDOW * (n - 1)
  {
    LadderCollapses(Spread(n));
  }
}
