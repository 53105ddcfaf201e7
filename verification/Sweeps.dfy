/** The match-driven and the user-driven sweep: closed forms, order independence, agreement. */
module Sweeps {
  import opened Common
  import opened PyText
  import opened Scores
  import opened Records
  import opened Settlement
  import opened Plans

  // ---- the match-driven sweep ----

  /** What one odds row says about one open bet; None when it says nothing. */
  function RowVerdict(row: Row, bet: Bet): Option<bool> {
    if IsFinished(row) && IsValidFootballResult(row.result) && Selects(UnsettledFor(row), bet)
       && ParseScore(row.result.value).Some?
    then Some(Wins(bet, ParseScore(row.result.value).value))
    else None
  }

  /** The first row with something to say decides. */
  function FirstVerdict(rows: seq<Row>, bet: Bet): Option<bool> {
    if rows == [] then None
    else
      var init := FirstVerdict(rows[..|rows| - 1], bet);
      if init.Some? then init else RowVerdict(rows[|rows| - 1], bet)
  }

  function SweepPlan(rows: seq<Row>, bets: seq<Bet>): (plan: Plan)
    ensures |plan| == |bets|
    ensures forall i | 0 <= i < |bets| :: plan[i] == FirstVerdict(rows, bets[i])
  {
    seq(|bets|, i requires 0 <= i < |bets| => FirstVerdict(rows, bets[i]))
  }

  lemma {:induction false} NoVerdictMeansNone(rows: seq<Row>, bet: Bet)
    requires FirstVerdict(rows, bet).None?
    ensures forall row | row in rows :: RowVerdict(row, bet).None?
  {
    if rows == [] {
    } else {
      var init, last := rows[..|rows| - 1], rows[|rows| - 1];
      NoVerdictMeansNone(init, bet);
      assert rows == init + [last];
    }
  }

  lemma {:induction false} VerdictHasItsRow(rows: seq<Row>, bet: Bet) returns (row: Row)
    requires FirstVerdict(rows, bet).Some?
    ensures row in rows && RowVerdict(row, bet) == FirstVerdict(rows, bet)
  {
    var init := rows[..|rows| - 1];
    if FirstVerdict(init, bet).Some? {
      row := VerdictHasItsRow(init, bet);
    } else {
      row := rows[|rows| - 1];
    }
  }

  lemma FirstVerdictIsAVerdict(rows: seq<Row>, bet: Bet)
    ensures FirstVerdict(rows, bet).Some? ==>
              exists row | row in rows :: RowVerdict(row, bet) == FirstVerdict(rows, bet)
    ensures FirstVerdict(rows, bet).None? ==> forall row | row in rows :: RowVerdict(row, bet).None?
  {
    if FirstVerdict(rows, bet).Some? {
      var row := VerdictHasItsRow(rows, bet);
    } else {
      NoVerdictMeansNone(rows, bet);
    }
  }

  lemma {:induction false} HeadVerdictWins(rows: seq<Row>, bet: Bet)
    requires rows != [] && RowVerdict(rows[0], bet).Some?
    ensures FirstVerdict(rows, bet) == RowVerdict(rows[0], bet)
  {
    var init := rows[..|rows| - 1];
    if init == [] {
      assert FirstVerdict(init, bet) == None;
    } else {
      HeadVerdictWins(init, bet);
    }
  }

  /** The picks of one more row, laid over the plan so far, give the plan with that row added. */
  lemma MatchOverlay(bets0: seq<Bet>, bets: seq<Bet>, rows: seq<Row>, row: Row, score: Score, now: int)
    requires |bets| == |bets0|
    requires forall i | 0 <= i < |bets| :: bets[i] == Planned(bets0[i], FirstVerdict(rows, bets0[i]), now)
    requires IsFinished(row) && IsValidFootballResult(row.result) && ParseScore(row.result.value) == Some(score)
    ensures Overlay(SweepPlan(rows, bets0), PicksAgainst(bets, Select(bets, UnsettledFor(row)), score))
            == SweepPlan(rows + [row], bets0)
  {
    var found := Select(bets, UnsettledFor(row));
    var picks := PicksAgainst(bets, found, score);
    var plan, plan' := SweepPlan(rows, bets0), SweepPlan(rows + [row], bets0);
    assert (rows + [row])[..|rows|] == rows;
    forall i | 0 <= i < |plan| ensures Picked(picks, i) || plan'[i] == plan[i] {
      if Selects(UnsettledFor(row), bets[i]) {
        var k :| 0 <= k < |found| && found[k] == i;
        assert picks[k].bet == i;
      }
    }
    OverlayIs(plan, picks, plan');
  }

  lemma SelectedAreSound(bets: seq<Bet>, row: Row, score: Score)
    ensures Sound(bets, PicksAgainst(bets, Select(bets, UnsettledFor(row)), score))
  {
  }

  lemma MatchRealises(book0: Book, tally: Tally, rows: seq<Row>, row: Row, now: int)
    requires Realises(book0, tally.book, SweepPlan(rows, book0.bets), SWEEP, now)
    requires Reports(book0, tally, SweepPlan(rows, book0.bets), SWEEP)
    requires IsFinished(row) && IsValidFootballResult(row.result)
    ensures var after, plan := SettleMatch(tally, row, now), SweepPlan(rows + [row], book0.bets);
            Realises(book0, after.book, plan, SWEEP, now) && Reports(book0, after, plan, SWEEP)
  {
    ValidResultParses(row.result.value);
    var bets, plan, score := tally.book.bets, SweepPlan(rows, book0.bets), ParseScore(row.result.value).value;
    var picks := PicksAgainst(bets, Select(bets, UnsettledFor(row)), score);
    MatchOverlay(book0.bets, bets, rows, row, score, now);
    SelectedAreSound(bets, row, score);
    PicksRealise(book0, tally, plan, picks, SWEEP, now);
  }

  lemma SkippedRow(rows: seq<Row>, row: Row, bets: seq<Bet>)
    requires !(IsFinished(row) && IsValidFootballResult(row.result))
    ensures SweepPlan(rows + [row], bets) == SweepPlan(rows, bets)
  {
    assert (rows + [row])[..|rows|] == rows;
  }

  ghost predicate RowsSettle(book0: Book, rows: seq<Row>, now: int) {
    var after, plan := SweepRows(Tally(book0, 0, 0.0), rows, now), SweepPlan(rows, book0.bets);
    Realises(book0, after.book, plan, SWEEP, now) && Reports(book0, after, plan, SWEEP)
  }

  lemma NoRowsSettle(book0: Book, now: int)
    ensures RowsSettle(book0, [], now)
  {
    StartRealises(book0, SWEEP, now);
    assert SweepPlan([], book0.bets) == Idle(|book0.bets|);
  }

  lemma NextRowSettles(book0: Book, rows: seq<Row>, now: int)
    requires rows != [] && RowsSettle(book0, rows[..|rows| - 1], now)
    ensures RowsSettle(book0, rows, now)
  {
    var init, last := rows[..|rows| - 1], rows[|rows| - 1];
    assert init + [last] == rows;
    if IsFinished(last) && IsValidFootballResult(last.result) {
      MatchRealises(book0, SweepRows(Tally(book0, 0, 0.0), init, now), init, last, now);
    } else {
      SkippedRow(init, last, book0.bets);
    }
  }

  lemma {:induction false} SweepRowsRealises(book0: Book, rows: seq<Row>, now: int)
    ensures RowsSettle(book0, rows, now)
  {
    if rows == [] {
      NoRowsSettle(book0, now);
    } else {
      SweepRowsRealises(book0, rows[..|rows| - 1], now);
      NextRowSettles(book0, rows, now);
    }
  }

  /** The sweep in closed form: a bet is closed exactly when some finished row matches it, by the
      first such row; each balance grows by what that owes its user; the totals say so. */
  lemma SweepClosedForm(book: Book, now: int)
    ensures var after, plan := SettleAllFinished(book, now), SweepPlan(book.rows, book.bets);
            Realises(book, after.book, plan, SWEEP, now) && Reports(book, after, plan, SWEEP)
  {
    SweepRowsRealises(book, book.rows, now);
  }

  /** No two rows that match the same open bet disagree on whether it won. */
  ghost predicate RowsAgree(rows: seq<Row>, bets: seq<Bet>) {
    forall bet, r1, r2 | bet in bets && r1 in rows && r2 in rows ::
      RowVerdict(r1, bet).Some? && RowVerdict(r2, bet).Some? ==> RowVerdict(r1, bet) == RowVerdict(r2, bet)
  }

  ghost predicate OrderIrrelevant(book: Book, now: int) {
    forall rows | Permutes(book.rows, rows) ::
      SameOutcome(SettleAllFinished(book, now), SettleAllFinished(book.(rows := rows), now))
  }

  lemma AgreeingRowsGiveOnePlan(rows: seq<Row>, rows': seq<Row>, bets: seq<Bet>)
    requires RowsAgree(rows, bets) && Permutes(rows, rows')
    ensures SweepPlan(rows, bets) == SweepPlan(rows', bets)
  {
    forall i | 0 <= i < |bets| ensures FirstVerdict(rows, bets[i]) == FirstVerdict(rows', bets[i]) {
      FirstVerdictIsAVerdict(rows, bets[i]);
      FirstVerdictIsAVerdict(rows', bets[i]);
      forall row ensures row in rows <==> row in rows' { PermutesKeepsMembers(rows, rows', row); }
    }
  }

  lemma MoveToFront(rows: seq<Row>, k: nat) returns (rest: seq<Row>)
    requires k < |rows|
    ensures Permutes(rows, [rows[k]] + rest)
  {
    rest := rows[..k] + rows[k + 1..];
    assert rows == rows[..k] + [rows[k]] + rows[k + 1..];
  }

  lemma FrontRowDecides(book: Book, bet: Bet, row: Row, now: int)
    requires OrderIrrelevant(book, now) && bet in book.bets && row in book.rows && RowVerdict(row, bet).Some?
    ensures FirstVerdict(book.rows, bet) == RowVerdict(row, bet)
  {
    var k :| 0 <= k < |book.rows| && book.rows[k] == row;
    var i :| 0 <= i < |book.bets| && book.bets[i] == bet;
    var rest := MoveToFront(book.rows, k);
    var rows := [row] + rest;
    HeadVerdictWins(rows, bet);
    SweepClosedForm(book, now);
    SweepClosedForm(book.(rows := rows), now);
    PlansDecide(book, SettleAllFinished(book, now), SweepPlan(book.rows, book.bets),
                book.(rows := rows), SettleAllFinished(book.(rows := rows), now), SweepPlan(rows, book.bets),
                SWEEP, SWEEP, now);
    assert SweepPlan(book.rows, book.bets)[i] == SweepPlan(rows, book.bets)[i];
  }

  /** The order in which the database returns the finished matches is irrelevant exactly when no
      two of them disagree about an open bet. */
  lemma SweepOrderIndependentIff(book: Book, now: int)
    ensures OrderIrrelevant(book, now) <==> RowsAgree(book.rows, book.bets)
  {
    if RowsAgree(book.rows, book.bets) {
      forall rows | Permutes(book.rows, rows)
        ensures SameOutcome(SettleAllFinished(book, now), SettleAllFinished(book.(rows := rows), now))
      {
        AgreeingRowsGiveOnePlan(book.rows, rows, book.bets);
        SweepClosedForm(book, now);
        SweepClosedForm(book.(rows := rows), now);
        PlansDecide(book, SettleAllFinished(book, now), SweepPlan(book.rows, book.bets),
                    book.(rows := rows), SettleAllFinished(book.(rows := rows), now), SweepPlan(rows, book.bets),
                    SWEEP, SWEEP, now);
      }
    }
    if OrderIrrelevant(book, now) {
      forall bet, r1, r2 | bet in book.bets && r1 in book.rows && r2 in book.rows
                           && RowVerdict(r1, bet).Some? && RowVerdict(r2, bet).Some?
        ensures RowVerdict(r1, bet) == RowVerdict(r2, bet)
      {
        FrontRowDecides(book, bet, r1, now);
        FrontRowDecides(book, bet, r2, now);
      }
    }
  }

  // ---- the user-driven sweep ----

  /** Running the per-user settlement for a list of users, one after the other. */
  function AutoSettleAll(tally: Tally, users: seq<int>, now: int): (r: Tally)
    ensures |r.book.bets| == |tally.book.bets| && r.book.rows == tally.book.rows
    ensures r.book.funds.Keys == tally.book.funds.Keys
  {
    if users == [] then tally
    else AutoSettle(AutoSettleAll(tally, users[..|users| - 1], now), users[|users| - 1], now)
  }

  function UserDecision(rows: seq<Row>, bet: Bet, users: seq<int>, now: int): Option<bool> {
    if bet.userId in users && !bet.settled then UserVerdict(rows, bet, now) else None
  }

  function UserPlan(rows: seq<Row>, bets: seq<Bet>, users: seq<int>, now: int): (plan: Plan)
    ensures |plan| == |bets|
    ensures forall i | 0 <= i < |bets| :: plan[i] == UserDecision(rows, bets[i], users, now)
  {
    seq(|bets|, i requires 0 <= i < |bets| => UserDecision(rows, bets[i], users, now))
  }

  lemma PicksFromLast(found: seq<nat>, said: seq<Option<bool>>)
    requires found != [] && forall k | 0 <= k < |found| :: found[k] < |said|
    ensures var init, last := PicksFrom(found[..|found| - 1], said), found[|found| - 1];
            PicksFrom(found, said) == init + if said[last].Some? then [Pick(last, said[last].value)] else []
  {
  }

  lemma {:induction false} PicksFollowVerdicts(found: seq<nat>, said: seq<Option<bool>>, k: nat)
    requires forall k | 0 <= k < |found| :: found[k] < |said|
    requires k < |PicksFrom(found, said)|
    ensures said[PicksFrom(found, said)[k].bet] == Some(PicksFrom(found, said)[k].won)
  {
    PicksFromLast(found, said);
    if k < |PicksFrom(found[..|found| - 1], said)| { PicksFollowVerdicts(found[..|found| - 1], said, k); }
  }

  lemma {:induction false} PicksAreDistinct(found: seq<nat>, said: seq<Option<bool>>, j: nat, k: nat)
    requires forall k | 0 <= k < |found| :: found[k] < |said|
    requires forall j, k | 0 <= j < k < |found| :: found[j] < found[k]
    requires j < k < |PicksFrom(found, said)|
    ensures PicksFrom(found, said)[j].bet != PicksFrom(found, said)[k].bet
  {
    var earlier := found[..|found| - 1];
    PicksFromLast(found, said);
    if k < |PicksFrom(earlier, said)| {
      PicksAreDistinct(earlier, said, j, k);
    } else {
      assert PicksFrom(earlier, said)[j].bet in earlier;
    }
  }

  lemma {:induction false} VerdictIsPicked(found: seq<nat>, said: seq<Option<bool>>, i: nat)
    requires forall k | 0 <= k < |found| :: found[k] < |said|
    requires i in found && said[i].Some?
    ensures Pick(i, said[i].value) in PicksFrom(found, said)
  {
    var init, last := found[..|found| - 1], found[|found| - 1];
    assert found == init + [last];
    if i == last {
    } else {
      VerdictIsPicked(init, said, i);
    }
  }

  /** The picks of a per-user run are exactly the found bets with a verdict, each once. */
  lemma PicksFromExact(found: seq<nat>, said: seq<Option<bool>>)
    requires forall k | 0 <= k < |found| :: found[k] < |said|
    requires forall j, k | 0 <= j < k < |found| :: found[j] < found[k]
    ensures var picks := PicksFrom(found, said);
            && (forall j, k | 0 <= j < k < |picks| :: picks[j].bet != picks[k].bet)
            && (forall k | 0 <= k < |picks| :: said[picks[k].bet] == Some(picks[k].won))
            && (forall i | i in found && said[i].Some? :: Pick(i, said[i].value) in picks)
  {
    var picks := PicksFrom(found, said);
    forall k | 0 <= k < |picks| ensures said[picks[k].bet] == Some(picks[k].won) {
      PicksFollowVerdicts(found, said, k);
    }
    forall j, k | 0 <= j < k < |picks| ensures picks[j].bet != picks[k].bet { PicksAreDistinct(found, said, j, k); }
    forall i | i in found && said[i].Some? ensures Pick(i, said[i].value) in picks { VerdictIsPicked(found, said, i); }
  }

  lemma UserOverlay(bets0: seq<Bet>, bets: seq<Bet>, plan: Plan, said: Plan, plan': Plan, user: int, now: int)
    requires |bets| == |bets0| == |plan| == |plan'| == |said|
    requires forall i | 0 <= i < |bets| :: bets[i] == Planned(bets0[i], plan[i], now)
    requires forall i | 0 <= i < |bets| ::
               plan'[i] == if !bets[i].settled && bets[i].userId == user then said[i] else plan[i]
    ensures var picks := PicksFrom(Select(bets, UnsettledOf(user)), said);
            Sound(bets, picks) && Overlay(plan, picks) == plan'
  {
    var found := Select(bets, UnsettledOf(user));
    var picks := PicksFrom(found, said);
    PicksFromExact(found, said);
    forall pick | pick in picks ensures Picked(picks, pick.bet) { MemberIsPicked(picks, pick); }
    OverlayIs(plan, picks, plan');
  }

  /** One more user decides the bets that user has open, and no others. */
  lemma DecisionNext(rows: seq<Row>, bet: Bet, users: seq<int>, user: int, now: int)
    ensures var now' := Planned(bet, UserDecision(rows, bet, users, now), now);
            UserDecision(rows, bet, users + [user], now)
            == if !now'.settled && now'.userId == user
               then UserVerdict(rows, now', now)
               else UserDecision(rows, bet, users, now)
  {
  }

  lemma UserStepRealises(book0: Book, before: Tally, users: seq<int>, user: int, now: int)
    requires Realises(book0, before.book, UserPlan(book0.rows, book0.bets, users, now), AUTO, now)
    requires Reports(book0, before, UserPlan(book0.rows, book0.bets, users, now), AUTO)
    ensures var after, plan := AutoSettle(before, user, now), UserPlan(book0.rows, book0.bets, users + [user], now);
            Realises(book0, after.book, plan, AUTO, now) && Reports(book0, after, plan, AUTO)
  {
    var plan := UserPlan(book0.rows, book0.bets, users, now);
    var plan' := UserPlan(book0.rows, book0.bets, users + [user], now);
    var bets, said := before.book.bets, Verdicts(book0.rows, before.book.bets, now);
    forall i | 0 <= i < |bets|
      ensures plan'[i] == if !bets[i].settled && bets[i].userId == user then said[i] else plan[i]
    {
      DecisionNext(book0.rows, book0.bets[i], users, user, now);
    }
    UserOverlay(book0.bets, bets, plan, said, plan', user, now);
    PicksRealise(book0, before, plan, PicksOf(before.book, user, now), AUTO, now);
  }

  /** Settling users in turn realises the plan that decides all their bets. */
  ghost predicate UsersSettle(book0: Book, users: seq<int>, now: int) {
    var after, plan := AutoSettleAll(Tally(book0, 0, 0.0), users, now), UserPlan(book0.rows, book0.bets, users, now);
    Realises(book0, after.book, plan, AUTO, now) && Reports(book0, after, plan, AUTO)
  }

  lemma NoUsersSettle(book0: Book, now: int)
    ensures UsersSettle(book0, [], now)
  {
    StartRealises(book0, AUTO, now);
    assert UserPlan(book0.rows, book0.bets, [], now) == Idle(|book0.bets|);
  }

  lemma NextUserSettles(book0: Book, users: seq<int>, now: int)
    requires users != [] && UsersSettle(book0, users[..|users| - 1], now)
    ensures UsersSettle(book0, users, now)
  {
    var init, user := users[..|users| - 1], users[|users| - 1];
    assert users == init + [user];
    UserStepRealises(book0, AutoSettleAll(Tally(book0, 0, 0.0), init, now), init, user, now);
  }

  lemma {:induction false} AutoSettleAllRealises(book0: Book, users: seq<int>, now: int)
    ensures UsersSettle(book0, users, now)
  {
    if users == [] {
      NoUsersSettle(book0, now);
    } else {
      AutoSettleAllRealises(book0, users[..|users| - 1], now);
      NextUserSettles(book0, users, now);
    }
  }

  // ---- the two sweeps side by side ----

  /** For every open bet, the first finished row says what the per-user look-up says. */
  ghost predicate VerdictsAgree(book: Book, users: seq<int>, now: int) {
    forall bet | bet in book.bets && !bet.settled ::
      FirstVerdict(book.rows, bet) == UserDecision(book.rows, bet, users, now)
  }

  lemma SettledBetsStayClosed(rows: seq<Row>, bet: Bet)
    requires bet.settled
    ensures FirstVerdict(rows, bet).None?
  {
    FirstVerdictIsAVerdict(rows, bet);
  }

  /** The match-driven sweep and the user-driven sweep over all users close the same bets, with
      the same outcomes, balances and totals, exactly when their verdicts agree bet by bet. */
  lemma SweepsAgreeIff(book: Book, users: seq<int>, now: int)
    ensures SameOutcome(SettleAllFinished(book, now), AutoSettleAll(Tally(book, 0, 0.0), users, now))
            <==> VerdictsAgree(book, users, now)
  {
    var plan, plan' := SweepPlan(book.rows, book.bets), UserPlan(book.rows, book.bets, users, now);
    SweepClosedForm(book, now);
    AutoSettleAllRealises(book, users, now);
    PlansDecide(book, SettleAllFinished(book, now), plan,
                book, AutoSettleAll(Tally(book, 0, 0.0), users, now), plan', SWEEP, AUTO, now);
    if VerdictsAgree(book, users, now) {
      forall i | 0 <= i < |plan| ensures plan[i] == plan'[i] {
        if book.bets[i].settled { SettledBetsStayClosed(book.rows, book.bets[i]); }
      }
      assert plan == plan';
    } else {
      var bet :| bet in book.bets && !bet.settled
                 && FirstVerdict(book.rows, bet) != UserDecision(book.rows, bet, users, now);
      var i :| 0 <= i < |book.bets| && book.bets[i] == bet;
      assert plan[i] != plan'[i];
    }
  }

  /** The bet names one existing row, and its team string names no other. */
  ghost predicate Linked(rows: seq<Row>, bet: Bet) {
    && bet.matchId.Some? && bet.matchId.value != 0
    && (exists row | row in rows :: row.id == bet.matchId.value)
    && (forall row | row in rows && row.Teams() == bet.matchTeams :: row.id == bet.matchId.value)
  }

  lemma ValidIsFinished(row: Row)
    requires IsValidFootballResult(row.result)
    ensures IsFinished(row)
  {
    var t := row.result.value;
    ValidResultParses(t);
    assert Split("null", '-') == ["null"];
  }

  /** The prediction names the side that scored more, or a draw when neither did. */
  predicate Predicts(prediction: string, score: Score) {
    || (Lower(prediction) == "home" && score.home > score.away)
    || (Lower(prediction) == "away" && score.home < score.away)
    || (Lower(prediction) == "draw" && score.home == score.away)
  }

  lemma WinsIffPredicts(bet: Bet, score: Score)
    ensures Wins(bet, score) <==> Predicts(bet.selectedOutcome, score)
  {
    assert "home"[0] != "away"[0] && "home"[0] != "draw"[0] && "away"[0] != "draw"[0];
  }

  /** From the stored text to the verdict: a score in range, written N-M, closes the open bets of
      its match as won exactly when they predicted it. */
  lemma PredictionDecides(row: Row, bet: Bet, score: Score)
    requires InRange(score) && row.result == Some(RenderScore(score)) && Selects(UnsettledFor(row), bet)
    ensures RowVerdict(row, bet) == Some(Predicts(bet.selectedOutcome, score))
  {
    RenderedScoreParses(score);
    ValidIsFinished(row);
    WinsIffPredicts(bet, score);
  }

  lemma OnlyLinkedRowSpeaks(rows: seq<Row>, r: Row, bet: Bet)
    requires Linked(rows, bet) && r in rows && RowVerdict(r, bet).Some?
    ensures r.id == bet.matchId.value
  {
  }

  lemma LinkedRowDecides(rows: seq<Row>, row: Row, bet: Bet, now: int)
    requires !bet.settled && Linked(rows, bet) && RowById(rows, bet.matchId.value) == Some(row)
    requires IsValidFootballResult(row.result) ==> row.HasBeenPlayed(now)
    ensures RowVerdict(row, bet) == UserVerdict(rows, bet, now)
  {
    if IsValidFootballResult(row.result) {
      ValidIsFinished(row);
      ValidResultParses(row.result.value);
    }
  }

  lemma LinkedVerdicts(rows: seq<Row>, bet: Bet, now: int)
    requires forall r1, r2 | r1 in rows && r2 in rows && r1.id == r2.id :: r1 == r2
    requires !bet.settled && Linked(rows, bet)
    requires forall row | row in rows && IsValidFootballResult(row.result) :: row.HasBeenPlayed(now)
    ensures FirstVerdict(rows, bet) == UserVerdict(rows, bet, now)
  {
    var row := RowById(rows, bet.matchId.value).value;
    LinkedRowDecides(rows, row, bet, now);
    forall r | r in rows && RowVerdict(r, bet).Some? ensures r == row {
      OnlyLinkedRowSpeaks(rows, r, bet);
    }
    FirstVerdictIsAVerdict(rows, bet);
  }

  /** On linked bets, with every valid result already played, both sweeps reach the same state. */
  lemma LinkedBetsSettleAlike(book: Book, users: seq<int>, now: int)
    requires forall r1, r2 | r1 in book.rows && r2 in book.rows && r1.id == r2.id :: r1 == r2
    requires forall bet | bet in book.bets && !bet.settled :: bet.userId in users && Linked(book.rows, bet)
    requires forall row | row in book.rows && IsValidFootballResult(row.result) :: row.HasBeenPlayed(now)
    ensures SameOutcome(SettleAllFinished(book, now), AutoSettleAll(Tally(book, 0, 0.0), users, now))
  {
    forall bet | bet in book.bets && !bet.settled
      ensures FirstVerdict(book.rows, bet) == UserDecision(book.rows, bet, users, now)
    {
      LinkedVerdicts(book.rows, bet, now);
    }
    SweepsAgreeIff(book, users, now);
  }
}
