/** When the joined and the single-match settlement end like the match-driven sweep. */
module Agreement {
  import opened Common
  import opened Scores
  import opened Records
  import opened Settlement
  import opened Plans
  import opened Sweeps
  import opened Once

  // ---- the joined settlement ----

  function JoinDecision(rows: seq<Row>, bets: seq<Bet>, i: nat): Option<bool>
    requires i < |bets|
  {
    var picks := JoinPicks(rows, bets, i);
    if picks == [] then None else Some(picks[0].won)
  }

  function JoinPlan(rows: seq<Row>, bets: seq<Bet>): (plan: Plan)
    ensures |plan| == |bets|
    ensures forall i | 0 <= i < |bets| :: plan[i] == JoinDecision(rows, bets, i)
  {
    seq(|bets|, i requires 0 <= i < |bets| => JoinDecision(rows, bets, i))
  }

  lemma {:induction false} ConcatMembers(lists: seq<seq<Pick>>, pick: Pick)
    requires OwnLists(lists)
    ensures pick in Concat(lists) <==> pick.bet < |lists| && pick in lists[pick.bet]
  {
    if lists == [] {
    } else {
      var init, last := lists[..|lists| - 1], |lists| - 1;
      ConcatMembers(init, pick);
      if pick in lists[last] {
        var k :| 0 <= k < |lists[last]| && lists[last][k] == pick;
        assert pick.bet == last;
      }
    }
  }

  /** Lists of at most one pick each, laid over an idle plan. */
  lemma ConcatOverlay(lists: seq<seq<Pick>>, plan: Plan)
    requires |plan| == |lists| && OwnLists(lists)
    requires forall i | 0 <= i < |lists| :: |lists[i]| <= 1
    requires forall i | 0 <= i < |lists| :: plan[i] == if lists[i] == [] then None else Some(lists[i][0].won)
    ensures Overlay(Idle(|plan|), Concat(lists)) == plan
  {
    var picks := Concat(lists);
    forall k | 0 <= k < |picks| ensures plan[picks[k].bet] == Some(picks[k].won) {
      ConcatMembers(lists, picks[k]);
    }
    forall i | 0 <= i < |plan| ensures Picked(picks, i) || plan[i] == Idle(|plan|)[i] {
      if lists[i] != [] {
        assert lists[i][0].bet == i && lists[i][0] in lists[i];
        ConcatMembers(lists, lists[i][0]);
        MemberIsPicked(picks, lists[i][0]);
      }
    }
    OverlayIs(Idle(|plan|), picks, plan);
  }

  lemma JoinedPicks(book: Book)
    requires JoinsOnce(book)
    ensures var picks := ReadPicks(Join(book.rows, book.bets, |book.bets|), book.bets);
            Sound(book.bets, picks) && Overlay(Idle(|book.bets|), picks) == JoinPlan(book.rows, book.bets)
  {
    JoinByBet(book.rows, book.bets, |book.bets|);
    JoinListsAreOwn(book.rows, book.bets);
    JoinedIsSound(book);
    ConcatOverlay(JoinLists(book.rows, book.bets, |book.bets|), JoinPlan(book.rows, book.bets));
  }

  /** The joined settlement in closed form, when no open bet joins two readable rows. */
  lemma JoinedClosedForm(book: Book, now: int)
    requires JoinsOnce(book)
    ensures var after, plan := SettleJoined(book, now), JoinPlan(book.rows, book.bets);
            Realises(book, after.book, plan, JOINED, now) && Reports(book, after, plan, JOINED)
  {
    JoinedPicks(book);
    FreshRunRealises(book, ReadPicks(Join(book.rows, book.bets, |book.bets|), book.bets), JOINED, now);
  }

  /** Every bet is decided by the join as by the first finished row. */
  predicate JoinAgrees(book: Book) {
    forall i | 0 <= i < |book.bets| :: JoinDecision(book.rows, book.bets, i) == FirstVerdict(book.rows, book.bets[i])
  }

  /** Where no bet joins twice and no winnings are negative, the joined settlement ends like the
      sweep if and only if the two decide every bet alike. */
  lemma JoinedLikeSweepIff(book: Book, now: int)
    requires JoinsOnce(book) && NoNegativeWinnings(book.bets)
    ensures SameOutcome(SettleAllFinished(book, now), SettleJoined(book, now)) <==> JoinAgrees(book)
  {
    var plan, plan' := SweepPlan(book.rows, book.bets), JoinPlan(book.rows, book.bets);
    SweepClosedForm(book, now);
    JoinedClosedForm(book, now);
    PlansDecide(book, SettleAllFinished(book, now), plan, book, SettleJoined(book, now), plan', SWEEP, JOINED, now);
    assert plan == plan' <==> JoinAgrees(book);
  }

  // ---- one match ----

  function QueryPlan(bets: seq<Bet>, query: Query, score: Score): (plan: Plan)
    ensures |plan| == |bets|
    ensures forall i | 0 <= i < |bets| ::
              plan[i] == if Selects(query, bets[i]) then Some(Wins(bets[i], score)) else None
  {
    seq(|bets|, i requires 0 <= i < |bets| => if Selects(query, bets[i]) then Some(Wins(bets[i], score)) else None)
  }

  lemma FoundIsPicked(bets: seq<Bet>, found: seq<nat>, score: Score, i: nat)
    requires i in found && forall k | 0 <= k < |found| :: found[k] < |bets|
    ensures Picked(PicksAgainst(bets, found, score), i)
  {
    var k :| 0 <= k < |found| && found[k] == i;
    assert PicksAgainst(bets, found, score)[k].bet == i;
  }

  lemma FoundPicks(bets: seq<Bet>, query: Query, score: Score)
    requires forall bet | Selects(query, bet) :: !bet.settled
    ensures var picks := PicksAgainst(bets, Select(bets, query), score);
            Sound(bets, picks) && Overlay(Idle(|bets|), picks) == QueryPlan(bets, query, score)
  {
    var found, plan := Select(bets, query), QueryPlan(bets, query, score);
    var picks := PicksAgainst(bets, found, score);
    forall i | 0 <= i < |plan| ensures Picked(picks, i) || plan[i] == Idle(|plan|)[i] {
      if Selects(query, bets[i]) { FoundIsPicked(bets, found, score, i); }
    }
    forall k | 0 <= k < |picks| ensures plan[picks[k].bet] == Some(picks[k].won) {
      assert picks[k].bet == found[k] && Selects(query, bets[found[k]]);
    }
    OverlayIs(Idle(|plan|), picks, plan);
  }

  /** Settling what a query for open bets finds, in closed form. */
  lemma FoundRealises(book: Book, query: Query, score: Score, policy: Policy, now: int)
    requires forall bet | Selects(query, bet) :: !bet.settled
    ensures var picks := PicksAgainst(book.bets, Select(book.bets, query), score);
            var plan := QueryPlan(book.bets, query, score);
            var after := SettlePicks(Tally(book, 0, 0.0), picks, policy, now);
            Realises(book, after.book, plan, policy, now) && Reports(book, after, plan, policy)
  {
    FoundPicks(book.bets, query, score);
    FreshRunRealises(book, PicksAgainst(book.bets, Select(book.bets, query), score), policy, now);
  }

  /** The two ways to find the open bets of a match. */
  predicate SameBets(bets: seq<Bet>, row: Row) {
    forall i | 0 <= i < |bets| :: Selects(UnsettledFor(row), bets[i]) == Selects(UnsettledForLegacy(row), bets[i])
  }

  lemma QueryPlansAlike(bets: seq<Bet>, query: Query, query': Query, score: Score)
    ensures QueryPlan(bets, query, score) == QueryPlan(bets, query', score)
            <==> forall i | 0 <= i < |bets| :: Selects(query, bets[i]) == Selects(query', bets[i])
  {
    var plan, plan' := QueryPlan(bets, query, score), QueryPlan(bets, query', score);
    if i :| 0 <= i < |bets| && Selects(query, bets[i]) != Selects(query', bets[i]) {
      assert plan[i] != plan'[i];
    }
  }

  /** Two queries for open bets, settled against one score, end alike exactly when they find the
      same bets. */
  lemma FoundAlikeIff(book: Book, query: Query, query': Query, score: Score, policy: Policy, policy': Policy, now: int)
    requires NoNegativeWinnings(book.bets)
    requires forall bet | Selects(query, bet) || Selects(query', bet) :: !bet.settled
    ensures SameOutcome(
              SettlePicks(Tally(book, 0, 0.0), PicksAgainst(book.bets, Select(book.bets, query), score), policy, now),
              SettlePicks(Tally(book, 0, 0.0), PicksAgainst(book.bets, Select(book.bets, query'), score), policy', now))
            <==> forall i | 0 <= i < |book.bets| :: Selects(query, book.bets[i]) == Selects(query', book.bets[i])
  {
    var plan, plan' := QueryPlan(book.bets, query, score), QueryPlan(book.bets, query', score);
    FoundRealises(book, query, score, policy, now);
    FoundRealises(book, query', score, policy', now);
    PlansDecide(book,
                SettlePicks(Tally(book, 0, 0.0), PicksAgainst(book.bets, Select(book.bets, query), score), policy, now),
                plan, book,
                SettlePicks(Tally(book, 0, 0.0), PicksAgainst(book.bets, Select(book.bets, query'), score),
                            policy', now),
                plan',
                policy, policy', now);
    QueryPlansAlike(book.bets, query, query', score);
  }

  lemma EmptyDoesNotParse()
    ensures ParseScore("").None?
  {
  }

  lemma SpecificIs(book: Book, matchId: int, now: int)
    requires RowById(book.rows, matchId).Some?
    requires var result := RowById(book.rows, matchId).value.result; result.Some? && ParseScore(result.value).Some?
    ensures var row := RowById(book.rows, matchId).value;
            SettleSpecific(book, matchId, now)
            == Ok(SettlePicks(Tally(book, 0, 0.0),
                              PicksAgainst(book.bets, Select(book.bets, UnsettledForLegacy(row)),
                                           ParseScore(row.result.value).value),
                              SPECIFIC, now))
  {
    EmptyDoesNotParse();
  }

  /** Without negative winnings the single-match settlement ends like the sweep's settlement of that
      match if and only if both queries find the same open bets. */
  lemma SpecificLikeMatchIff(book: Book, matchId: int, now: int)
    requires RowById(book.rows, matchId).Some? && NoNegativeWinnings(book.bets)
    requires var result := RowById(book.rows, matchId).value.result; result.Some? && ParseScore(result.value).Some?
    ensures SettleSpecific(book, matchId, now).Ok?
    ensures var row := RowById(book.rows, matchId).value;
            SameOutcome(SettleMatch(Tally(book, 0, 0.0), row, now), SettleSpecific(book, matchId, now).payload)
            <==> SameBets(book.bets, row)
  {
    var row := RowById(book.rows, matchId).value;
    SpecificIs(book, matchId, now);
    FoundAlikeIff(book, UnsettledFor(row), UnsettledForLegacy(row), ParseScore(row.result.value).value, SWEEP,
                  SPECIFIC, now);
  }
}
