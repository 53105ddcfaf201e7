/** Concrete books on which the unguarded properties fail. */
module Pitfalls {
  import opened Common
  import opened PyText
  import opened Scores
  import opened Records
  import opened Settlement
  import opened Plans
  import opened Sweeps
  import opened Entries
  import opened Once
  import opened Reverts
  import opened Guard

  function DuplicateRow(id: int, score: Score): Row
    requires InRange(score)
  {
    Row(id, "A", "B", Some(RenderScore(score)), 0)
  }

  function OpenBet(matchId: Option<int>): Bet {
    Bet(7, 1, 10.0, 2.0, matchId, "A vs B", None, "home", Pending, false, None, None, Upcoming)
  }

  function TwoRowBook(first: Score, second: Score): Book
    requires InRange(first) && InRange(second)
  {
    Book([DuplicateRow(1, first), DuplicateRow(2, second)], [OpenBet(None)], map[1 := 0.0], [])
  }

  // ---- LIKE finds plain substrings ----

  lemma {:induction false} LikeAnything(s: string)
    ensures Like("%", s)
  {
    if s == [] {
    } else {
      LikeAnything(s[1..]);
    }
  }

  lemma {:induction false} LikeSkips(pattern: string, skipped: string, s: string)
    requires pattern != [] && pattern[0] == '%' && Like(pattern, s)
    ensures Like(pattern, skipped + s)
  {
    if skipped == [] {
      assert skipped + s == s;
    } else {
      LikeSkips(pattern, skipped[1..], s);
      assert (skipped + s)[1..] == skipped[1..] + s;
    }
  }

  lemma LegacyMatchesDuplicate(id: int, score: Score)
    requires InRange(score)
    ensures LegacyMatch(DuplicateRow(id, score), OpenBet(None))
  {
    var teams := "A vs B";
    LikeAnything(" vs B");
    assert teams[1..] == " vs B" && "A%"[1..] == "%" && "%A%"[1..] == "A%";
    assert Like("A%", teams);
    assert "%" + "A" + "%" == "%A%" && Like("%A%", teams);
    LikeAnything("");
    assert "B"[1..] == "" && "B%"[1..] == "%" && "%B%"[1..] == "B%";
    assert Like("B%", "B");
    assert Like("%B%", "B");
    LikeSkips("%B%", "A vs ", "B");
    assert "A vs " + "B" == teams && "%" + "B" + "%" == "%B%";
  }

  lemma DuplicateWins(score: Score)
    ensures Wins(OpenBet(None), score) == (score.home > score.away)
  {
    assert Lower("home") == "home";
  }

  lemma HomeWinsReadOff(id: int, score: Score)
    requires InRange(score)
    ensures ReadLine(JoinLine(0, DuplicateRow(id, score)), [OpenBet(None)]) == [Pick(0, score.home > score.away)]
    ensures RenderScore(score) != ""
  {
    RenderedScoreParses(score);
    DuplicateWins(score);
  }

  lemma TwoJoins(r1: Row, r2: Row, bet: Bet)
    requires Joins(r1, bet) && Joins(r2, bet)
    ensures JoinsOf([r1, r2], [bet], 0) == [JoinLine(0, r1), JoinLine(0, r2)]
  {
    assert [r1, r2][..1] == [r1] && [r1][..0] == [];
    assert JoinsOf([r1], [bet], 0) == [JoinLine(0, r1)];
  }

  lemma ReadOne(lines: seq<JoinLine>, bets: seq<Bet>)
    requires |lines| == 1 && lines[0].bet < |bets| && lines[0].row.result.Some?
    ensures ReadPicks(lines, bets) == ReadLine(lines[0], bets)
  {
    assert lines[..0] == [];
  }

  lemma ReadTwo(lines: seq<JoinLine>, bets: seq<Bet>)
    requires |lines| == 2 && forall k | 0 <= k < 2 :: lines[k].bet < |bets| && lines[k].row.result.Some?
    ensures ReadPicks(lines, bets) == ReadLine(lines[0], bets) + ReadLine(lines[1], bets)
  {
    ReadOne(lines[..1], bets);
  }

  /** Two rows that both join and read as a win yield two picks of the same bet. */
  lemma TwoLines(r1: Row, r2: Row, bet: Bet)
    requires Joins(r1, bet) && Joins(r2, bet)
    requires ReadLine(JoinLine(0, r1), [bet]) == ReadLine(JoinLine(0, r2), [bet]) == [Pick(0, true)]
    ensures JoinPicks([r1, r2], [bet], 0) == [Pick(0, true), Pick(0, true)]
    ensures ReadPicks(Join([r1, r2], [bet], 1), [bet]) == [Pick(0, true), Pick(0, true)]
  {
    TwoJoins(r1, r2, bet);
    ReadTwo([JoinLine(0, r1), JoinLine(0, r2)], [bet]);
    assert Join([r1, r2], [bet], 1) == Join([r1, r2], [bet], 0) + JoinsOf([r1, r2], [bet], 0);
  }

  /** Settling the same bet twice credits it twice and records it twice. */
  lemma TwicePaid(tally: Tally, pick: Pick, now: int)
    requires pick.bet < |tally.book.bets| && pick.won
    requires var bet := tally.book.bets[pick.bet]; bet.userId in tally.book.funds && bet.Winnings() > 0.0
    ensures var bet, after := tally.book.bets[pick.bet], SettlePicks(tally, [pick, pick], JOINED, now).book;
            && after.funds[bet.userId] == tally.book.funds[bet.userId] + bet.Winnings() + bet.Winnings()
            && EntriesOf(after.ledger, bet.id) == EntriesOf(tally.book.ledger, bet.id) + 2
  {
    var bet := tally.book.bets[pick.bet];
    assert [pick, pick][..1] == [pick] && [pick][..0] == [];
    var once := SettleCounted(tally, pick, JOINED, now);
    assert SettlePicks(tally, [pick], JOINED, now) == once;
    var closed := once.book.bets[pick.bet];
    assert closed.Winnings() == bet.Winnings();
    var balance := tally.book.funds[bet.userId];
    EntriesAppend(tally.book.ledger, SettlementEntry(JOINED, bet, true, balance), bet.id);
    EntriesAppend(once.book.ledger, SettlementEntry(JOINED, closed, true, once.book.funds[bet.userId]), bet.id);
  }

  /** A book with one open bet and an empty ledger. */
  function LoneBook(r1: Row, r2: Row, bet: Bet): Book {
    Book([r1, r2], [bet], map[bet.userId := 0.0], [])
  }

  lemma LoneBookIsSound(r1: Row, r2: Row, bet: Bet)
    requires !bet.settled
    ensures SettledOnce(LoneBook(r1, r2, bet))
  {
  }

  lemma JoinsTwice(book: Book, i: nat, picks: seq<Pick>)
    requires i < |book.bets| && JoinPicks(book.rows, book.bets, i) == picks && |picks| == 2
    ensures !JoinsOnce(book)
  {
  }

  lemma JoinedIs(book: Book, picks: seq<Pick>, now: int)
    requires ReadPicks(Join(book.rows, book.bets, |book.bets|), book.bets) == picks
    ensures SettleJoined(book, now) == SettlePicks(Tally(book, 0, 0.0), picks, JOINED, now)
  {
  }

  /** Any lone open winner that joins two rows is paid twice. */
  lemma DoubleJoinPaysTwice(r1: Row, r2: Row, bet: Bet, now: int)
    requires Joins(r1, bet) && Joins(r2, bet) && bet.Winnings() > 0.0
    requires ReadLine(JoinLine(0, r1), [bet]) == ReadLine(JoinLine(0, r2), [bet]) == [Pick(0, true)]
    ensures !JoinsOnce(LoneBook(r1, r2, bet))
    ensures var after := SettleJoined(LoneBook(r1, r2, bet), now).book;
            after.funds[bet.userId] == bet.Winnings() + bet.Winnings() && EntriesOf(after.ledger, bet.id) == 2
  {
    var book, picks := LoneBook(r1, r2, bet), [Pick(0, true), Pick(0, true)];
    TwoLines(r1, r2, bet);
    JoinsTwice(book, 0, picks);
    JoinedIs(book, picks, now);
    TwicePaid(Tally(book, 0, 0.0), Pick(0, true), now);
  }

  /** An old bet without a match id and two odds rows of the same fixture: the joined settlement
      pays the stake twice over. */
  lemma JoinedPaysTwice(now: int)
    ensures var book := TwoRowBook(Score(1, 0), Score(1, 0));
            && SettledOnce(book)
            && !JoinsOnce(book)
            && SettleJoined(book, now).book.funds[1] == 40.0
            && EntriesOf(SettleJoined(book, now).book.ledger, 7) == 2
  {
    var score := Score(1, 0);
    LegacyMatchesDuplicate(1, score);
    LegacyMatchesDuplicate(2, score);
    HomeWinsReadOff(1, score);
    HomeWinsReadOff(2, score);
    LoneBookIsSound(DuplicateRow(1, score), DuplicateRow(2, score), OpenBet(None));
    DoubleJoinPaysTwice(DuplicateRow(1, score), DuplicateRow(2, score), OpenBet(None), now);
  }

  lemma DuplicateSelects(id: int, score: Score)
    requires InRange(score)
    ensures Selects(UnsettledFor(DuplicateRow(id, score)), OpenBet(None))
  {
    assert DuplicateRow(id, score).Teams() == "A vs B";
  }

  lemma DuplicateVerdict(id: int, score: Score)
    requires InRange(score)
    ensures RowVerdict(DuplicateRow(id, score), OpenBet(None)) == Some(score.home > score.away)
  {
    DuplicateSelects(id, score);
    PredictionDecides(DuplicateRow(id, score), OpenBet(None), score);
    WinsIffPredicts(OpenBet(None), score);
    DuplicateWins(score);
  }

  lemma LoneDue(bets: seq<Bet>, plan: Plan, policy: Policy, users: set<int>)
    requires |bets| == |plan| == 1
    ensures Due(bets, plan, policy, users) == DueOf(bets[0], plan[0], policy, users)
  {
    assert bets[..0] == [] && plan[..0] == [];
  }

  lemma FirstRowDecides(first: Score, second: Score, now: int)
    requires InRange(first) && InRange(second)
    ensures SettleAllFinished(TwoRowBook(first, second), now).book.funds[1]
            == if first.home > first.away then 20.0 else 0.0
  {
    var book := TwoRowBook(first, second);
    DuplicateVerdict(1, first);
    HeadVerdictWins(book.rows, OpenBet(None));
    SweepClosedForm(book, now);
    var plan := SweepPlan(book.rows, book.bets);
    assert plan == [Some(first.home > first.away)];
    LoneDue(book.bets, plan, SWEEP, {1});
  }

  /** Two rows of one fixture with opposite results: whichever the sweep meets first decides
      whether the bet is paid. */
  lemma SweepOrderMatters(now: int)
    ensures SettleAllFinished(TwoRowBook(Score(1, 0), Score(0, 1)), now).book.funds[1] == 20.0
    ensures SettleAllFinished(TwoRowBook(Score(0, 1), Score(1, 0)), now).book.funds[1] == 0.0
  {
    FirstRowDecides(Score(1, 0), Score(0, 1), now);
    FirstRowDecides(Score(0, 1), Score(1, 0), now);
  }

  lemma {:induction false} AscendingIsShort(found: seq<nat>, n: nat)
    requires Ascending(found, n)
    ensures |found| <= n
  {
    if found == [] {
    } else {
      AscendingIsShort(found[..|found| - 1], found[|found| - 1]);
    }
  }

  /** A query that selects the only bet there is. */
  lemma FoundAlone(bets: seq<Bet>, query: Query)
    requires |bets| == 1 && Selects(query, bets[0])
    ensures Select(bets, query) == [0]
  {
    assert 0 in Select(bets, query);
    AscendingIsShort(Select(bets, query), 1);
  }

  // ---- a posted settlement entry ----

  /** An open winner whose user has posted a bet_won entry for it. */
  function PostedBook(posted: Tx): Book {
    Book([DuplicateRow(1, Score(1, 0))], [OpenBet(Some(1))], map[1 := 0.0], [posted])
  }

  lemma PostedVerdict(posted: Tx, now: int)
    requires now > 0
    ensures UserVerdict(PostedBook(posted).rows, OpenBet(Some(1)), now) == Some(true)
  {
    var row, bet, score := DuplicateRow(1, Score(1, 0)), OpenBet(Some(1)), Score(1, 0);
    RenderedScoreParses(score);
    assert RowById(PostedBook(posted).rows, 1) == Some(row);
    DuplicateWins(score);
    assert Wins(bet, score) == Wins(OpenBet(None), score);
  }

  lemma PostedPick(posted: Tx, now: int)
    requires now > 0
    ensures PicksOf(PostedBook(posted), 1, now) == [Pick(0, true)]
  {
    var book := PostedBook(posted);
    PostedVerdict(posted, now);
    FoundAlone(book.bets, UnsettledOf(1));
    PicksFromLast([0], Verdicts(book.rows, book.bets, now));
    assert [0][..0] == [];
  }

  lemma OneEntry(tx: Tx, userId: int, bet: int)
    requires tx.userId == userId && tx.Settles(bet)
    ensures ExistingFor([tx], userId, bet) == 1
  {
    assert [tx][..0] == [];
  }

  lemma GuardedAlone(book: Book, winnings: real, now: int)
    requires |book.bets| == 1 && book.bets[0].userId == 1 && book.bets[0].Winnings() == winnings
             && book.funds == map[1 := 0.0]
    requires ExistingFor(book.ledger, 1, book.bets[0].id) == 1
    ensures var r := SettleGuarded(book, Pick(0, true), now);
            r.Some? && r.value.funds == map[1 := winnings] && r.value.ledger == book.ledger && r.value.bets[0].settled
  {
  }

  lemma GuardedOne(book: Book, pick: Pick, now: int)
    requires pick.bet < |book.bets|
    ensures GuardedPicks(book, [pick], now) == SettleGuarded(book, pick, now)
  {
    assert [pick][..0] == [];
  }

  /** The guard's other branch: the winner is credited, and nothing is recorded. */
  lemma PostedEntryHidesPayout(posted: Tx, now: int)
    requires posted.userId == 1 && posted.Settles(7) && now > 0
    ensures AutoSettleGuarded(PostedBook(posted), 1, now).Some?
    ensures var after := AutoSettleGuarded(PostedBook(posted), 1, now).value;
            after.funds == map[1 := 20.0] && after.ledger == [posted] && after.bets[0].settled
  {
    var book := PostedBook(posted);
    PostedPick(posted, now);
    GuardedOne(book, Pick(0, true), now);
    OneEntry(posted, 1, 7);
    GuardedAlone(book, 20.0, now);
  }

  // ---- settling and reverting a winner in debt ----

  /** A winning bet on a match of tomorrow whose user owes 5. */
  function DebtBook(today: int): Book {
    Book([DuplicateRow(1, Score(1, 0))], [OpenBet(None).(matchDate := Some(today + 1))], map[1 := -5.0], [])
  }

  lemma DebtVerdict(today: int)
    ensures FirstVerdict(DebtBook(today).rows, DebtBook(today).bets[0]) == Some(true)
  {
    var row, bet, score := DuplicateRow(1, Score(1, 0)), DebtBook(today).bets[0], Score(1, 0);
    assert row.Teams() == "A vs B";
    PredictionDecides(row, bet, score);
    WinsIffPredicts(bet, score);
    DuplicateWins(score);
    assert Wins(bet, score) == Wins(OpenBet(None), score);
    HeadVerdictWins([row], bet);
  }

  lemma LoneRealised(book: Book, after: Book, plan: Plan, now: int, balance: real)
    requires Realises(book, after, plan, SWEEP, now) && |plan| == 1
    requires book.funds.Keys == {1} && book.funds[1] + Due(book.bets, plan, SWEEP, {1}) == balance
    ensures after.bets == [Planned(book.bets[0], plan[0], now)] && after.funds == map[1 := balance]
  {
    assert after.funds.Keys == {1};
  }

  lemma DebtSettled(now: int, today: int)
    ensures var settled := SettleAllFinished(DebtBook(today), now).book;
            && settled.bets == [DebtBook(today).bets[0].Close(true, now)]
            && settled.funds == map[1 := 15.0]
  {
    var book := DebtBook(today);
    var plan, settled := SweepPlan(book.rows, book.bets), SettleAllFinished(book, now).book;
    DebtVerdict(today);
    SweepClosedForm(book, now);
    LoneDue(book.bets, plan, SWEEP, {1});
    LoneRealised(book, settled, plan, now, 15.0);
  }

  lemma RevertEachOfOne(book: Book)
    requires |book.bets| == 1
    ensures RevertEach(book, [0]) == RevertBet(book, 0)
  {
    assert [0][..0] == [];
    assert RevertEach(book, []) == book;
  }

  /** A revert that finds the only bet there is. */
  lemma RevertOfOne(book: Book, today: int)
    requires |book.bets| == 1 && Selects(SettledForFuture(today), book.bets[0])
    ensures RevertFuture(book, today) == RevertBet(book, 0)
  {
    FoundAlone(book.bets, SettledForFuture(today));
    RevertEachOfOne(book);
  }

  /** The clamp forgives the debt: 5 owed before the settlement, nothing after the revert. */
  lemma RevertForgivesDebt(now: int, today: int)
    ensures DebtBook(today).funds[1] == -5.0
    ensures RevertFuture(SettleAllFinished(DebtBook(today), now).book, today).funds[1] == 0.0
  {
    DebtSettled(now, today);
    RevertOfOne(SettleAllFinished(DebtBook(today), now).book, today);
  }
}
