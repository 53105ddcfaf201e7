/** What each settlement endpoint does to the book, as functions of the book before it. */
module Settlement {
  import opened Common
  import opened PyText
  import opened Reals
  import opened Scores
  import opened Records

  // ---- queries on betting records ----

  datatype Query =
    | UnsettledFor(row: Row)          // match_id or the exact team string
    | UnsettledForLegacy(row: Row)    // match_id, or no match_id and both team names inside the string
    | UnsettledOf(userId: int)
    | SettledForFuture(now: int)

  predicate LegacyMatch(row: Row, bet: Bet) {
    || bet.matchId == Some(row.id)
    || (&& bet.matchId.None?
        && Like("%" + row.homeTeam + "%", bet.matchTeams)
        && Like("%" + row.awayTeam + "%", bet.matchTeams))
  }

  predicate Selects(query: Query, bet: Bet) {
    match query
    case UnsettledFor(row) => !bet.settled && (bet.matchId == Some(row.id) || bet.matchTeams == row.Teams())
    case UnsettledForLegacy(row) => !bet.settled && LegacyMatch(row, bet)
    case UnsettledOf(userId) => bet.userId == userId && !bet.settled
    case SettledForFuture(now) => bet.settled && bet.StillFuture(now)
  }

  /** Positions of the selected bets, in table order. */
  function Select(bets: seq<Bet>, query: Query): (found: seq<nat>)
    ensures forall k | 0 <= k < |found| :: found[k] < |bets| && Selects(query, bets[found[k]])
    ensures forall j, k | 0 <= j < k < |found| :: found[j] < found[k]
    ensures forall i | 0 <= i < |bets| && Selects(query, bets[i]) :: i in found
  {
    if bets == [] then []
    else
      var init := Select(bets[..|bets| - 1], query);
      if Selects(query, bets[|bets| - 1]) then init + [|bets| - 1] else init
  }

  // ---- settling one bet ----

  /** How an endpoint records a settlement: the ledger's payment method, and whether a winning
      bet is only paid when its winnings are positive. */
  datatype Policy = Policy(via: Channel, positiveOnly: bool)

  const SWEEP := Policy(BettingSettlement, false)
  const AUTO := Policy(AutoSettlement, false)
  const JOINED := Policy(BettingSettlement, true)
  const SPECIFIC := Policy(NoChannel, true)

  /** A decision to close one bet. */
  datatype Pick = Pick(bet: nat, won: bool)

  /** Whether closing the bet moves money. */
  predicate Pays(policy: Policy, bet: Bet, won: bool) {
    won && (policy.positiveOnly ==> bet.Winnings() > 0.0)
  }

  function Payout(policy: Policy, bet: Bet, won: bool): real {
    if Pays(policy, bet, won) then bet.Winnings() else 0.0
  }

  /** The ledger entry of a settlement, against the balance it found. */
  function SettlementEntry(policy: Policy, bet: Bet, won: bool, balance: real): Tx {
    Tx(bet.userId,
       if Pays(policy, bet, won) then BetWon else BetLost,
       Payout(policy, bet, won), balance, balance + Payout(policy, bet, won),
       BettingRecord(bet.id), true, policy.via)
  }

  function CloseBet(book: Book, pick: Pick, now: int): seq<Bet>
    requires pick.bet < |book.bets|
  {
    book.bets[pick.bet := book.bets[pick.bet].Close(pick.won, now)]
  }

  /** Credit the winner, append the entry, close the record. A bet whose user row is missing is
      closed without either. */
  function SettleBet(book: Book, pick: Pick, policy: Policy, now: int): (r: Book)
    requires pick.bet < |book.bets|
    ensures |r.bets| == |book.bets| && r.rows == book.rows && r.funds.Keys == book.funds.Keys
  {
    var bet := book.bets[pick.bet];
    var closed := book.(bets := CloseBet(book, pick, now));
    if bet.userId !in book.funds then closed
    else
      var entry := SettlementEntry(policy, bet, pick.won, book.funds[bet.userId]);
      closed.(funds := book.funds[bet.userId := entry.after], ledger := book.ledger + [entry])
  }

  /** A run in progress: the book and the two totals the endpoint reports. */
  datatype Tally = Tally(book: Book, settled: nat, winnings: real)

  predicate PicksFit(picks: seq<Pick>, n: nat) { forall k | 0 <= k < |picks| :: picks[k].bet < n }

  function SettleCounted(tally: Tally, pick: Pick, policy: Policy, now: int): (r: Tally)
    requires pick.bet < |tally.book.bets|
    ensures |r.book.bets| == |tally.book.bets| && r.book.rows == tally.book.rows
    ensures r.book.funds.Keys == tally.book.funds.Keys
  {
    var bet := tally.book.bets[pick.bet];
    Tally(SettleBet(tally.book, pick, policy, now),
          tally.settled + 1,
          tally.winnings + if bet.userId in tally.book.funds then Payout(policy, bet, pick.won) else 0.0)
  }

  /** Settle the picks one after the other. */
  function SettlePicks(tally: Tally, picks: seq<Pick>, policy: Policy, now: int): (r: Tally)
    requires PicksFit(picks, |tally.book.bets|)
    ensures |r.book.bets| == |tally.book.bets| && r.book.rows == tally.book.rows
    ensures r.book.funds.Keys == tally.book.funds.Keys
  {
    if picks == [] then tally
    else
      var last := |picks| - 1;
      SettleCounted(SettlePicks(tally, picks[..last], policy, now), picks[last], policy, now)
  }

  // ---- match-driven settlement ----

  /** Whether the match outcome makes the bet a winner. */
  predicate Wins(bet: Bet, score: Score) {
    Lower(bet.selectedOutcome) == OutcomeOf(score)
  }

  function PicksAgainst(bets: seq<Bet>, found: seq<nat>, score: Score): (picks: seq<Pick>)
    requires forall k | 0 <= k < |found| :: found[k] < |bets|
    ensures PicksFit(picks, |bets|)
  {
    seq(|found|, k requires 0 <= k < |found| => Pick(found[k], Wins(bets[found[k]], score)))
  }

  /** Settle every unsettled bet of one match; an unparsable result settles nothing. */
  function SettleMatch(tally: Tally, row: Row, now: int): (r: Tally)
    ensures |r.book.bets| == |tally.book.bets| && r.book.rows == tally.book.rows
    ensures r.book.funds.Keys == tally.book.funds.Keys
  {
    if row.result.None? || ParseScore(row.result.value).None? then tally
    else
      var bets := tally.book.bets;
      SettlePicks(tally,
                  PicksAgainst(bets, Select(bets, UnsettledFor(row)), ParseScore(row.result.value).value),
                  SWEEP, now)
  }

  /** The sweep's query: a result that is present, non-empty and not the text null. */
  predicate IsFinished(row: Row) {
    row.result.Some? && row.result.value != "" && row.result.value != "null"
  }

  function SweepRows(tally: Tally, rows: seq<Row>, now: int): (r: Tally)
    ensures |r.book.bets| == |tally.book.bets| && r.book.rows == tally.book.rows
    ensures r.book.funds.Keys == tally.book.funds.Keys
  {
    if rows == [] then tally
    else
      var last := |rows| - 1;
      var before := SweepRows(tally, rows[..last], now);
      if IsFinished(rows[last]) && IsValidFootballResult(rows[last].result)
      then SettleMatch(before, rows[last], now) else before
  }

  /** run_settle_all_finished over the whole odds table. */
  function SettleAllFinished(book: Book, now: int): Tally {
    SweepRows(Tally(book, 0, 0.0), book.rows, now)
  }

  // ---- user-driven settlement ----

  function RowById(rows: seq<Row>, id: int): (r: Option<Row>)
    ensures r.Some? ==> r.value in rows && r.value.id == id
    ensures r.None? ==> forall row | row in rows :: row.id != id
  {
    if rows == [] then None
    else if rows[0].id == id then Some(rows[0])
    else RowById(rows[1..], id)
  }

  function RowsByTeams(rows: seq<Row>, home: string, away: string): seq<Row> {
    if rows == [] then []
    else (if rows[0].homeTeam == home && rows[0].awayTeam == away then [rows[0]] else [])
         + RowsByTeams(rows[1..], home, away)
  }

  /** The match of a bet: by a non-zero match id, else by the only row with its two team names. */
  function FindMatch(rows: seq<Row>, bet: Bet): Option<Row> {
    var byId := if bet.matchId.Some? && bet.matchId.value != 0 then RowById(rows, bet.matchId.value) else None;
    if byId.Some? then byId
    else
      var teams := SplitOn(bet.matchTeams, " vs ");
      if |teams| != 2 then None
      else
        var found := RowsByTeams(rows, Strip(teams[0]), Strip(teams[1]));
        if |found| == 1 then Some(found[0]) else None
  }

  /** What the per-user sweep decides for one bet; None leaves the bet open. */
  function UserVerdict(rows: seq<Row>, bet: Bet, now: int): Option<bool> {
    match FindMatch(rows, bet)
    case None => None
    case Some(row) =>
      if !IsValidFootballResult(row.result) || !row.HasBeenPlayed(now) then None
      else match ParseScore(row.result.value)
        case None => None
        case Some(score) => Some(Wins(bet, score))
  }

  function Verdicts(rows: seq<Row>, bets: seq<Bet>, now: int): (said: seq<Option<bool>>)
    ensures |said| == |bets|
    ensures forall i | 0 <= i < |bets| :: said[i] == UserVerdict(rows, bets[i], now)
  {
    seq(|bets|, i requires 0 <= i < |bets| => UserVerdict(rows, bets[i], now))
  }

  /** The found bets that have a verdict, in order. */
  function PicksFrom(found: seq<nat>, said: seq<Option<bool>>): (picks: seq<Pick>)
    requires forall k | 0 <= k < |found| :: found[k] < |said|
    ensures PicksFit(picks, |said|)
    ensures forall k | 0 <= k < |picks| :: picks[k].bet in found
  {
    if found == [] then []
    else
      var init, last := PicksFrom(found[..|found| - 1], said), found[|found| - 1];
      if said[last].Some? then init + [Pick(last, said[last].value)] else init
  }

  function PicksOf(book: Book, userId: int, now: int): (picks: seq<Pick>)
    ensures PicksFit(picks, |book.bets|)
  {
    PicksFrom(Select(book.bets, UnsettledOf(userId)), Verdicts(book.rows, book.bets, now))
  }

  /** auto_settle_user_bets of the transactions router: no look at the ledger. */
  function AutoSettle(tally: Tally, userId: int, now: int): (r: Tally)
    ensures |r.book.bets| == |tally.book.bets| && r.book.rows == tally.book.rows
    ensures r.book.funds.Keys == tally.book.funds.Keys
  {
    SettlePicks(tally, PicksOf(tally.book, userId, now), AUTO, now)
  }

  /** Settlement entries of this user for this bet. */
  function ExistingFor(ledger: seq<Tx>, userId: int, bet: int): nat {
    if ledger == [] then 0
    else
      var last := ledger[|ledger| - 1];
      ExistingFor(ledger[..|ledger| - 1], userId, bet)
      + if last.userId == userId && last.Settles(bet) then 1 else 0
  }

  /** One bet under the guard of the betting-records router: a winner is credited before the
      ledger is consulted; an existing entry suppresses the new one; two existing entries raise. */
  function SettleGuarded(book: Book, pick: Pick, now: int): (r: Option<Book>)
    requires pick.bet < |book.bets|
    ensures r.Some? ==> |r.value.bets| == |book.bets| && r.value.rows == book.rows
                        && r.value.funds.Keys == book.funds.Keys
  {
    var bet := book.bets[pick.bet];
    var existing := ExistingFor(book.ledger, bet.userId, bet.id);
    var paid := SettleBet(book, pick, AUTO, now);
    if existing == 0 then Some(paid)
    else if bet.userId !in book.funds && pick.won then Some(paid)
    else if existing == 1 then Some(paid.(ledger := book.ledger))
    else None
  }

  function GuardedPicks(book: Book, picks: seq<Pick>, now: int): (r: Option<Book>)
    requires PicksFit(picks, |book.bets|)
    ensures r.Some? ==> |r.value.bets| == |book.bets| && r.value.rows == book.rows
                        && r.value.funds.Keys == book.funds.Keys
  {
    if picks == [] then Some(book)
    else
      var last := |picks| - 1;
      match GuardedPicks(book, picks[..last], now)
      case None => None
      case Some(before) => SettleGuarded(before, picks[last], now)
  }

  /** auto_settle_user_bets of the betting-records router; None when it raised and nothing was
      committed. */
  function AutoSettleGuarded(book: Book, userId: int, now: int): Option<Book> {
    GuardedPicks(book, PicksOf(book, userId, now), now)
  }

  // ---- joined and single-match settlement ----

  predicate Joins(row: Row, bet: Bet) {
    !bet.settled && row.result.Some? && row.result.value != "" && LegacyMatch(row, bet)
  }

  /** A line of the join: a bet and a row it joins. */
  datatype JoinLine = JoinLine(bet: nat, row: Row)

  function JoinsOf(rows: seq<Row>, bets: seq<Bet>, i: nat): (lines: seq<JoinLine>)
    requires i < |bets|
    ensures forall k | 0 <= k < |lines| :: lines[k].bet == i && lines[k].row.result.Some?
    ensures lines != [] ==> !bets[i].settled
  {
    if rows == [] then []
    else
      var init, last := JoinsOf(rows[..|rows| - 1], bets, i), rows[|rows| - 1];
      if Joins(last, bets[i]) then init + [JoinLine(i, last)] else init
  }

  /** The join of the first n bets with the odds table. */
  function Join(rows: seq<Row>, bets: seq<Bet>, n: nat): (lines: seq<JoinLine>)
    requires n <= |bets|
    ensures forall k | 0 <= k < |lines| :: lines[k].bet < n && lines[k].row.result.Some?
  {
    if n == 0 then [] else Join(rows, bets, n - 1) + JoinsOf(rows, bets, n - 1)
  }

  /** A line whose result parses settles its bet; any other is skipped. */
  function ReadLine(line: JoinLine, bets: seq<Bet>): (picks: seq<Pick>)
    requires line.bet < |bets| && line.row.result.Some?
    ensures |picks| <= 1 && forall k | 0 <= k < |picks| :: picks[k].bet == line.bet
  {
    match ParseScore(line.row.result.value)
    case None => []
    case Some(score) => [Pick(line.bet, Wins(bets[line.bet], score))]
  }

  function ReadPicks(lines: seq<JoinLine>, bets: seq<Bet>): (picks: seq<Pick>)
    requires forall k | 0 <= k < |lines| :: lines[k].bet < |bets| && lines[k].row.result.Some?
    ensures PicksFit(picks, |bets|)
  {
    if lines == [] then []
    else ReadPicks(lines[..|lines| - 1], bets) + ReadLine(lines[|lines| - 1], bets)
  }

  /** settle_finished_matches: the join is read once, and no record is looked at again. */
  function SettleJoined(book: Book, now: int): Tally {
    SettlePicks(Tally(book, 0, 0.0), ReadPicks(Join(book.rows, book.bets, |book.bets|), book.bets), JOINED, now)
  }

  /** settle_specific_match. */
  function SettleSpecific(book: Book, matchId: int, now: int): Reply<Tally> {
    match RowById(book.rows, matchId)
    case None => HttpError(500)
    case Some(row) =>
      if row.result.None? || row.result.value == "" then HttpError(500)
      else
        var found := Select(book.bets, UnsettledForLegacy(row));
        if found == [] then Ok(Tally(book, 0, 0.0))
        else match ParseScore(row.result.value)
          case None => HttpError(500)
          case Some(score) =>
            Ok(SettlePicks(Tally(book, 0, 0.0), PicksAgainst(book.bets, found, score), SPECIFIC, now))
  }

  /** The first row with this id takes the new result. */
  function WithResult(rows: seq<Row>, id: int, result: string): seq<Row> {
    if rows == [] then []
    else if rows[0].id == id then [rows[0].(result := Some(result))] + rows[1..]
    else [rows[0]] + WithResult(rows[1..], id, result)
  }

  /** update_match_result_and_settle. */
  function UpdateResult(book: Book, matchId: int, result: string, now: int): Reply<Tally> {
    match RowById(book.rows, matchId)
    case None => HttpError(500)
    case Some(row) =>
      if !IsValidFootballResult(Some(result)) then HttpError(500)
      else
        var stored := Tally(book.(rows := WithResult(book.rows, matchId, result)), 0, 0.0);
        if row.HasBeenPlayed(now) then Ok(SettleMatch(stored, row.(result := Some(result)), now))
        else Ok(stored)
  }

  // ---- revert and repair ----

  /** The ledger without the settlement entries of one bet. */
  function Without(ledger: seq<Tx>, bet: int): seq<Tx> {
    if ledger == [] then []
    else
      var init, last := Without(ledger[..|ledger| - 1], bet), ledger[|ledger| - 1];
      if last.Settles(bet) then init else init + [last]
  }

  function Max(a: real, b: real): real { if a >= b then a else b }

  function CorrectionEntry(bet: Bet, balance: real): Tx {
    Tx(bet.userId, BalanceCorrection, -bet.Winnings(), balance, Max(0.0, balance - bet.Winnings()),
       BettingRecord(bet.id), true, RevertFutureSettlement)
  }

  /** Take one settlement back: drop its entries, reclaim a payout (never below zero) with a
      correction entry, reopen the record. A bet without its user is skipped. */
  function RevertBet(book: Book, i: nat): (r: Book)
    requires i < |book.bets|
    ensures |r.bets| == |book.bets| && r.rows == book.rows && r.funds.Keys == book.funds.Keys
  {
    var bet := book.bets[i];
    if bet.userId !in book.funds then book
    else
      var reopened := book.(bets := book.bets[i := bet.Reopen()], ledger := Without(book.ledger, bet.id));
      if bet.status != Won then reopened
      else
        var entry := CorrectionEntry(bet, book.funds[bet.userId]);
        reopened.(funds := book.funds[bet.userId := entry.after], ledger := reopened.ledger + [entry])
  }

  function RevertEach(book: Book, found: seq<nat>): (r: Book)
    requires forall k | 0 <= k < |found| :: found[k] < |book.bets|
    ensures |r.bets| == |book.bets| && r.rows == book.rows && r.funds.Keys == book.funds.Keys
  {
    if found == [] then book
    else RevertBet(RevertEach(book, found[..|found| - 1]), found[|found| - 1])
  }

  /** revert_future_settled_bets. */
  function RevertFuture(book: Book, now: int): Book {
    RevertEach(book, Select(book.bets, SettledForFuture(now)))
  }

  /** One user's ledger, oldest entry first. */
  function Of(ledger: seq<Tx>, userId: int): (own: seq<Tx>)
    ensures forall k | 0 <= k < |own| :: own[k].userId == userId && own[k] in ledger
  {
    if ledger == [] then []
    else
      var init, last := Of(ledger[..|ledger| - 1], userId), ledger[|ledger| - 1];
      if last.userId == userId then init + [last] else init
  }

  const SYNC_TOLERANCE: real := 0.01

  function SyncEntry(userId: int, before: real, current: real): Tx {
    Tx(userId, BalanceCorrection, current - before, before, current, BalanceSync, true, AdminFix)
  }

  /** fix_user_balance_sync. */
  function FixSync(book: Book, userId: int): Reply<Book> {
    if userId !in book.funds then HttpError(404)
    else
      var own, current := Of(book.ledger, userId), book.funds[userId];
      if own == [] || Abs(own[|own| - 1].after - current) < SYNC_TOLERANCE then Ok(book)
      else
        var before := own[|own| - 1].after;
        Ok(book.(ledger := book.ledger + [SyncEntry(userId, before, current)]))
  }

  /** adjust_user_funds. */
  function AdjustFunds(book: Book, userId: int, amount: real): Reply<Book> {
    if userId !in book.funds then HttpError(404)
    else
      var before := book.funds[userId];
      Ok(book.(funds := book.funds[userId := before + amount],
               ledger := book.ledger
                 + [Tx(userId, ManualAdjustment, amount, before, before + amount, Manual, true, NoChannel)]))
  }
}
