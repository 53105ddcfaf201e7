/** The tables the settlement code reads and writes, one value per row. */
module Records {
  import opened Common

  datatype BetStatus = Pending | Won | Lost
  datatype MatchStatus = Upcoming | Live | Finished

  /** A betting record. Money and decimal odds are exact reals; instants are integers. */
  datatype Bet = Bet(
    id: int, userId: int, amount: real, oddsDecimal: real,
    matchId: Option<int>, matchTeams: string, matchDate: Option<int>,
    selectedOutcome: string, status: BetStatus, settled: bool,
    actualProfit: Option<real>, settlementDate: Option<int>, matchStatus: MatchStatus)
  {
    /** The full return of a winning bet. */
    function Winnings(): real { amount * oddsDecimal }

    function Close(won: bool, now: int): Bet {
      this.(status := if won then Won else Lost,
            settled := true,
            actualProfit := Some(if won then Winnings() - amount else -amount),
            settlementDate := Some(now),
            matchStatus := Finished)
    }

    function Reopen(): Bet {
      this.(status := Pending, settled := false, actualProfit := None,
            settlementDate := None, matchStatus := Upcoming)
    }

    /** The shape every bet has when it is placed on an upcoming match. */
    predicate Fresh() {
      status == Pending && !settled && actualProfit.None? && settlementDate.None? && matchStatus == Upcoming
    }

    /** The bet's own match date still lies ahead. */
    predicate StillFuture(now: int) { matchDate.Some? && matchDate.value > now }
  }

  /** A row of the odds table; kickoff is its date and time, midnight when the time is missing. */
  datatype Row = Row(id: int, homeTeam: string, awayTeam: string, result: Option<string>, kickoff: int)
  {
    function Teams(): string { homeTeam + " vs " + awayTeam }

    predicate HasBeenPlayed(now: int) { kickoff < now }
  }

  datatype Kind =
    | Deposit | Withdrawal | BetPlaced | BetWon | BetLost
    | BalanceCorrection | ManualAdjustment | OtherKind

  datatype Reference = NoReference | BettingRecord(betId: int) | BalanceSync | Manual | OtherReference

  datatype Channel = NoChannel | BettingSettlement | AutoSettlement | RevertFutureSettlement | AdminFix | OtherChannel

  /** A ledger entry with its balance snapshots. */
  datatype Tx = Tx(
    userId: int, kind: Kind, amount: real, before: real, after: real,
    reference: Reference, completed: bool, via: Channel)
  {
    /** A bet_won or bet_lost entry that points at some betting record. */
    predicate IsSettlement() { reference.BettingRecord? && (kind == BetWon || kind == BetLost) }

    /** A bet_won or bet_lost entry that points at this bet. */
    predicate Settles(bet: int) {
      reference == BettingRecord(bet) && (kind == BetWon || kind == BetLost)
    }
  }

  /** The whole database state the settlement code works on. */
  datatype Book = Book(rows: seq<Row>, bets: seq<Bet>, funds: map<int, real>, ledger: seq<Tx>)
}
