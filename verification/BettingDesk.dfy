/** The settlement endpoints over mutable tables, each proved to do what Settlement says. Every
    method is one request: what it leaves behind is what its commit, or its rollback, left. */
module BettingDesk {
  import opened Common
  import opened Scores
  import opened Reals
  import opened Records
  import opened Settlement
  import opened Once

  lemma {:induction false} PicksFromSplits(head: seq<nat>, tail: seq<nat>, said: seq<Option<bool>>)
    requires forall k | 0 <= k < |head| :: head[k] < |said|
    requires forall k | 0 <= k < |tail| :: tail[k] < |said|
    ensures PicksFrom(head + tail, said) == PicksFrom(head, said) + PicksFrom(tail, said)
  {
    if tail == [] {
      assert head + tail == head;
    } else {
      var init, all := tail[..|tail| - 1], head + tail;
      assert all[..|all| - 1] == head + init && all[|all| - 1] == tail[|tail| - 1];
      PicksFromSplits(head, init, said);
    }
  }

  /** The picks of one more found bet. */
  lemma PicksFromNext(found: seq<nat>, said: seq<Option<bool>>, j: nat)
    requires j < |found| && forall k | 0 <= k < |found| :: found[k] < |said|
    ensures var picks, next := PicksFrom(found[..j], said), PicksFrom(found[..j + 1], said);
            if said[found[j]].None? then next == picks
            else next == picks + [Pick(found[j], said[found[j]].value)] && next[..|picks|] == picks
  {
    assert found[..j + 1][..j] == found[..j];
  }

  lemma NextPicks(start: Tally, picks: seq<Pick>, more: seq<Pick>, now: int)
    requires PicksFit(picks, |start.book.bets|) && PicksFit(more, |start.book.bets|) && |more| <= 1
    ensures SettlePicks(start, picks + more, JOINED, now)
            == var before := SettlePicks(start, picks, JOINED, now);
               if more == [] then before else SettleCounted(before, more[0], JOINED, now)
  {
    if more == [] {
      assert picks + more == picks;
    } else {
      assert (picks + more)[..|picks|] == picks;
    }
  }

  lemma {:induction false} PicksKeepSelection(tally: Tally, picks: seq<Pick>, policy: Policy, now: int, i: nat)
    requires PicksFit(picks, |tally.book.bets|) && i < |tally.book.bets|
    ensures SettlePicks(tally, picks, policy, now).book.bets[i].selectedOutcome == tally.book.bets[i].selectedOutcome
  {
    if picks == [] {
    } else {
      PicksKeepSelection(tally, picks[..|picks| - 1], policy, now, i);
    }
  }

  /** One more line of the join settles its bet, or nothing. */
  lemma JoinStep(start: Tally, lines: seq<JoinLine>, k: nat, now: int)
    requires k < |lines|
    requires forall k | 0 <= k < |lines| :: lines[k].bet < |start.book.bets| && lines[k].row.result.Some?
    ensures var before := SettlePicks(start, ReadPicks(lines[..k], start.book.bets), JOINED, now);
            var score := ParseScore(lines[k].row.result.value);
            && before.book.bets[lines[k].bet].selectedOutcome == start.book.bets[lines[k].bet].selectedOutcome
            && SettlePicks(start, ReadPicks(lines[..k + 1], start.book.bets), JOINED, now)
               == if score.None? then before
                  else
                    var pick := Pick(lines[k].bet, Wins(before.book.bets[lines[k].bet], score.value));
                    SettleCounted(before, pick, JOINED, now)
  {
    var bets, line := start.book.bets, lines[k];
    var picks := ReadPicks(lines[..k], bets);
    PicksKeepSelection(start, picks, JOINED, now, line.bet);
    assert lines[..k + 1][..k] == lines[..k];
    NextPicks(start, picks, ReadLine(line, bets), now);
  }

  /** One more pick settles one more bet. */
  lemma NextPick(start: Tally, picks: seq<Pick>, j: nat, policy: Policy, now: int)
    requires PicksFit(picks, |start.book.bets|) && j < |picks|
    ensures SettlePicks(start, picks[..j + 1], policy, now)
            == SettleCounted(SettlePicks(start, picks[..j], policy, now), picks[j], policy, now)
  {
    assert picks[..j + 1][..j] == picks[..j];
  }

  /** One more found bet is still as the query read it when its turn comes. */
  lemma FoundStep(start: Tally, found: seq<nat>, score: Score, j: nat, policy: Policy, now: int)
    requires forall k | 0 <= k < |found| :: found[k] < |start.book.bets|
    requires forall i, k | 0 <= i < k < |found| :: found[i] < found[k]
    requires j < |found|
    ensures var picks := PicksAgainst(start.book.bets, found, score);
            var before := SettlePicks(start, picks[..j], policy, now);
            && before.book.bets[found[j]] == start.book.bets[found[j]]
            && SettlePicks(start, picks[..j + 1], policy, now)
               == SettleCounted(before, Pick(found[j], Wins(start.book.bets[found[j]], score)), policy, now)
  {
    var picks := PicksAgainst(start.book.bets, found, score);
    PicksKeepOthers(start, picks[..j], policy, now, found[j]);
    NextPick(start, picks, j, policy, now);
  }

  /** The totals of one endpoint's run and those of the sweep around it move alike. */
  lemma CountedShifts(book: Book, start: Tally, settled: nat, winnings: real, pick: Pick, policy: Policy, now: int)
    requires pick.bet < |book.bets|
    ensures SettleCounted(Tally(book, start.settled + settled, start.winnings + winnings), pick, policy, now)
            == var r := SettleCounted(Tally(book, settled, winnings), pick, policy, now);
               Tally(r.book, start.settled + r.settled, start.winnings + r.winnings)
  {
  }

  /** One more row is settled, or skipped. */
  lemma NextRow(start: Tally, rows: seq<Row>, k: nat, now: int)
    requires k < |rows|
    ensures var before := SweepRows(start, rows[..k], now);
            SweepRows(start, rows[..k + 1], now)
            == if IsFinished(rows[k]) && IsValidFootballResult(rows[k].result)
               then SettleMatch(before, rows[k], now)
               else before
  {
    assert rows[..k + 1][..k] == rows[..k];
  }

  /** One more found bet reverts one more bet. */
  lemma RevertStep(start: Book, found: seq<nat>, k: nat)
    requires k < |found| && forall j | 0 <= j < |found| :: found[j] < |start.bets|
    ensures RevertEach(start, found[..k + 1]) == RevertBet(RevertEach(start, found[..k]), found[k])
  {
    assert found[..k + 1][..k] == found[..k];
  }

  lemma AutoStep(start: Tally, found: seq<nat>, said: seq<Option<bool>>, j: nat, now: int)
    requires |said| == |start.book.bets| && j < |found|
    requires forall k | 0 <= k < |found| :: found[k] < |said|
    requires forall i, k | 0 <= i < k < |found| :: found[i] < found[k]
    ensures var before := SettlePicks(start, PicksFrom(found[..j], said), AUTO, now);
            && before.book.bets[found[j]] == start.book.bets[found[j]]
            && SettlePicks(start, PicksFrom(found[..j + 1], said), AUTO, now)
               == if said[found[j]].None? then before
                  else SettleCounted(before, Pick(found[j], said[found[j]].value), AUTO, now)
  {
    PicksKeepOthers(start, PicksFrom(found[..j], said), AUTO, now, found[j]);
    PicksFromNext(found, said, j);
  }

  lemma GuardedAppend(book: Book, picks: seq<Pick>, pick: Pick, now: int)
    requires PicksFit(picks, |book.bets|) && pick.bet < |book.bets| && GuardedPicks(book, picks, now).Some?
    ensures GuardedPicks(book, picks + [pick], now) == SettleGuarded(GuardedPicks(book, picks, now).value, pick, now)
  {
    assert (picks + [pick])[..|picks|] == picks;
  }

  lemma GuardedStep(start: Book, found: seq<nat>, said: seq<Option<bool>>, j: nat, now: int)
    requires |said| == |start.bets| && j < |found|
    requires forall k | 0 <= k < |found| :: found[k] < |said|
    requires forall i, k | 0 <= i < k < |found| :: found[i] < found[k]
    requires GuardedPicks(start, PicksFrom(found[..j], said), now).Some?
    ensures var before := GuardedPicks(start, PicksFrom(found[..j], said), now).value;
            var next := GuardedPicks(start, PicksFrom(found[..j + 1], said), now);
            && before.bets[found[j]] == start.bets[found[j]]
            && next == (if said[found[j]].None? then Some(before)
                        else SettleGuarded(before, Pick(found[j], said[found[j]].value), now))
  {
    var picks := PicksFrom(found[..j], said);
    GuardedKeepsOthers(start, picks, now, found[j]);
    PicksFromNext(found, said, j);
    if said[found[j]].Some? {
      GuardedAppend(start, picks, Pick(found[j], said[found[j]].value), now);
    }
  }

  /** Once the guarded run has raised, no later pick brings it back. */
  lemma {:induction false} RaiseIsFinal(book: Book, picks: seq<Pick>, more: seq<Pick>, now: int)
    requires PicksFit(picks, |book.bets|) && PicksFit(more, |book.bets|)
    requires GuardedPicks(book, picks, now).None?
    ensures GuardedPicks(book, picks + more, now).None?
  {
    if more == [] {
      assert picks + more == picks;
    } else {
      assert (picks + more)[..|picks + more| - 1] == picks + more[..|more| - 1];
      RaiseIsFinal(book, picks, more[..|more| - 1], now);
    }
  }

  /** A run that raised part of the way raises. */
  lemma GuardedStop(start: Book, found: seq<nat>, said: seq<Option<bool>>, j: nat, now: int)
    requires |said| == |start.bets| && j <= |found|
    requires forall k | 0 <= k < |found| :: found[k] < |said|
    requires GuardedPicks(start, PicksFrom(found[..j], said), now).None?
    ensures GuardedPicks(start, PicksFrom(found, said), now).None?
  {
    PicksFromSplits(found[..j], found[j..], said);
    assert found == found[..j] + found[j..];
    RaiseIsFinal(start, PicksFrom(found[..j], said), PicksFrom(found[j..], said), now);
  }

  class Desk {
    var rows: seq<Row>
    var bets: seq<Bet>
    var funds: map<int, real>
    var ledger: seq<Tx>

    function Contents(): Book
      reads this
    {
      Book(rows, bets, funds, ledger)
    }

    constructor (rows: seq<Row>, bets: seq<Bet>, funds: map<int, real>, ledger: seq<Tx>)
      ensures Contents() == Book(rows, bets, funds, ledger)
    {
      this.rows, this.bets, this.funds, this.ledger := rows, bets, funds, ledger;
    }

    /** The body every settlement loop shares: pay, record, close. */
    method SettleOne(i: nat, won: bool, policy: Policy, now: int) returns (paid: real)
      requires i < |bets|
      modifies this`bets, this`funds, this`ledger
      ensures Contents() == SettleBet(old(Contents()), Pick(i, won), policy, now)
      ensures paid == if old(bets[i].userId in funds) then Payout(policy, old(bets[i]), won) else 0.0
    {
      var bet := bets[i];
      var winnings := bet.Winnings();
      paid := 0.0;
      if bet.userId in funds {
        var balance := funds[bet.userId];
        if won && (!policy.positiveOnly || winnings > 0.0) {
          funds := funds[bet.userId := balance + winnings];
          ledger := ledger + [Tx(bet.userId, BetWon, winnings, balance, balance + winnings, BettingRecord(bet.id),
                                 true, policy.via)];
          paid := winnings;
        } else {
          ledger := ledger + [Tx(bet.userId, BetLost, 0.0, balance, balance, BettingRecord(bet.id), true, policy.via)];
        }
      }
      bets := bets[i := bet.Close(won, now)];
      ghost var after := SettleBet(old(Contents()), Pick(i, won), policy, now);
      assert funds == after.funds && ledger == after.ledger && bets == after.bets;
    }

    /** Settle one bet and keep the running totals. */
    method Advance(pick: Pick, policy: Policy, now: int, settled: nat, winnings: real)
      returns (settled': nat, winnings': real)
      requires pick.bet < |bets|
      modifies this`bets, this`funds, this`ledger
      ensures Tally(Contents(), settled', winnings')
              == SettleCounted(Tally(old(Contents()), settled, winnings), pick, policy, now)
    {
      var paid := SettleOne(pick.bet, pick.won, policy, now);
      settled', winnings' := settled + 1, winnings + paid;
    }

    /** Settle the bets a query found against one final score. */
    method SettleFound(found: seq<nat>, score: Score, policy: Policy, now: int, ghost start: Tally)
      returns (settled: nat, winnings: real)
      requires start.book == Contents()
      requires forall k | 0 <= k < |found| :: found[k] < |bets|
      requires forall j, k | 0 <= j < k < |found| :: found[j] < found[k]
      modifies this`bets, this`funds, this`ledger
      ensures var after := SettlePicks(start, PicksAgainst(old(bets), found, score), policy, now);
              after == Tally(Contents(), start.settled + settled, start.winnings + winnings)
    {
      settled, winnings := 0, 0.0;
      ghost var picks := PicksAgainst(bets, found, score);
      assert picks[..0] == [];
      for j := 0 to |found|
        invariant |bets| == |start.book.bets|
        invariant SettlePicks(start, picks[..j], policy, now)
                  == Tally(Contents(), start.settled + settled, start.winnings + winnings)
      {
        FoundStep(start, found, score, j, policy, now);
        var pick := Pick(found[j], Wins(bets[found[j]], score));
        CountedShifts(Contents(), start, settled, winnings, pick, policy, now);
        settled, winnings := Advance(pick, policy, now, settled, winnings);
      }
      assert picks[..|found|] == picks;
    }

    method SettleMatchBetsAutomatically(row: Row, now: int, ghost start: Tally) returns (settled: nat, winnings: real)
      requires start.book == Contents()
      modifies this`bets, this`funds, this`ledger
      ensures SettleMatch(start, row, now) == Tally(Contents(), start.settled + settled, start.winnings + winnings)
    {
      settled, winnings := 0, 0.0;
      var found := Select(bets, UnsettledFor(row));
      if found == [] {
        return;
      }
      if row.result.None? {
        return;
      }
      var score := ParseScore(row.result.value);
      if score.None? {
        return;
      }
      settled, winnings := SettleFound(found, score.value, SWEEP, now, start);
    }

    method RunSettleAllFinished(now: int) returns (settled: nat, winnings: real)
      modifies this`bets, this`funds, this`ledger
      ensures Tally(Contents(), settled, winnings) == SettleAllFinished(old(Contents()), now)
    {
      settled, winnings := 0, 0.0;
      ghost var start := Tally(Contents(), 0, 0.0);
      assert rows[..0] == [];
      for k := 0 to |rows|
        invariant rows == old(rows)
        invariant Tally(Contents(), settled, winnings) == SweepRows(start, rows[..k], now)
      {
        NextRow(start, rows, k, now);
        if !IsFinished(rows[k]) || !IsValidFootballResult(rows[k].result) {
          continue;
        }
        var n, w := SettleMatchBetsAutomatically(rows[k], now, Tally(Contents(), settled, winnings));
        settled, winnings := settled + n, winnings + w;
      }
      assert rows[..|rows|] == rows;
    }

    method UpdateMatchResultAndSettle(matchId: int, result: string, now: int) returns (reply: Reply<(nat, real)>)
      modifies this
      ensures match UpdateResult(old(Contents()), matchId, result, now)
              case HttpError(code) => reply == HttpError(code) && Contents() == old(Contents())
              case Ok(tally) => reply == Ok((tally.settled, tally.winnings)) && Contents() == tally.book
    {
      var found := RowById(rows, matchId);
      if found.None? {
        return HttpError(500);
      }
      if !IsValidFootballResult(Some(result)) {
        return HttpError(500);
      }
      rows := WithResult(rows, matchId, result);
      if !found.value.HasBeenPlayed(now) {
        return Ok((0, 0.0));
      }
      var settled, winnings :=
        SettleMatchBetsAutomatically(found.value.(result := Some(result)), now, Tally(Contents(), 0, 0.0));
      return Ok((settled, winnings));
    }

    /** The transactions router's sweep over one user's open bets. */
    method AutoSettleUserBets(userId: int, now: int) returns (settled: nat)
      modifies this`bets, this`funds, this`ledger
      ensures var after := AutoSettle(Tally(old(Contents()), 0, 0.0), userId, now);
              Contents() == after.book && settled == after.settled
    {
      settled := 0;
      var found := Select(bets, UnsettledOf(userId));
      ghost var start, said := Tally(Contents(), 0, 0.0), Verdicts(rows, bets, now);
      var winnings := 0.0;
      assert found[..0] == [];
      for j := 0 to |found|
        invariant rows == old(rows) && |bets| == old(|bets|)
        invariant SettlePicks(start, PicksFrom(found[..j], said), AUTO, now) == Tally(Contents(), settled, winnings)
      {
        AutoStep(start, found, said, j, now);
        var verdict := UserVerdict(rows, bets[found[j]], now);
        if verdict.None? {
          continue;
        }
        settled, winnings := Advance(Pick(found[j], verdict.value), AUTO, now, settled, winnings);
      }
      assert found[..|found|] == found;
    }

    /** One bet under the guard: the winner is credited first, the entry only added when the
        ledger has none. */
    method SettleOneGuarded(i: nat, won: bool, now: int) returns (raised: bool)
      requires i < |bets|
      modifies this`bets, this`funds, this`ledger
      ensures raised <==> SettleGuarded(old(Contents()), Pick(i, won), now).None?
      ensures !raised ==> SettleGuarded(old(Contents()), Pick(i, won), now) == Some(Contents())
    {
      var bet := bets[i];
      raised := false;
      if won {
        var winnings := bet.Winnings();
        if bet.userId in funds {
          var balance := funds[bet.userId];
          funds := funds[bet.userId := balance + winnings];
          var existing := ExistingFor(ledger, bet.userId, bet.id);
          if existing > 1 {
            return true;
          }
          if existing == 0 {
            ledger := ledger + [Tx(bet.userId, BetWon, winnings, balance, balance + winnings,
                                   BettingRecord(bet.id), true, AutoSettlement)];
          }
        }
      } else {
        var existing := ExistingFor(ledger, bet.userId, bet.id);
        if existing > 1 {
          return true;
        }
        if bet.userId in funds {
          var balance := funds[bet.userId];
          if existing == 0 {
            ledger := ledger + [Tx(bet.userId, BetLost, 0.0, balance, balance, BettingRecord(bet.id), true,
                                   AutoSettlement)];
          }
        }
      }
      bets := bets[i := bet.Close(won, now)];
      ghost var after := SettleGuarded(old(Contents()), Pick(i, won), now).value;
      assert funds == after.funds && ledger == after.ledger && bets == after.bets;
    }

    /** The guarded loop over the bets found open; it stops where it raises. */
    method GuardedLoop(found: seq<nat>, now: int, ghost start: Book, ghost said: seq<Option<bool>>)
      returns (raised: bool)
      requires start == Contents() && said == Verdicts(rows, bets, now)
      requires forall k | 0 <= k < |found| :: found[k] < |bets|
      requires forall j, k | 0 <= j < k < |found| :: found[j] < found[k]
      modifies this`bets, this`funds, this`ledger
      ensures raised == GuardedPicks(start, PicksFrom(found, said), now).None?
      ensures !raised ==> GuardedPicks(start, PicksFrom(found, said), now) == Some(Contents())
    {
      raised := false;
      assert found[..0] == [];
      for j := 0 to |found|
        invariant rows == start.rows && |bets| == |start.bets|
        invariant GuardedPicks(start, PicksFrom(found[..j], said), now) == Some(Contents())
      {
        GuardedStep(start, found, said, j, now);
        var verdict := UserVerdict(rows, bets[found[j]], now);
        if verdict.None? {
          continue;
        }
        raised := SettleOneGuarded(found[j], verdict.value, now);
        if raised {
          GuardedStop(start, found, said, j + 1, now);
          return;
        }
      }
      assert found[..|found|] == found;
    }

    method TryAutoSettle(userId: int, now: int) returns (raised: bool)
      modifies this`bets, this`funds, this`ledger
      ensures raised == AutoSettleGuarded(old(Contents()), userId, now).None?
      ensures !raised ==> AutoSettleGuarded(old(Contents()), userId, now) == Some(Contents())
    {
      var found := Select(bets, UnsettledOf(userId));
      raised := GuardedLoop(found, now, Contents(), Verdicts(rows, bets, now));
    }

    /** The betting-records router's sweep; a raise is swallowed and nothing is committed. */
    method AutoSettleUserBetsGuarded(userId: int, now: int) returns (raised: bool)
      modifies this`bets, this`funds, this`ledger
      ensures match AutoSettleGuarded(old(Contents()), userId, now)
              case None => raised && Contents() == old(Contents())
              case Some(after) => !raised && Contents() == after
    {
      var saved := (bets, funds, ledger);
      raised := TryAutoSettle(userId, now);
      if raised {
        bets, funds, ledger := saved.0, saved.1, saved.2;
      }
    }

    /** The joined settlement: bets and rows are paired up front, and no record is re-checked. */
    method SettleFinishedMatches(now: int) returns (settled: nat, winnings: real)
      modifies this`bets, this`funds, this`ledger
      ensures Tally(Contents(), settled, winnings) == SettleJoined(old(Contents()), now)
    {
      settled, winnings := 0, 0.0;
      ghost var start := Tally(Contents(), 0, 0.0);
      var lines := Join(rows, bets, |bets|);
      assert lines[..0] == [];
      for k := 0 to |lines|
        invariant |bets| == |start.book.bets| && rows == start.book.rows
        invariant Tally(Contents(), settled, winnings)
                  == SettlePicks(start, ReadPicks(lines[..k], start.book.bets), JOINED, now)
      {
        JoinStep(start, lines, k, now);
        var score := ParseScore(lines[k].row.result.value);
        if score.None? {
          continue;
        }
        settled, winnings :=
          Advance(Pick(lines[k].bet, Wins(bets[lines[k].bet], score.value)), JOINED, now, settled, winnings);
      }
      assert lines[..|lines|] == lines;
    }

    method SettleSpecificMatch(matchId: int, now: int) returns (reply: Reply<(nat, real)>)
      modifies this`bets, this`funds, this`ledger
      ensures match SettleSpecific(old(Contents()), matchId, now)
              case HttpError(code) => reply == HttpError(code) && Contents() == old(Contents())
              case Ok(tally) => reply == Ok((tally.settled, tally.winnings)) && Contents() == tally.book
    {
      var row := RowById(rows, matchId);
      if row.None? {
        return HttpError(500);
      }
      if row.value.result.None? || row.value.result.value == "" {
        return HttpError(500);
      }
      var found := Select(bets, UnsettledForLegacy(row.value));
      if found == [] {
        return Ok((0, 0.0));
      }
      var score := ParseScore(row.value.result.value);
      if score.None? {
        return HttpError(500);
      }
      var settled, winnings := SettleFound(found, score.value, SPECIFIC, now, Tally(Contents(), 0, 0.0));
      return Ok((settled, winnings));
    }

    /** Take one settlement back, or skip a bet whose user is gone. */
    method RevertOne(i: nat)
      requires i < |bets|
      modifies this`bets, this`funds, this`ledger
      ensures Contents() == RevertBet(old(Contents()), i)
    {
      var bet := bets[i];
      if bet.userId !in funds {
        return;
      }
      ledger := Without(ledger, bet.id);
      if bet.status == Won {
        var winnings := bet.Winnings();
        var before := funds[bet.userId];
        var after := if 0.0 >= before - winnings then 0.0 else before - winnings;
        funds := funds[bet.userId := after];
        ledger := ledger + [Tx(bet.userId, BalanceCorrection, -winnings, before, after,
                               BettingRecord(bet.id), true, RevertFutureSettlement)];
      }
      bets := bets[i := bet.Reopen()];
      ghost var reverted := RevertBet(old(Contents()), i);
      assert funds == reverted.funds && ledger == reverted.ledger && bets == reverted.bets;
    }

    method RevertFutureSettledBets(now: int) returns (reverted: nat)
      modifies this`bets, this`funds, this`ledger
      ensures Contents() == RevertFuture(old(Contents()), now)
      ensures reverted == |Select(old(bets), SettledForFuture(now))|
    {
      var found := Select(bets, SettledForFuture(now));
      reverted := |found|;
      assert found[..0] == [];
      ghost var start := Contents();
      for k := 0 to |found|
        invariant rows == start.rows
        invariant Contents() == RevertEach(start, found[..k])
      {
        RevertStep(start, found, k);
        RevertOne(found[k]);
      }
      assert found[..|found|] == found;
    }

    method FixUserBalanceSync(userId: int) returns (reply: Reply<bool>)
      modifies this`ledger
      ensures match FixSync(old(Contents()), userId)
              case HttpError(code) => reply == HttpError(code) && Contents() == old(Contents())
              case Ok(after) => Contents() == after && reply == Ok(after != old(Contents()))
    {
      if userId !in funds {
        return HttpError(404);
      }
      var own := Of(ledger, userId);
      var current := funds[userId];
      if own == [] {
        return Ok(false);
      }
      var before := own[|own| - 1].after;
      if Abs(before - current) < SYNC_TOLERANCE {
        return Ok(false);
      }
      ledger := ledger + [Tx(userId, BalanceCorrection, current - before, before, current, BalanceSync, true,
                             AdminFix)];
      return Ok(true);
    }

    method AdjustUserFunds(userId: int, amount: real) returns (reply: Reply<real>)
      modifies this`funds, this`ledger
      ensures match AdjustFunds(old(Contents()), userId, amount)
              case HttpError(code) => reply == HttpError(code) && Contents() == old(Contents())
              case Ok(after) => Contents() == after && reply == Ok(after.funds[userId])
    {
      if userId !in funds {
        return HttpError(404);
      }
      var before := funds[userId];
      funds := funds[userId := before + amount];
      ledger := ledger + [Tx(userId, ManualAdjustment, amount, before, funds[userId], Manual, true, NoChannel)];
      return Ok(funds[userId]);
    }
  }
}
