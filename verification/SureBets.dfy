/** Arbitrage across odds rows of one fixture: find it exactly, and stake it evenly. */
module SureBets {
  import opened Reals

  datatype Fixture = Fixture(date: int, homeTeam: string, awayTeam: string, league: string, country: string)

  /** A row the query considers: no result yet, three positive odds. */
  datatype Quote = Quote(fixture: Fixture, odd1: real, oddX: real, odd2: real)
  {
    predicate Quoted() { odd1 > 0.0 && oddX > 0.0 && odd2 > 0.0 }
  }

  datatype SureBet = SureBet(
    fixture: Fixture, best1: real, bestX: real, best2: real,
    profitPercent: real, stake1: real, stakeX: real, stake2: real, guaranteedReturn: real)

  // ---- grouping by fixture ----

  ghost predicate HasRow(rows: seq<Quote>, key: Fixture) { exists q | q in rows :: q.fixture == key }

  /** Fixtures in the order of their first row. */
  function Fixtures(rows: seq<Quote>): seq<Fixture> {
    if rows == [] then []
    else
      var init, last := Fixtures(rows[..|rows| - 1]), rows[|rows| - 1].fixture;
      if last in init then init else init + [last]
  }

  lemma {:induction false} FixturesAre(rows: seq<Quote>)
    ensures forall key :: key in Fixtures(rows) <==> HasRow(rows, key)
    ensures forall i, j | 0 <= i < j < |Fixtures(rows)| :: Fixtures(rows)[i] != Fixtures(rows)[j]
  {
    if rows == [] {
    } else {
      var init, last := rows[..|rows| - 1], rows[|rows| - 1];
      FixturesAre(init);
      assert rows == init + [last];
      forall key ensures key in Fixtures(rows) <==> HasRow(rows, key) {
        assert HasRow(rows, key) <==> HasRow(init, key) || last.fixture == key;
      }
    }
  }

  function Group(rows: seq<Quote>, key: Fixture): (group: seq<Quote>)
    ensures forall q :: q in group <==> q in rows && q.fixture == key
  {
    if rows == [] then []
    else
      var init, last := Group(rows[..|rows| - 1], key), rows[|rows| - 1];
      assert rows == rows[..|rows| - 1] + [last];
      if last.fixture == key then init + [last] else init
  }

  // ---- the best quote per outcome ----

  datatype Outcome = Home | Draw | Away

  function Odd(q: Quote, outcome: Outcome): real {
    match outcome case Home => q.odd1 case Draw => q.oddX case Away => q.odd2
  }

  /** max() of one column. */
  function BestOdd(group: seq<Quote>, outcome: Outcome): real
    requires group != []
  {
    var last := Odd(group[|group| - 1], outcome);
    if |group| == 1 then last
    else
      var init := BestOdd(group[..|group| - 1], outcome);
      if last > init then last else init
  }

  lemma {:induction false} BestOddIs(group: seq<Quote>, outcome: Outcome) returns (best: Quote)
    requires group != []
    ensures best in group && Odd(best, outcome) == BestOdd(group, outcome)
    ensures forall q | q in group :: Odd(q, outcome) <= BestOdd(group, outcome)
  {
    var init, last := group[..|group| - 1], group[|group| - 1];
    assert group == init + [last];
    best := last;
    if |group| == 1 {
    } else {
      var earlier := BestOddIs(init, outcome);
      if Odd(last, outcome) <= Odd(earlier, outcome) {
        best := earlier;
      }
    }
  }

  /** The implied probability sum of three odds. */
  function ImpliedSum(a: real, b: real, c: real): real
    requires a > 0.0 && b > 0.0 && c > 0.0
  {
    1.0 / a + 1.0 / b + 1.0 / c
  }

  lemma ImpliedSumPositive(a: real, b: real, c: real)
    requires a > 0.0 && b > 0.0 && c > 0.0
    ensures ImpliedSum(a, b, c) > 0.0
  {
  }

  /** What an implied sum earns, in percent of the stake. */
  function ProfitPercent(implied: real): real
    requires implied > 0.0
  {
    (1.0 / implied - 1.0) * 100.0
  }

  /** An implied sum below 1 with at least the asked profit. */
  predicate Pays(implied: real, minProfit: real) {
    0.0 < implied < 1.0 && ProfitPercent(implied) >= minProfit
  }

  /** A better quote lowers its implied probability. */
  lemma InverseAntitone(a: real, b: real)
    requires 0.0 < a <= b
    ensures 1.0 / b <= 1.0 / a
  {
    var x, y := 1.0 / a, 1.0 / b;
    assert x * a == 1.0 && y * b == 1.0;
    assert y > 0.0;
    MulMono(y, a, b);
    assert y * a <= x * a;
    Cancel(y, x, a);
  }

  /** A lower implied sum pays at least as much. */
  lemma LowerSumPays(low: real, high: real, minProfit: real)
    requires 0.0 < low <= high && Pays(high, minProfit)
    ensures Pays(low, minProfit)
  {
    InverseAntitone(low, high);
  }

  predicate AllQuoted(rows: seq<Quote>) { forall q | q in rows :: q.Quoted() }

  /** One row per outcome. */
  datatype Choice = Choice(home: Quote, draw: Quote, away: Quote)
  {
    predicate From(rows: seq<Quote>, key: Fixture) {
      && home in rows && draw in rows && away in rows
      && home.fixture == draw.fixture == away.fixture == key
    }
    function Implied(): real
      requires home.Quoted() && draw.Quoted() && away.Quoted()
    {
      ImpliedSum(home.odd1, draw.oddX, away.odd2)
    }
  }

  /** Some choice of the fixture's rows pays. */
  ghost predicate Arbitrage(rows: seq<Quote>, key: Fixture, minProfit: real)
    requires AllQuoted(rows)
  {
    exists choice: Choice | choice.From(rows, key) :: Pays(choice.Implied(), minProfit)
  }

  lemma BestIsPositive(group: seq<Quote>, outcome: Outcome)
    requires group != [] && AllQuoted(group)
    ensures BestOdd(group, outcome) > 0.0
  {
    var best := BestOddIs(group, outcome);
  }

  /** The implied sum of the best quotes of a group. */
  function BestSum(group: seq<Quote>): (implied: real)
    requires group != [] && AllQuoted(group)
    ensures implied > 0.0
  {
    var a, b, c := BestOdd(group, Home), BestOdd(group, Draw), BestOdd(group, Away);
    BestIsPositive(group, Home);
    BestIsPositive(group, Draw);
    BestIsPositive(group, Away);
    ImpliedSumPositive(a, b, c);
    ImpliedSum(a, b, c)
  }

  /** No choice of rows beats the best quotes. */
  lemma BestIsLowest(group: seq<Quote>, key: Fixture, choice: Choice)
    requires AllQuoted(group) && choice.From(group, key)
    ensures BestSum(group) <= choice.Implied()
  {
    var h := BestOddIs(group, Home);
    var d := BestOddIs(group, Draw);
    var w := BestOddIs(group, Away);
    assert Odd(choice.home, Home) == choice.home.odd1;
    assert Odd(choice.draw, Draw) == choice.draw.oddX;
    assert Odd(choice.away, Away) == choice.away.odd2;
    InverseAntitone(choice.home.odd1, BestOdd(group, Home));
    InverseAntitone(choice.draw.oddX, BestOdd(group, Draw));
    InverseAntitone(choice.away.odd2, BestOdd(group, Away));
  }

  /** The best quotes are the quotes of some choice of rows. */
  lemma BestIsChoice(group: seq<Quote>) returns (choice: Choice)
    requires group != [] && AllQuoted(group)
    ensures choice.home in group && choice.draw in group && choice.away in group
    ensures BestSum(group) == choice.Implied()
  {
    var h := BestOddIs(group, Home);
    var d := BestOddIs(group, Draw);
    var w := BestOddIs(group, Away);
    choice := Choice(h, d, w);
    assert Odd(h, Home) == h.odd1 && Odd(d, Draw) == d.oddX && Odd(w, Away) == w.odd2;
  }

  lemma ArbitrageIsFound(rows: seq<Quote>, key: Fixture, minProfit: real)
    requires AllQuoted(rows) && Group(rows, key) != [] && Arbitrage(rows, key, minProfit)
    ensures Pays(BestSum(Group(rows, key)), minProfit)
  {
    var choice: Choice :| choice.From(rows, key) && Pays(choice.Implied(), minProfit);
    BestIsLowest(Group(rows, key), key, choice);
    LowerSumPays(BestSum(Group(rows, key)), choice.Implied(), minProfit);
  }

  /** Looking only at the best quotes finds an arbitrage exactly when there is one. */
  lemma BestPaysIff(rows: seq<Quote>, key: Fixture, minProfit: real)
    requires AllQuoted(rows) && Group(rows, key) != []
    ensures Pays(BestSum(Group(rows, key)), minProfit) <==> Arbitrage(rows, key, minProfit)
  {
    if Arbitrage(rows, key, minProfit) {
      ArbitrageIsFound(rows, key, minProfit);
    }
    var choice := BestIsChoice(Group(rows, key));
    assert choice.From(rows, key);
  }

  // ---- stakes ----

  const TOTAL_STAKE: real := 100.0

  function SureBetOf(key: Fixture, a: real, b: real, c: real): SureBet
    requires a > 0.0 && b > 0.0 && c > 0.0
  {
    ImpliedSumPositive(a, b, c);
    var implied := ImpliedSum(a, b, c);
    SureBet(key, a, b, c, ProfitPercent(implied),
            TOTAL_STAKE * (1.0 / a) / implied, TOTAL_STAKE * (1.0 / b) / implied, TOTAL_STAKE * (1.0 / c) / implied,
            TOTAL_STAKE * (1.0 / implied))
  }

  /** One leg: staked in proportion to its implied probability, it returns total / implied. */
  lemma LegReturns(total: real, odd: real, implied: real)
    requires odd > 0.0 && implied > 0.0
    ensures (total * (1.0 / odd) / implied) * odd == total * (1.0 / implied)
  {
    var p, q := 1.0 / odd, 1.0 / implied;
    var stake := total * p / implied;
    assert p * odd == 1.0 && q * implied == 1.0;
    assert stake * implied == total * p;
    assert (stake * odd) * implied == (total * p) * odd == total * (p * odd) == total;
    assert (total * q) * implied == total * (q * implied) == total;
    Cancel(stake * odd, total * q, implied);
    Cancel(total * q, stake * odd, implied);
  }

  lemma StakesAddUp(total: real, p: real, q: real, r: real, implied: real)
    requires implied > 0.0 && p + q + r == implied
    ensures total * p / implied + total * q / implied + total * r / implied == total
  {
    var a, b, c := total * p / implied, total * q / implied, total * r / implied;
    assert a * implied == total * p && b * implied == total * q && c * implied == total * r;
    assert (a + b + c) * implied == a * implied + b * implied + c * implied;
    assert total * implied == total * p + total * q + total * r;
    Cancel(a + b + c, total, implied);
    Cancel(total, a + b + c, implied);
  }

  /** The three stakes spend the whole 100, and whichever outcome comes in pays the same return. */
  lemma StakesAreEven(key: Fixture, a: real, b: real, c: real)
    requires a > 0.0 && b > 0.0 && c > 0.0
    ensures var bet := SureBetOf(key, a, b, c);
            && bet.stake1 + bet.stakeX + bet.stake2 == TOTAL_STAKE
            && bet.stake1 * a == bet.stakeX * b == bet.stake2 * c == bet.guaranteedReturn
  {
    ImpliedSumPositive(a, b, c);
    var implied := ImpliedSum(a, b, c);
    StakesAddUp(TOTAL_STAKE, 1.0 / a, 1.0 / b, 1.0 / c, implied);
    LegReturns(TOTAL_STAKE, a, implied);
    LegReturns(TOTAL_STAKE, b, implied);
    LegReturns(TOTAL_STAKE, c, implied);
  }

  /** Below an implied sum of 1 the common return exceeds the stake. */
  lemma ReturnExceedsStake(key: Fixture, a: real, b: real, c: real)
    requires a > 0.0 && b > 0.0 && c > 0.0 && ImpliedSum(a, b, c) < 1.0
    ensures SureBetOf(key, a, b, c).guaranteedReturn > TOTAL_STAKE
  {
    ImpliedSumPositive(a, b, c);
    var implied, q := ImpliedSum(a, b, c), 1.0 / ImpliedSum(a, b, c);
    assert q * implied == 1.0;
    assert q > 0.0;
    MulStrict(q, implied, 1.0);
  }

  ghost predicate Listed(items: seq<SureBet>, key: Fixture) { exists item | item in items :: item.fixture == key }

  /** Even stakes of 100 in all, with the same return above 100 whatever happens. */
  predicate Balanced(item: SureBet) {
    && item.stake1 + item.stakeX + item.stake2 == TOTAL_STAKE
    && item.stake1 * item.best1 == item.stakeX * item.bestX == item.stake2 * item.best2 == item.guaranteedReturn
    && TOTAL_STAKE < item.guaranteedReturn == TOTAL_STAKE + item.profitPercent
  }

  /** The item quotes, for every outcome, the highest odds any row of its fixture offers. */
  ghost predicate QuotesBest(rows: seq<Quote>, item: SureBet) {
    && (exists choice: Choice | choice.From(rows, item.fixture) ::
          item.best1 == choice.home.odd1 && item.bestX == choice.draw.oddX && item.best2 == choice.away.odd2)
    && (forall q | q in rows && q.fixture == item.fixture ::
          q.odd1 <= item.best1 && q.oddX <= item.bestX && q.odd2 <= item.best2)
  }

  /** What every listed item is: the best quotes, staked evenly, with at least the asked profit. */
  ghost predicate Genuine(rows: seq<Quote>, item: SureBet, minProfit: real) {
    Balanced(item) && QuotesBest(rows, item) && item.profitPercent >= minProfit
  }

  /** Items grow by those of one more fixture. */
  lemma ListedAppend(items: seq<SureBet>, more: seq<SureBet>, key: Fixture)
    ensures Listed(items + more, key) <==> Listed(items, key) || Listed(more, key)
  {
    forall item ensures item in items + more <==> item in items || item in more {
    }
  }

  lemma BestIsQuoted(rows: seq<Quote>, key: Fixture, item: SureBet)
    requires Group(rows, key) != [] && item.fixture == key
    requires item.best1 == BestOdd(Group(rows, key), Home) && item.bestX == BestOdd(Group(rows, key), Draw)
    requires item.best2 == BestOdd(Group(rows, key), Away)
    ensures QuotesBest(rows, item)
  {
    var group := Group(rows, key);
    var h := BestOddIs(group, Home);
    var d := BestOddIs(group, Draw);
    var w := BestOddIs(group, Away);
    assert Choice(h, d, w).From(rows, key);
    forall q | q in rows && q.fixture == key
      ensures q.odd1 <= item.best1 && q.oddX <= item.bestX && q.odd2 <= item.best2
    {
      assert q in group;
      assert Odd(q, Home) == q.odd1 && Odd(q, Draw) == q.oddX && Odd(q, Away) == q.odd2;
    }
  }

  lemma ItemIsBalanced(key: Fixture, a: real, b: real, c: real)
    requires a > 0.0 && b > 0.0 && c > 0.0 && ImpliedSum(a, b, c) < 1.0
    ensures Balanced(SureBetOf(key, a, b, c))
  {
    StakesAreEven(key, a, b, c);
    ReturnExceedsStake(key, a, b, c);
  }

  lemma GroupOf(rows: seq<Quote>, key: Fixture)
    requires key in Fixtures(rows)
    ensures Group(rows, key) != []
  {
    FixturesAre(rows);
    var q :| q in rows && q.fixture == key;
    assert q in Group(rows, key);
  }

  lemma NoRowsNoArbitrage(rows: seq<Quote>, key: Fixture, minProfit: real)
    requires AllQuoted(rows) && key !in Fixtures(rows)
    ensures !Arbitrage(rows, key, minProfit)
  {
    FixturesAre(rows);
  }

  /** One fixture: an item exactly when its rows hold an arbitrage. */
  method Examine(rows: seq<Quote>, key: Fixture, minProfit: real) returns (item: seq<SureBet>)
    requires AllQuoted(rows) && key in Fixtures(rows)
    ensures item == [] <==> !Arbitrage(rows, key, minProfit)
    ensures item != [] ==> |item| == 1 && item[0].fixture == key && Genuine(rows, item[0], minProfit)
  {
    GroupOf(rows, key);
    var group := Group(rows, key);
    BestPaysIff(rows, key, minProfit);
    BestIsPositive(group, Home);
    BestIsPositive(group, Draw);
    BestIsPositive(group, Away);
    var best1, bestX, best2 := BestOdd(group, Home), BestOdd(group, Draw), BestOdd(group, Away);
    var implied := ImpliedSum(best1, bestX, best2);
    if implied >= 1.0 {
      return [];
    }
    ImpliedSumPositive(best1, bestX, best2);
    if ProfitPercent(implied) < minProfit {
      return [];
    }
    ItemIsBalanced(key, best1, bestX, best2);
    BestIsQuoted(rows, key, SureBetOf(key, best1, bestX, best2));
    return [SureBetOf(key, best1, bestX, best2)];
  }

  /** Of the first n fixtures, the listed ones are those with an arbitrage. */
  ghost predicate ListsUpTo(rows: seq<Quote>, keys: seq<Fixture>, n: nat, items: seq<SureBet>, minProfit: real)
    requires AllQuoted(rows) && n <= |keys|
  {
    forall m | 0 <= m < n :: Listed(items, keys[m]) <==> Arbitrage(rows, keys[m], minProfit)
  }

  /** Items of the first n fixtures only, one each. */
  predicate Among(keys: seq<Fixture>, n: nat, items: seq<SureBet>)
    requires n <= |keys|
  {
    && (forall item | item in items :: item.fixture in keys[..n])
    && (forall i, j | 0 <= i < j < |items| :: items[i].fixture != items[j].fixture)
  }

  lemma AmongNext(keys: seq<Fixture>, n: nat, items: seq<SureBet>, more: seq<SureBet>)
    requires n < |keys| && Among(keys, n, items) && keys[n] !in keys[..n]
    requires |more| <= 1 && (more != [] ==> more[0].fixture == keys[n])
    ensures Among(keys, n + 1, items + more)
  {
    assert keys[..n + 1] == keys[..n] + [keys[n]];
  }

  lemma ListsNext(rows: seq<Quote>, keys: seq<Fixture>, n: nat, items: seq<SureBet>, more: seq<SureBet>,
                  minProfit: real)
    requires AllQuoted(rows) && n < |keys| && ListsUpTo(rows, keys, n, items, minProfit)
    requires Among(keys, n, items) && keys[n] !in keys[..n]
    requires |more| <= 1 && (more != [] ==> more[0].fixture == keys[n])
    requires more == [] <==> !Arbitrage(rows, keys[n], minProfit)
    ensures ListsUpTo(rows, keys, n + 1, items + more, minProfit)
  {
    forall m | 0 <= m <= n ensures Listed(items + more, keys[m]) <==> Arbitrage(rows, keys[m], minProfit) {
      ListedAppend(items, more, keys[m]);
      assert m < n ==> keys[m] in keys[..n];
    }
  }

  lemma ListsAll(rows: seq<Quote>, keys: seq<Fixture>, items: seq<SureBet>, minProfit: real)
    requires AllQuoted(rows) && keys == Fixtures(rows)
    requires Among(keys, |keys|, items) && ListsUpTo(rows, keys, |keys|, items, minProfit)
    ensures forall key :: Listed(items, key) <==> Arbitrage(rows, key, minProfit)
  {
    forall key ensures Listed(items, key) <==> Arbitrage(rows, key, minProfit) {
      if key !in keys {
        NoRowsNoArbitrage(rows, key, minProfit);
      }
    }
  }

  /** The listing of get_sure_bets, before sorting, rounding and paging: a fixture is listed exactly
      when some choice of its rows is an arbitrage with the asked profit, once, with even stakes. */
  method FindSureBets(rows: seq<Quote>, minProfit: real) returns (items: seq<SureBet>)
    requires AllQuoted(rows)
    ensures forall i, j | 0 <= i < j < |items| :: items[i].fixture != items[j].fixture
    ensures forall key :: Listed(items, key) <==> Arbitrage(rows, key, minProfit)
    ensures forall item | item in items :: Genuine(rows, item, minProfit)
  {
    var keys := Fixtures(rows);
    FixturesAre(rows);
    items := [];
    for n := 0 to |keys|
      invariant Among(keys, n, items) && ListsUpTo(rows, keys, n, items, minProfit)
      invariant forall item | item in items :: Genuine(rows, item, minProfit)
    {
      var item := Examine(rows, keys[n], minProfit);
      AmongNext(keys, n, items, item);
      ListsNext(rows, keys, n, items, item, minProfit);
      items := items + item;
    }
    ListsAll(rows, keys, items, minProfit);
  }
}
