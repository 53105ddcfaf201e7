/** Decimal and American odds, fair and adjusted probabilities, value bets. */
module OddsMath {
  import opened Common
  import opened PyText
  import opened Reals

  /** convert_to_decimal_odds. */
  function ConvertToDecimal(odds: real): real {
    if odds == 0.0 then 1.01
    else if odds >= 1.01 then odds
    else if odds > 0.0 then odds / 100.0 + 1.0
    else 100.0 / Abs(odds) + 1.0
  }

  lemma DecimalOddsExceedOne(odds: real)
    ensures ConvertToDecimal(odds) > 1.0
  {
    if odds < 0.0 { assert 100.0 / Abs(odds) > 0.0; }
  }

  // ---- American odds and back ----

  /** Python's round(): to the nearest integer, ties to even. */
  function Round(x: real): int {
    var low := x.Floor;
    var rest := x - low as real;
    if rest < 0.5 then low
    else if rest > 0.5 then low + 1
    else if low % 2 == 0 then low else low + 1
  }

  lemma RoundIsNear(x: real)
    ensures x - 0.5 <= Round(x) as real <= x + 0.5
  {
  }

  /** decimal_to_american; even money and above is quoted as the gain on 100, below as the stake
      for 100. Odds of exactly 1 divide by zero. */
  function DecimalToAmerican(decimal: real): Option<int>
    requires decimal != 1.0
  {
    if decimal == 0.0 then None
    else if decimal >= 2.0 then Some(Round((decimal - 1.0) * 100.0))
    else Some(Round(-100.0 / (decimal - 1.0)))
  }

  /** Rounding does not cross an integer. */
  lemma RoundAtMost(x: real, n: int)
    requires x <= n as real
    ensures Round(x) <= n
  {
  }

  lemma ShrinksUnder(d: real, q: real)
    requires q >= 100.0 && d * q <= 0.5
    ensures d <= 1.0 / 200.0
  {
    if d > 0.0 { assert d * 100.0 <= d * q; }
  }

  lemma InverseNear(x: real, q: real)
    requires x >= 100.0 && q >= 100.0 && x - 0.5 <= q <= x + 0.5
    ensures -1.0 / 200.0 <= 100.0 / q - 100.0 / x <= 1.0 / 200.0
  {
    var a, b := 100.0 / q, 100.0 / x;
    assert a * q == 100.0 && b * x == 100.0;
    assert 0.0 < a <= 1.0 && 0.0 < b <= 1.0 by {
      assert a * 100.0 <= a * q && b * 100.0 <= b * x;
    }
    assert (a - b) * q == b * (x - q);
    assert (b - a) * q == -(b * (x - q));
    MulMono(b, x - q, 0.5);
    MulMono(b, -0.5, x - q);
    ShrinksUnder(a - b, q);
    ShrinksUnder(b - a, q);
  }

  /** Below even money the quotation loses less than half a hundredth. */
  lemma ShortOddsRoundTrip(decimal: real)
    requires 1.0 < decimal < 2.0
    ensures DecimalToAmerican(decimal).Some?
    ensures Abs(ConvertToDecimal(DecimalToAmerican(decimal).value as real) - decimal) <= 1.0 / 200.0
  {
    var gain := decimal - 1.0;
    var stake := 100.0 / gain;
    assert stake * gain == 100.0;
    assert stake > 100.0;
    var quote := Round(-100.0 / gain);
    assert -100.0 / gain == -stake;
    RoundIsNear(-stake);
    var q := -(quote as real);
    assert q >= 100.0 by { RoundAtMost(-stake, -100); }
    InverseNear(stake, q);
    assert 100.0 / stake == gain;
  }

  /** The converter takes any number from 1.01 up for decimal odds, so a positive American quote is
      never undone. */
  lemma LongOddsNeverRoundTrip(decimal: real)
    requires decimal >= 2.0
    ensures DecimalToAmerican(decimal).Some?
    ensures Abs(ConvertToDecimal(DecimalToAmerican(decimal).value as real) - decimal) > 1.0 / 200.0
  {
    var x := (decimal - 1.0) * 100.0;
    RoundIsNear(x);
    assert x >= 100.0;
  }

  /** For every offer above 1: quoting it the American way and reading it back is accurate to half a
      hundredth exactly below even money. */
  lemma AmericanRoundTripIff(decimal: real)
    requires decimal > 1.0
    ensures DecimalToAmerican(decimal).Some?
    ensures Abs(ConvertToDecimal(DecimalToAmerican(decimal).value as real) - decimal) <= 1.0 / 200.0 <==> decimal < 2.0
  {
    if decimal < 2.0 {
      ShortOddsRoundTrip(decimal);
    } else {
      LongOddsNeverRoundTrip(decimal);
    }
  }

  // ---- value bets ----

  datatype Fixture = Fixture(homeTeam: string, awayTeam: string, league: string, country: string)

  datatype Triple = Triple(home: real, draw: real, away: real)
  {
    function Sum(): real { home + draw + away }
    predicate Positive() { home > 0.0 && draw > 0.0 && away > 0.0 }
    function Over(total: real): Triple
      requires total != 0.0
    {
      Triple(home / total, draw / total, away / total)
    }
  }

  predicate Mentions(text: string, name: string) { Contains(Lower(text), name) }

  predicate InLeague(f: Fixture, league: string, country: string) {
    Mentions(f.league, league) || Mentions(f.country, country)
  }

  const BIG_TEAMS: seq<string> :=
    ["barcelona", "real madrid", "bayern", "manchester", "liverpool",
     "arsenal", "chelsea", "juventus", "milan", "psg", "city"]

  predicate IsBig(team: string) { exists k | 0 <= k < |BIG_TEAMS| :: Mentions(team, BIG_TEAMS[k]) }

  datatype League = England | Spain | Germany | Italy | France | Elsewhere

  /** The first league pattern that fits decides. */
  function LeagueOf(f: Fixture): League {
    if InLeague(f, "premier", "england") then England
    else if InLeague(f, "la liga", "spain") then Spain
    else if InLeague(f, "bundesliga", "germany") then Germany
    else if InLeague(f, "serie a", "italy") then Italy
    else if InLeague(f, "ligue", "france") then France
    else Elsewhere
  }

  /** How the league tilts the three fair probabilities. */
  function LeagueTilt(league: League, fair: Triple): Triple {
    match league
    case England => Triple(fair.home * 1.05, fair.draw * 0.9, fair.away)
    case Spain => if fair.home < 0.4 && fair.away < 0.4 then fair.(draw := fair.draw * 1.1) else fair
    case Germany => fair.(draw := fair.draw * 0.85)
    case Italy => fair.(draw := fair.draw * 1.05)
    case France =>
      if fair.home > 0.6 then fair.(home := fair.home * 1.1)
      else if fair.away > 0.6 then fair.(away := fair.away * 1.1)
      else fair
    case Elsewhere => fair
  }

  /** How a big team against a small one tilts them, home advantage included. */
  function TeamTilt(homeBig: bool, awayBig: bool, p: Triple): Triple {
    if homeBig && !awayBig then Triple(p.home * 1.08 * 1.03, p.draw, p.away * 0.85 * 0.98)
    else if awayBig && !homeBig then Triple(p.home * 0.85 * 1.03, p.draw, p.away * 1.08 * 0.98)
    else Triple(p.home * 1.03, p.draw, p.away * 0.98)
  }

  function Tilted(league: League, homeBig: bool, awayBig: bool, fair: Triple): Triple {
    TeamTilt(homeBig, awayBig, LeagueTilt(league, fair))
  }

  /** A distribution over the three outcomes. */
  predicate IsDistribution(p: Triple) { p.Positive() && p.Sum() == 1.0 }

  /** Between the extreme products of a league factor and a team factor. */
  predicate Near(x: real, p: real) { p * 0.833 <= x <= p * 1.22364 }

  lemma TiltIsBounded(league: League, homeBig: bool, awayBig: bool, fair: Triple)
    requires fair.Positive()
    ensures var raw := Tilted(league, homeBig, awayBig, fair);
            raw.Positive() && Near(raw.home, fair.home) && Near(raw.draw, fair.draw) && Near(raw.away, fair.away)
            && Near(raw.Sum(), fair.Sum())
  {
  }

  /** estimate_true_probabilities as a function: tilt, then normalise. */
  function Adjusted(league: League, homeBig: bool, awayBig: bool, fair: Triple): Triple
    requires IsDistribution(fair)
  {
    TiltIsBounded(league, homeBig, awayBig, fair);
    var raw := Tilted(league, homeBig, awayBig, fair);
    raw.Over(raw.Sum())
  }

  /** One normalised probability against its fair one. */
  lemma ShareBound(p: real, weighted: real, total: real)
    requires 0.0 < weighted <= p * 1.22364 && 0.833 <= total
    ensures 0.0 < weighted / total <= p * (1.22364 / 0.833)
  {
    var share := weighted / total;
    assert share * total == weighted;
    assert share > 0.0;
    MulMono(share, 0.833, total);
  }

  lemma DividedParts(raw: Triple, total: real)
    requires total > 0.0 && raw.Sum() == total
    ensures raw.Over(total).Sum() == 1.0
  {
    var h, d, a := raw.home / total, raw.draw / total, raw.away / total;
    assert h * total == raw.home && d * total == raw.draw && a * total == raw.away;
    assert (h + d + a) * total == h * total + d * total + a * total;
    Cancel(h + d + a, 1.0, total);
    Cancel(1.0, h + d + a, total);
  }

  /** The adjusted probabilities are again a distribution, and none exceeds its fair probability by
      more than the quotient of the extreme tilts. */
  lemma AdjustedIsDistribution(league: League, homeBig: bool, awayBig: bool, fair: Triple)
    requires IsDistribution(fair)
    ensures var r := Adjusted(league, homeBig, awayBig, fair);
            && IsDistribution(r)
            && r.home <= fair.home * (1.22364 / 0.833)
            && r.draw <= fair.draw * (1.22364 / 0.833)
            && r.away <= fair.away * (1.22364 / 0.833)
  {
    var raw := Tilted(league, homeBig, awayBig, fair);
    TiltIsBounded(league, homeBig, awayBig, fair);
    DividedParts(raw, raw.Sum());
    ShareBound(fair.home, raw.home, raw.Sum());
    ShareBound(fair.draw, raw.draw, raw.Sum());
    ShareBound(fair.away, raw.away, raw.Sum());
  }

  /** The league chain: the first pattern that fits adjusts. */
  method AdjustForLeague(f: Fixture, fair: Triple) returns (home: real, draw: real, away: real)
    ensures Triple(home, draw, away) == LeagueTilt(LeagueOf(f), fair)
  {
    home, draw, away := fair.home, fair.draw, fair.away;
    if InLeague(f, "premier", "england") {
      draw := draw * 0.9;
      home := home * 1.05;
    } else if InLeague(f, "la liga", "spain") {
      if fair.home < 0.4 && fair.away < 0.4 {
        draw := draw * 1.1;
      }
    } else if InLeague(f, "bundesliga", "germany") {
      draw := draw * 0.85;
    } else if InLeague(f, "serie a", "italy") {
      draw := draw * 1.05;
    } else if InLeague(f, "ligue", "france") {
      if fair.home > 0.6 {
        home := home * 1.1;
      } else if fair.away > 0.6 {
        away := away * 1.1;
      }
    }
  }

  /** any() over the list of big names. */
  method HasBigName(team: string) returns (big: bool)
    ensures big <==> IsBig(team)
  {
    for k := 0 to |BIG_TEAMS|
      invariant forall j | 0 <= j < k :: !Mentions(team, BIG_TEAMS[j])
    {
      if Mentions(team, BIG_TEAMS[k]) {
        return true;
      }
    }
    return false;
  }

  method AdjustForTeams(homeIsBig: bool, awayIsBig: bool, home0: real, draw0: real, away0: real)
    returns (home: real, draw: real, away: real)
    ensures Triple(home, draw, away) == TeamTilt(homeIsBig, awayIsBig, Triple(home0, draw0, away0))
  {
    home, draw, away := home0, draw0, away0;
    if homeIsBig && !awayIsBig {
      home := home * 1.08;
      away := away * 0.85;
    } else if awayIsBig && !homeIsBig {
      away := away * 1.08;
      home := home * 0.85;
    }
    home := home * 1.03;
    away := away * 0.98;
  }

  method Normalise(home: real, draw: real, away: real) returns (h: real, d: real, a: real)
    requires home + draw + away > 0.0
    ensures Triple(h, d, a) == Triple(home, draw, away).Over(home + draw + away)
  {
    var total := home + draw + away;
    h, d, a := home / total, draw / total, away / total;
  }

  /** estimate_true_probabilities, in the code's order. */
  method EstimateTrueProbabilities(f: Fixture, fair: Triple) returns (home: real, draw: real, away: real)
    requires IsDistribution(fair)
    ensures Triple(home, draw, away) == Adjusted(LeagueOf(f), IsBig(f.homeTeam), IsBig(f.awayTeam), fair)
  {
    home, draw, away := AdjustForLeague(f, fair);
    var homeIsBig := HasBigName(f.homeTeam);
    var awayIsBig := HasBigName(f.awayTeam);
    home, draw, away := AdjustForTeams(homeIsBig, awayIsBig, home, draw, away);
    TiltIsBounded(LeagueOf(f), homeIsBig, awayIsBig, fair);
    home, draw, away := Normalise(home, draw, away);
  }

  // ---- expected value ----

  /** A fixture on offer; the query only returns rows with three non-zero odds. */
  datatype Offer = Offer(id: int, fixture: Fixture, odds: Triple)
  {
    predicate Quoted() { odds.home != 0.0 && odds.draw != 0.0 && odds.away != 0.0 }
    function Decimal(): (decimal: Triple)
      ensures decimal.Positive()
    {
      DecimalOddsExceedOne(odds.home);
      DecimalOddsExceedOne(odds.draw);
      DecimalOddsExceedOne(odds.away);
      Triple(ConvertToDecimal(odds.home), ConvertToDecimal(odds.draw), ConvertToDecimal(odds.away))
    }
  }

  function Implied(decimal: Triple): Triple
    requires decimal.Positive()
  {
    Triple(1.0 / decimal.home, 1.0 / decimal.draw, 1.0 / decimal.away)
  }

  lemma ImpliedIsPositive(decimal: Triple)
    requires decimal.Positive()
    ensures Implied(decimal).Positive() && Implied(decimal).Sum() > 0.0
  {
  }

  function Fair(decimal: Triple): Triple
    requires decimal.Positive()
  {
    ImpliedIsPositive(decimal);
    Implied(decimal).Over(Implied(decimal).Sum())
  }

  lemma FairIsDistribution(decimal: Triple)
    requires decimal.Positive()
    ensures IsDistribution(Fair(decimal))
  {
    ImpliedIsPositive(decimal);
    DividedParts(Implied(decimal), Implied(decimal).Sum());
  }

  function TrueProbabilities(offer: Offer): Triple {
    FairIsDistribution(offer.Decimal());
    var f := offer.fixture;
    Adjusted(LeagueOf(f), IsBig(f.homeTeam), IsBig(f.awayTeam), Fair(offer.Decimal()))
  }

  datatype Bet = HomeWin | Draw | AwayWin

  function Pick(t: Triple, bet: Bet): real {
    match bet case HomeWin => t.home case Draw => t.draw case AwayWin => t.away
  }

  /** Probability times decimal odds, less the stake. */
  function Value(chances: Triple, decimal: Triple, bet: Bet): real {
    Pick(chances, bet) * Pick(decimal, bet) - 1.0
  }

  function ExpectedValue(offer: Offer, bet: Bet): real {
    Value(TrueProbabilities(offer), offer.Decimal(), bet)
  }

  /** max() over home, draw, away: the first of the largest. */
  function BestBet(offer: Offer): (best: Bet)
    ensures forall bet :: ExpectedValue(offer, bet) <= ExpectedValue(offer, best)
  {
    var h, d, a := ExpectedValue(offer, HomeWin), ExpectedValue(offer, Draw), ExpectedValue(offer, AwayWin);
    if h >= d && h >= a then HomeWin else if d >= a then Draw else AwayWin
  }

  /** An outcome at least as likely as the market makes it is worth at least what the margin leaves. */
  lemma ValueOfShare(o: real, total: real, share: real)
    requires o > 0.0 && total > 0.0 && share >= (1.0 / o) / total
    ensures share * o >= 1.0 / total
  {
    var implied, fair := 1.0 / o, (1.0 / o) / total;
    assert implied * o == 1.0 && fair * total == implied;
    assert (fair * o) * total == (fair * total) * o;
    assert (1.0 / total) * total == 1.0;
    Cancel(1.0 / total, fair * o, total);
    MulMono(o, fair, share);
  }

  /** Against any distribution, some outcome is worth at least what the margin leaves. */
  lemma SomeOutcomeHolds(decimal: Triple, chances: Triple) returns (bet: Bet)
    requires decimal.Positive() && IsDistribution(chances)
    ensures Implied(decimal).Sum() > 0.0
    ensures Value(chances, decimal, bet) >= 1.0 / Implied(decimal).Sum() - 1.0
  {
    var fair, total := Fair(decimal), Implied(decimal).Sum();
    FairIsDistribution(decimal);
    ImpliedIsPositive(decimal);
    bet := if chances.home >= fair.home then HomeWin else if chances.draw >= fair.draw then Draw else AwayWin;
    ValueOfShare(Pick(decimal, bet), total, Pick(chances, bet));
  }

  /** The best expected value of an offer is at least 1/total - 1: some outcome is at least as
      likely as the market makes it. */
  lemma BestValueBound(offer: Offer)
    ensures ExpectedValue(offer, BestBet(offer)) >= 1.0 / Implied(offer.Decimal()).Sum() - 1.0
  {
    FairIsDistribution(offer.Decimal());
    var f := offer.fixture;
    AdjustedIsDistribution(LeagueOf(f), IsBig(f.homeTeam), IsBig(f.awayTeam), Fair(offer.Decimal()));
    var bet := SomeOutcomeHolds(offer.Decimal(), TrueProbabilities(offer));
    assert ExpectedValue(offer, bet) <= ExpectedValue(offer, BestBet(offer));
  }

  datatype ValueBet = ValueBet(id: int, bet: Bet, value: real, odds: real, trueProbability: real)

  function ValueBetOf(offer: Offer): ValueBet {
    var best := BestBet(offer);
    ValueBet(offer.id, best, ExpectedValue(offer, best), Pick(offer.Decimal(), best),
             Pick(TrueProbabilities(offer), best))
  }

  /** The best bets that reach the threshold, in the order of the offers. */
  function ValueBets(offers: seq<Offer>, minValue: real): seq<ValueBet> {
    if offers == [] then []
    else
      var init, last := ValueBets(offers[..|offers| - 1], minValue), ValueBetOf(offers[|offers| - 1]);
      if last.value >= minValue then init + [last] else init
  }

  predicate IsBestOfSome(offers: seq<Offer>, v: ValueBet) { exists k | 0 <= k < |offers| :: v == ValueBetOf(offers[k]) }

  lemma BestOfOneMore(offers: seq<Offer>, v: ValueBet)
    requires offers != []
    ensures IsBestOfSome(offers, v)
            <==> IsBestOfSome(offers[..|offers| - 1], v) || v == ValueBetOf(offers[|offers| - 1])
  {
    var init, last := offers[..|offers| - 1], |offers| - 1;
    if k :| 0 <= k < |init| && v == ValueBetOf(init[k]) { assert v == ValueBetOf(offers[k]); }
    if k :| 0 <= k < |offers| && v == ValueBetOf(offers[k]) { assert k < last ==> v == ValueBetOf(init[k]); }
  }

  /** A bet is listed exactly when it is the best bet of some offer and reaches the threshold. */
  lemma {:induction false} ValueBetsHold(offers: seq<Offer>, minValue: real, v: ValueBet)
    ensures v in ValueBets(offers, minValue) <==> v.value >= minValue && IsBestOfSome(offers, v)
  {
    if offers == [] {
    } else {
      ValueBetsHold(offers[..|offers| - 1], minValue, v);
      BestOfOneMore(offers, v);
    }
  }

  /** An offer whose margin alone leaves the threshold is always listed. */
  lemma LowMarginIsListed(offers: seq<Offer>, minValue: real, k: nat)
    requires k < |offers| && 1.0 / Implied(offers[k].Decimal()).Sum() - 1.0 >= minValue
    ensures ValueBetOf(offers[k]) in ValueBets(offers, minValue)
  {
    BestValueBound(offers[k]);
    assert IsBestOfSome(offers, ValueBetOf(offers[k]));
    ValueBetsHold(offers, minValue, ValueBetOf(offers[k]));
  }

  /** The listing loop of get_value_bets, before it is sorted and cut. */
  method FindValueBets(offers: seq<Offer>, minValue: real) returns (found: seq<ValueBet>)
    requires forall k | 0 <= k < |offers| :: offers[k].Quoted()
    ensures found == ValueBets(offers, minValue)
    ensures forall v :: v in found <==> v.value >= minValue && IsBestOfSome(offers, v)
  {
    found := [];
    assert offers[..0] == [];
    for k := 0 to |offers|
      invariant found == ValueBets(offers[..k], minValue)
    {
      assert offers[..k + 1][..k] == offers[..k];
      var best := ValueBetOf(offers[k]);
      if best.value >= minValue {
        found := found + [best];
      }
    }
    assert offers[..|offers|] == offers;
    forall v ensures v in found <==> v.value >= minValue && IsBestOfSome(offers, v) {
      ValueBetsHold(offers, minValue, v);
    }
  }
}
