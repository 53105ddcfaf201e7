/** The card checksum loop and what it detects (Annex B of ISO/IEC 7812-1). */
module Luhn {
  import opened PyText

  function DigitOf(c: char): (d: nat)
    requires IsDigit(c)
    ensures d < 10
  {
    c as int - '0' as int
  }

  /** What a digit adds to the sum: itself, or its double reduced to one digit. */
  function Contribution(d: nat, doubled: bool): nat {
    if !doubled then d else if 2 * d > 9 then 2 * d - 9 else 2 * d
  }

  /** The weighted digit sum, read from the right, every second digit doubled. */
  function Weighted(s: string, doubled: bool): nat
    requires AllDigits(s)
  {
    if s == [] then 0
    else Contribution(DigitOf(s[|s| - 1]), doubled) + Weighted(s[..|s| - 1], !doubled)
  }

  predicate Valid(card: string) {
    AllDigits(card) && 13 <= |card| <= 19 && Weighted(card, false) % 10 == 0
  }

  method ValidateCardLuhn(card: string) returns (ok: bool)
    ensures ok <==> Valid(card)
  {
    if card == "" || !AllDigits(card) {
      return false;
    }
    if |card| < 13 || |card| > 19 {
      return false;
    }
    var total, isEven, i := 0, false, |card| - 1;
    assert card[..|card|] == card;
    while i >= 0
      invariant -1 <= i < |card|
      invariant total + Weighted(card[..i + 1], isEven) == Weighted(card, false)
    {
      assert card[..i + 1][..i] == card[..i];
      var digit := DigitOf(card[i]);
      if isEven {
        digit := digit * 2;
        if digit > 9 {
          digit := digit - 9;
        }
      }
      total := total + digit;
      isEven := !isEven;
      i := i - 1;
    }
    return total % 10 == 0;
  }

  /** Whether position i of an n-digit number is doubled. */
  predicate Doubled(n: nat, i: nat, last: bool)
    requires i < n
  {
    ((n - 1 - i) % 2 == 1) != last
  }

  lemma DoubledWithoutLast(n: nat, i: nat, last: bool)
    requires i + 1 < n
    ensures Doubled(n, i, last) == Doubled(n - 1, i, !last)
  {
  }

  lemma {:induction false} WeightedChanges(s: string, i: nat, c: char, last: bool)
    requires AllDigits(s) && i < |s| && IsDigit(c)
    ensures AllDigits(s[i := c])
    ensures Weighted(s[i := c], last) + Contribution(DigitOf(s[i]), Doubled(|s|, i, last))
            == Weighted(s, last) + Contribution(DigitOf(c), Doubled(|s|, i, last))
  {
    var n := |s| - 1;
    if i == n {
      assert s[i := c][..n] == s[..n];
    } else {
      WeightedChanges(s[..n], i, c, !last);
      assert s[i := c][..n] == s[..n][i := c];
      DoubledWithoutLast(|s|, i, last);
    }
  }

  /** Both weights permute the ten digits. */
  lemma ContributionInjective(a: nat, b: nat, doubled: bool)
    requires a < 10 && b < 10
    ensures Contribution(a, doubled) < 10
    ensures Contribution(a, doubled) == Contribution(b, doubled) <==> a == b
  {
  }

  lemma ShiftBreaksTen(sum: nat, sum': nat, a: nat, b: nat)
    requires sum % 10 == 0 && sum' + a == sum + b && a < 10 && b < 10 && a != b
    ensures sum' % 10 != 0
  {
  }

  /** No single wrong digit goes unnoticed. */
  lemma SingleErrorDetected(card: string, i: nat, c: char)
    requires Valid(card) && i < |card| && IsDigit(c) && c != card[i]
    ensures !Valid(card[i := c])
  {
    WeightedChanges(card, i, c, false);
    var doubled := Doubled(|card|, i, false);
    var a, b := DigitOf(card[i]), DigitOf(c);
    ContributionInjective(a, b, doubled);
    ContributionInjective(b, a, doubled);
    ShiftBreaksTen(Weighted(card, false), Weighted(card[i := c], false), Contribution(a, doubled),
                   Contribution(b, doubled));
  }

  function Swapped(s: string, i: nat): string
    requires i + 1 < |s|
  {
    s[i := s[i + 1]][i + 1 := s[i]]
  }

  /** What moving a digit from a plain to a doubled position adds. */
  function Gain(d: nat): int { Contribution(d, true) - d }

  lemma GainCollides(a: nat, b: nat)
    requires a < 10 && b < 10
    ensures (Gain(a) - Gain(b)) % 10 == 0 <==> a == b || (a == 0 && b == 9) || (a == 9 && b == 0)
  {
  }

  lemma NeighboursAlternate(n: nat, i: nat)
    requires i + 1 < n
    ensures Doubled(n, i + 1, false) == !Doubled(n, i, false)
  {
  }

  lemma SwapChanges(s: string, i: nat)
    requires AllDigits(s) && i + 1 < |s|
    ensures AllDigits(Swapped(s, i))
    ensures var change := Gain(DigitOf(s[i])) - Gain(DigitOf(s[i + 1]));
            Weighted(Swapped(s, i), false) == Weighted(s, false) + if Doubled(|s|, i, false) then -change else change
  {
    var t := s[i := s[i + 1]];
    WeightedChanges(s, i, s[i + 1], false);
    WeightedChanges(t, i + 1, s[i], false);
    NeighboursAlternate(|s|, i);
    var a, b, doubled := DigitOf(s[i]), DigitOf(s[i + 1]), Doubled(|s|, i, false);
    assert t[i + 1] == s[i + 1];
    assert Weighted(t, false) + Contribution(a, doubled) == Weighted(s, false) + Contribution(b, doubled);
    assert Weighted(Swapped(s, i), false) + Contribution(b, !doubled) == Weighted(t, false) + Contribution(a, !doubled);
  }

  lemma SumModTen(x: int, change: int)
    requires x % 10 == 0
    ensures (x + change) % 10 == 0 <==> change % 10 == 0
  {
  }

  /** Swapping two different neighbours passes exactly when they are 0 and 9. */
  lemma AdjacentSwapPassesIff(card: string, i: nat)
    requires Valid(card) && i + 1 < |card| && card[i] != card[i + 1]
    ensures Valid(Swapped(card, i)) <==> {card[i], card[i + 1]} == {'0', '9'}
  {
    SwapChanges(card, i);
    var a, b := DigitOf(card[i]), DigitOf(card[i + 1]);
    GainCollides(a, b);
    GainCollides(b, a);
    SumModTen(Weighted(card, false), Gain(a) - Gain(b));
    SumModTen(Weighted(card, false), Gain(b) - Gain(a));
    assert {card[i], card[i + 1]} == {'0', '9'} <==> (a == 0 && b == 9) || (a == 9 && b == 0) by {
      if {card[i], card[i + 1]} == {'0', '9'} {
        assert card[i] in {'0', '9'} && card[i + 1] in {'0', '9'};
      }
    }
  }

  lemma CompletesTen(sum: nat, d: nat)
    requires d < 10
    ensures (d + sum) % 10 == 0 <==> d == (10 - sum % 10) % 10
  {
  }

  lemma WeightedAppend(payload: string, c: char)
    requires AllDigits(payload) && IsDigit(c)
    ensures AllDigits(payload + [c]) && Weighted(payload + [c], false) == DigitOf(c) + Weighted(payload, true)
  {
    assert (payload + [c])[..|payload|] == payload;
  }

  /** Every payload of 12 to 18 digits has exactly one check digit. */
  lemma CheckDigitUnique(payload: string) returns (check: char)
    requires AllDigits(payload) && 12 <= |payload| <= 18
    ensures IsDigit(check) && Valid(payload + [check])
    ensures forall c | IsDigit(c) && Valid(payload + [c]) :: c == check
  {
    var d := (10 - Weighted(payload, true) % 10) % 10;
    check := d as char + '0';
    CompletesTen(Weighted(payload, true), d);
    forall c | IsDigit(c) ensures Valid(payload + [c]) <==> DigitOf(c) == d {
      WeightedAppend(payload, c);
      CompletesTen(Weighted(payload, true), DigitOf(c));
    }
  }
}
