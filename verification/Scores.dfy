/** Match results as text: the settlement's validator and parser, and the scraper's normaliser. */
module Scores {
  import opened Common
  import opened PyText

  datatype Score = Score(home: int, away: int)

  const MAX_GOALS := 15

  predicate InRange(score: Score) {
    0 <= score.home <= MAX_GOALS && 0 <= score.away <= MAX_GOALS
  }

  /** Two integers, one on each side of a split. */
  function ScoreOf(parts: seq<string>): Option<Score> {
    if |parts| != 2 then None
    else match (PyInt(parts[0]), PyInt(parts[1]))
      case (Some(a), Some(b)) => Some(Score(a, b))
      case _ => None
  }

  /** The validator in front of every settlement: a real score, at most 15 goals a side. */
  predicate IsValidFootballResult(result: Option<string>) {
    && result.Some?
    && Strip(result.value) != []
    && var score := ScoreOf(Split(Strip(result.value), '-'));
       score.Some? && InRange(score.value)
  }

  /** The settlement's own parse of the stored text; None is its ValueError branch. */
  function ParseScore(result: string): Option<Score> {
    ScoreOf(Split(result, '-'))
  }

  function OutcomeOf(score: Score): string {
    if score.home > score.away then "home"
    else if score.away > score.home then "away"
    else "draw"
  }

  /** Decimal rendering of a goal count. */
  function Render(n: nat): string
    requires n <= MAX_GOALS
  {
    if n < 10 then [n as char + '0'] else ['1', (n - 10) as char + '0']
  }

  function RenderScore(score: Score): string
    requires InRange(score)
  {
    Render(score.home) + "-" + Render(score.away)
  }

  predicate IsSeparator(c: char) { c == '-' || c == ':' }

  /** Index of the first '-' or ':', or |s|. */
  function FirstSeparator(s: string): (k: nat)
    ensures k <= |s|
    ensures forall i | 0 <= i < k :: !IsSeparator(s[i])
    ensures k < |s| ==> IsSeparator(s[k])
  {
    if s == [] || IsSeparator(s[0]) then 0 else 1 + FirstSeparator(s[1..])
  }

  /** The score read off a text cut once at its first '-' or ':'. */
  function NormalizedScore(s: string): Option<Score> {
    var k := FirstSeparator(s);
    if k == |s| then None else ScoreOf([Strip(s[..k]), Strip(s[k + 1..])])
  }

  /** The scraper's normaliser: keep scores in range, rendered as N-M. */
  function NormalizeResult(result: Option<string>): Option<string> {
    if result.None? || Strip(result.value) == [] then None
    else
      var score := NormalizedScore(Strip(result.value));
      if score.Some? && InRange(score.value) then Some(RenderScore(score.value)) else None
  }

  lemma RenderedDigits(n: nat)
    requires n <= MAX_GOALS
    ensures |Render(n)| > 0 && AllDigits(Render(n))
    ensures PyInt(Render(n)) == Some(n)
  {
    var t := Render(n);
    assert n < 10 ==> t[0] == n as char + '0';
    StripFixed(t);
    assert t[..|t| - 1] == if n < 10 then [] else ['1'];
    assert Digits([]) == 0 && Digits(['1']) == 1 by {
      assert ['1'][..0] == [];
    }
  }

  /** Blanks around a text only shift the position of its lone separator. */
  lemma BlanksShiftSeparator(v: string, s: string, w: string, k: int)
    requires Blank(v) && Blank(w)
    ensures IsOnlyAt(v + s + w, '-', k) <==> IsOnlyAt(s, '-', k - |v|)
  {
    var t, j := v + s + w, k - |v|;
    if IsOnlyAt(t, '-', k) {
      assert |v| <= k < |v| + |s|;
    }
    if 0 <= j < |s| {
      assert t[..k] == v + s[..j];
      assert t[k + 1..] == s[j + 1..] + w;
    }
  }

  lemma ParseShifts(v: string, s: string, w: string, j: int)
    requires Blank(v) && Blank(w) && IsOnlyAt(s, '-', j)
    ensures ParseScore(v + s + w) == ParseScore(s)
  {
    var t, k := v + s + w, j + |v|;
    BlanksShiftSeparator(v, s, w, k);
    SplitAtOnly(s, '-', j);
    SplitAtOnly(t, '-', k);
    assert t[..k] == v + s[..j] + [];
    assert t[k + 1..] == [] + s[j + 1..] + w;
    PyIntIgnoresBlanks(v, s[..j], []);
    PyIntIgnoresBlanks([], s[j + 1..], w);
  }

  /** Blanks around the whole text change neither the split nor the integers in it. */
  lemma ParseIgnoresBlanks(v: string, s: string, w: string)
    requires Blank(v) && Blank(w)
    ensures ParseScore(v + s + w) == ParseScore(s)
  {
    var t := v + s + w;
    if |Split(s, '-')| == 2 {
      var j := SplitInTwo(s, '-');
      ParseShifts(v, s, w, j);
    } else if |Split(t, '-')| == 2 {
      var k := SplitInTwo(t, '-');
      BlanksShiftSeparator(v, s, w, k);
      ParseShifts(v, s, w, k - |v|);
    }
  }

  /** A result that passed the validator always parses, to the very score that was checked:
      the settlement's ValueError branch is dead. */
  lemma ValidResultParses(result: string)
    requires IsValidFootballResult(Some(result))
    ensures ParseScore(result).Some? && InRange(ParseScore(result).value)
    ensures ParseScore(result) == ParseScore(Strip(result))
  {
    var v, w := StripShape(result);
    ParseIgnoresBlanks(v, Strip(result), w);
  }

  /** Two digit strings around a dash are cut at the dash. */
  lemma DashSplits(a: string, b: string)
    requires AllDigits(a) && AllDigits(b)
    ensures Strip(a + "-" + b) == a + "-" + b
    ensures Split(a + "-" + b, '-') == [a, b]
  {
    var t := a + "-" + b;
    StripFixed(t);
    assert t[..|a|] == a && t[|a|] == '-' && t[|a| + 1..] == b;
    SplitAtOnly(t, '-', |a|);
  }

  lemma RenderedScoreParses(score: Score)
    requires InRange(score)
    ensures IsValidFootballResult(Some(RenderScore(score)))
    ensures Strip(RenderScore(score)) == RenderScore(score)
    ensures ParseScore(RenderScore(score)) == Some(score)
  {
    RenderedDigits(score.home);
    RenderedDigits(score.away);
    DashSplits(Render(score.home), Render(score.away));
  }

  lemma FirstSeparatorIs(s: string, k: nat)
    requires k < |s| && IsSeparator(s[k])
    requires '-' !in s[..k] && ':' !in s[..k]
    ensures FirstSeparator(s) == k
  {
    assert forall i | 0 <= i < k :: s[i] in s[..k];
  }

  /** The normaliser cuts two digit strings at the dash between them. */
  lemma DashIsCut(a: string, b: string)
    requires AllDigits(a) && AllDigits(b)
    ensures NormalizedScore(a + "-" + b) == ScoreOf([a, b])
  {
    var t := a + "-" + b;
    StripFixed(a);
    StripFixed(b);
    assert t[..|a|] == a && t[|a|] == '-' && t[|a| + 1..] == b;
    FirstSeparatorIs(t, |a|);
  }

  lemma RenderedScoreNormalizes(score: Score)
    requires InRange(score)
    ensures NormalizedScore(RenderScore(score)) == Some(score)
  {
    RenderedDigits(score.home);
    RenderedDigits(score.away);
    DashIsCut(Render(score.home), Render(score.away));
  }

  /** What the normaliser emits is accepted by the validator, parses back to the same score,
      and is left alone by a second normalisation. */
  lemma NormalizedResultRoundTrips(raw: Option<string>) returns (score: Score)
    requires NormalizeResult(raw).Some?
    ensures InRange(score) && NormalizeResult(raw) == Some(RenderScore(score))
    ensures IsValidFootballResult(NormalizeResult(raw))
    ensures ParseScore(NormalizeResult(raw).value) == Some(score)
    ensures NormalizeResult(NormalizeResult(raw)) == NormalizeResult(raw)
  {
    score := NormalizedScore(Strip(raw.value)).value;
    RenderedScoreParses(score);
    RenderedScoreNormalizes(score);
  }

  lemma StripKeepsInteger(s: string)
    ensures PyInt(Strip(s)) == PyInt(s)
  {
    var v, w := StripShape(s);
    PyIntIgnoresBlanks(v, Strip(s), w);
  }

  lemma StripKeepsScore(a: string, b: string)
    ensures ScoreOf([Strip(a), Strip(b)]) == ScoreOf([a, b])
  {
    StripKeepsInteger(a);
    StripKeepsInteger(b);
  }

  lemma IntegerHasNoColon(s: string)
    requires PyInt(s).Some?
    ensures ':' !in s
  {
    var v, w := StripShape(s);
    var t := Strip(s);
    forall i | 0 <= i < |t| ensures t[i] != ':' {
      if i > 0 && (t[0] == '+' || t[0] == '-') {
        assert t[i] == t[1..][i - 1];
      }
    }
  }

  /** An unblanked text the validator's split accepts is cut at the same place by the normaliser. */
  lemma ParsedTextNormalizes(s: string)
    requires ParseScore(s).Some?
    ensures NormalizedScore(s) == ParseScore(s)
  {
    var k := SplitInTwo(s, '-');
    SplitAtOnly(s, '-', k);
    IntegerHasNoColon(s[..k]);
    FirstSeparatorIs(s, k);
    StripKeepsScore(s[..k], s[k + 1..]);
  }

  /** The two readers agree: a stored result the validator accepts is one the normaliser would
      have stored, with the same score. */
  lemma ValidResultNormalizes(result: string) returns (score: Score)
    requires IsValidFootballResult(Some(result))
    ensures InRange(score) && ParseScore(result) == Some(score)
    ensures NormalizeResult(Some(result)) == Some(RenderScore(score))
  {
    ValidResultParses(result);
    ParsedTextNormalizes(Strip(result));
    score := ParseScore(result).value;
  }
}
