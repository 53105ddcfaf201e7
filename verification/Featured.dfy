/** The featured-match list: two matches per country first, then the earliest others. */
module Featured {

  /** A fetched row: its country key, whether its league is featured, and its place in time. */
  datatype Match = Match(id: int, country: string, featured: bool, kickoff: int)

  const CAP := 2

  const COUNTRY_PRIORITY: seq<string> :=
    ["england", "spain", "germany", "italy", "france",
     "brazil", "portugal", "netherlands", "turkey", "belgium", "argentina"]

  predicate DistinctIds(rows: seq<Match>) { forall i, j | 0 <= i < j < |rows| :: rows[i].id != rows[j].id }

  predicate InDateOrder(rows: seq<Match>) { forall i, j | 0 <= i < j < |rows| :: rows[i].kickoff <= rows[j].kickoff }

  // ---- filters ----

  datatype Test = IsFeatured(yes: bool) | FromCountry(country: string) | FromAny(countries: seq<string>)
                | OfKind(country: string, yes: bool) | NotAmong(ids: set<int>)

  predicate Passes(test: Test, m: Match) {
    match test
    case IsFeatured(yes) => m.featured == yes
    case FromCountry(country) => m.country == country
    case FromAny(countries) => m.country in countries
    case OfKind(country, yes) => m.country == country && m.featured == yes
    case NotAmong(ids) => m.id !in ids
  }

  function Filter(rows: seq<Match>, test: Test): seq<Match> {
    if rows == [] then []
    else
      var init, last := Filter(rows[..|rows| - 1], test), rows[|rows| - 1];
      if Passes(test, last) then init + [last] else init
  }

  lemma {:induction false} FilterMultiplicity(rows: seq<Match>, test: Test, m: Match)
    ensures multiset(Filter(rows, test))[m] == if Passes(test, m) then multiset(rows)[m] else 0
  {
    if rows == [] {
    } else {
      var init, last := rows[..|rows| - 1], rows[|rows| - 1];
      FilterMultiplicity(init, test, m);
      assert rows == init + [last];
    }
  }

  /** Rows in the same multiset pass a test equally often. */
  lemma FilterPermutes(a: seq<Match>, b: seq<Match>, test: Test)
    requires multiset(a) == multiset(b)
    ensures multiset(Filter(a, test)) == multiset(Filter(b, test))
    ensures |Filter(a, test)| == |Filter(b, test)|
  {
    forall m ensures multiset(Filter(a, test))[m] == multiset(Filter(b, test))[m] {
      FilterMultiplicity(a, test, m);
      FilterMultiplicity(b, test, m);
    }
    assert |multiset(Filter(a, test))| == |Filter(a, test)|;
    assert |multiset(Filter(b, test))| == |Filter(b, test)|;
  }

  lemma {:induction false} FilterSplits(a: seq<Match>, b: seq<Match>, test: Test)
    ensures Filter(a + b, test) == Filter(a, test) + Filter(b, test)
  {
    if b == [] {
      assert a + b == a;
    } else {
      assert (a + b)[..|a + b| - 1] == a + b[..|b| - 1];
      FilterSplits(a, b[..|b| - 1], test);
    }
  }

  // ---- sorting by date and time ----

  function Insert(m: Match, rows: seq<Match>): seq<Match> {
    if rows == [] || rows[|rows| - 1].kickoff <= m.kickoff then rows + [m]
    else Insert(m, rows[..|rows| - 1]) + [rows[|rows| - 1]]
  }

  /** list.sort() on the kickoff: stable. */
  function Sort(rows: seq<Match>): seq<Match> {
    if rows == [] then [] else Insert(rows[|rows| - 1], Sort(rows[..|rows| - 1]))
  }

  lemma LastOf(rows: seq<Match>)
    requires rows != []
    ensures multiset(rows) == multiset(rows[..|rows| - 1]) + multiset{rows[|rows| - 1]}
  {
    assert rows == rows[..|rows| - 1] + [rows[|rows| - 1]];
  }

  lemma {:induction false} InsertPermutes(m: Match, rows: seq<Match>)
    ensures multiset(Insert(m, rows)) == multiset(rows) + multiset{m}
    ensures |Insert(m, rows)| == |rows| + 1
  {
    if rows == [] {
    } else {
      InsertPermutes(m, rows[..|rows| - 1]);
      LastOf(rows);
    }
  }

  lemma InsertedIsOld(m: Match, rows: seq<Match>, k: nat)
    requires k < |Insert(m, rows)|
    ensures Insert(m, rows)[k] == m || Insert(m, rows)[k] in rows
  {
    InsertPermutes(m, rows);
    assert Insert(m, rows)[k] in multiset(Insert(m, rows));
  }

  lemma {:induction false} InsertSorts(m: Match, rows: seq<Match>)
    requires InDateOrder(rows)
    ensures InDateOrder(Insert(m, rows))
  {
    if rows == [] {
    } else if rows[|rows| - 1].kickoff > m.kickoff {
      var init, last := rows[..|rows| - 1], rows[|rows| - 1];
      InsertSorts(m, init);
      forall k | 0 <= k < |Insert(m, init)| ensures Insert(m, init)[k].kickoff <= last.kickoff {
        InsertedIsOld(m, init, k);
      }
    }
  }

  lemma {:induction false} SortPermutes(rows: seq<Match>)
    ensures multiset(Sort(rows)) == multiset(rows) && |Sort(rows)| == |rows|
  {
    if rows == [] {
    } else {
      var init, last := rows[..|rows| - 1], rows[|rows| - 1];
      SortPermutes(init);
      InsertPermutes(last, Sort(init));
      LastOf(rows);
      calc {
        multiset(Sort(rows));
        multiset(Insert(last, Sort(init)));
        multiset(Sort(init)) + multiset{last};
        multiset(init) + multiset{last};
        multiset(rows);
      }
    }
  }

  lemma {:induction false} SortOrders(rows: seq<Match>)
    ensures InDateOrder(Sort(rows))
  {
    if rows == [] {
    } else {
      SortOrders(rows[..|rows| - 1]);
      InsertSorts(rows[|rows| - 1], Sort(rows[..|rows| - 1]));
    }
  }

  lemma SortIs(rows: seq<Match>)
    ensures InDateOrder(Sort(rows)) && multiset(Sort(rows)) == multiset(rows) && |Sort(rows)| == |rows|
  {
    SortPermutes(rows);
    SortOrders(rows);
  }

  // ---- capping per country ----

  function Min(a: nat, b: nat): nat { if a <= b then a else b }

  function Take(rows: seq<Match>, n: nat): seq<Match> { rows[..Min(n, |rows|)] }

  /** The first two rows of a country. */
  function Capped(rows: seq<Match>, country: string): seq<Match> { Take(Filter(rows, FromCountry(country)), CAP) }

  /** Countries outside the priority list, in order of appearance. */
  function Others(rows: seq<Match>): (countries: seq<string>)
    ensures forall i, j | 0 <= i < j < |countries| :: countries[i] != countries[j]
    ensures forall k | 0 <= k < |countries| :: countries[k] !in COUNTRY_PRIORITY
  {
    if rows == [] then []
    else
      var init, last := Others(rows[..|rows| - 1]), rows[|rows| - 1].country;
      if last in COUNTRY_PRIORITY || last in init then init else init + [last]
  }

  function Collect(rows: seq<Match>, countries: seq<string>): seq<Match> {
    if countries == [] then []
    else Collect(rows, countries[..|countries| - 1]) + Capped(rows, countries[|countries| - 1])
  }

  function Countries(rows: seq<Match>): seq<string> { COUNTRY_PRIORITY + Others(rows) }

  function CappedList(rows: seq<Match>): seq<Match> { Sort(Collect(rows, Countries(rows))) }

  // ---- the selection ----

  /** Featured rows first, then the others, two per country each. */
  function Combined(fetched: seq<Match>): seq<Match> {
    CappedList(Filter(fetched, IsFeatured(true))) + CappedList(Filter(fetched, IsFeatured(false)))
  }

  function Ids(rows: seq<Match>): set<int> { set k | 0 <= k < |rows| :: rows[k].id }

  /** The fetched rows not chosen yet, in fetched order. */
  function Remaining(fetched: seq<Match>, chosen: seq<Match>): seq<Match> { Filter(fetched, NotAmong(Ids(chosen))) }

  function Select(fetched: seq<Match>, limit: nat): seq<Match> {
    var combined := Combined(fetched);
    if |combined| < limit
    then Take(Sort(combined + Take(Remaining(fetched, combined), limit - |combined|)), limit)
    else Take(combined, limit)
  }

  // ---- the loops of the endpoint ----

  method SplitFeatured(fetched: seq<Match>) returns (featured: seq<Match>, others: seq<Match>)
    ensures featured == Filter(fetched, IsFeatured(true)) && others == Filter(fetched, IsFeatured(false))
  {
    featured, others := [], [];
    assert fetched[..0] == [];
    for k := 0 to |fetched|
      invariant featured == Filter(fetched[..k], IsFeatured(true))
      invariant others == Filter(fetched[..k], IsFeatured(false))
    {
      assert fetched[..k + 1][..k] == fetched[..k];
      if fetched[k].featured {
        featured := featured + [fetched[k]];
      } else {
        others := others + [fetched[k]];
      }
    }
    assert fetched[..|fetched|] == fetched;
  }

  method CapPerCountry(rows: seq<Match>) returns (capped: seq<Match>)
    ensures capped == CappedList(rows)
  {
    capped := [];
    var countries := Countries(rows);
    assert countries[..0] == [];
    for k := 0 to |countries|
      invariant capped == Collect(rows, countries[..k])
    {
      assert countries[..k + 1][..k] == countries[..k];
      capped := capped + Capped(rows, countries[k]);
    }
    assert countries[..|countries|] == countries;
    capped := Sort(capped);
  }

  lemma IdsAppend(rows: seq<Match>, m: Match)
    ensures Ids(rows + [m]) == Ids(rows) + {m.id}
  {
    var all := rows + [m];
    forall id ensures id in Ids(all) <==> id in Ids(rows) + {m.id} {
      if id in Ids(rows) {
        var k :| 0 <= k < |rows| && rows[k].id == id;
        assert all[k].id == id;
      }
      assert all[|rows|].id == m.id;
    }
  }

  lemma OneMoreFetched(fetched: seq<Match>, k: nat, test: Test)
    requires DistinctIds(fetched) && k < |fetched|
    ensures fetched[k].id !in Ids(fetched[..k])
    ensures Ids(fetched[..k + 1]) == Ids(fetched[..k]) + {fetched[k].id}
    ensures Filter(fetched[..k + 1], test)
            == if Passes(test, fetched[k]) then Filter(fetched[..k], test) + [fetched[k]]
               else Filter(fetched[..k], test)
  {
    assert fetched[..k + 1][..k] == fetched[..k];
    assert fetched[..k + 1] == fetched[..k] + [fetched[k]];
    IdsAppend(fetched[..k], fetched[k]);
  }

  lemma {:induction false} RemainingGrows(rows: seq<Match>, k: nat, test: Test)
    requires k <= |rows|
    ensures Filter(rows[..k], test) <= Filter(rows, test)
  {
    if k < |rows| {
      RemainingGrows(rows[..|rows| - 1], k, test);
      assert rows[..|rows| - 1][..k] == rows[..k];
    } else {
      assert rows[..k] == rows;
    }
  }

  /** Append fetched rows that are not chosen yet until the limit is reached. */
  method Fill(fetched: seq<Match>, chosen: seq<Match>, limit: nat) returns (filled: seq<Match>)
    requires DistinctIds(fetched) && |chosen| < limit
    ensures filled == chosen + Take(Remaining(fetched, chosen), limit - |chosen|)
  {
    filled := chosen;
    var seen := Ids(chosen);
    assert fetched[..0] == [];
    for k := 0 to |fetched|
      invariant filled == chosen + Filter(fetched[..k], NotAmong(Ids(chosen))) && |filled| <= limit
      invariant Ids(chosen) <= seen <= Ids(chosen) + Ids(fetched[..k])
    {
      if |filled| >= limit {
        RemainingGrows(fetched, k, NotAmong(Ids(chosen)));
        return;
      }
      OneMoreFetched(fetched, k, NotAmong(Ids(chosen)));
      if fetched[k].id !in seen {
        seen := seen + {fetched[k].id};
        filled := filled + [fetched[k]];
      }
    }
    assert fetched[..|fetched|] == fetched;
  }

  method GetFeaturedMatches(fetched: seq<Match>, limit: nat) returns (odds: seq<Match>)
    requires DistinctIds(fetched)
    ensures odds == Select(fetched, limit)
  {
    var featured, others := SplitFeatured(fetched);
    var cappedFeatured := CapPerCountry(featured);
    var cappedOthers := CapPerCountry(others);
    var combined := cappedFeatured + cappedOthers;
    if |combined| < limit {
      combined := Fill(fetched, combined, limit);
      combined := Sort(combined);
    }
    odds := Take(combined, limit);
  }

  // ---- what the selection promises ----

  lemma {:induction false} OnceEach(all: seq<Match>, m: Match)
    requires DistinctIds(all)
    ensures multiset(all)[m] <= 1
  {
    if all == [] {
    } else {
      var init, last := all[..|all| - 1], all[|all| - 1];
      assert all == init + [last];
      OnceEach(init, m);
      if m == last {
        assert m !in init;
        assert m !in multiset(init);
      }
    }
  }

  lemma {:induction false} DistinctIdsByMultiset(rows: seq<Match>, all: seq<Match>)
    requires DistinctIds(all) && multiset(rows) <= multiset(all)
    ensures DistinctIds(rows)
  {
    forall i, j | 0 <= i < j < |rows| ensures rows[i].id != rows[j].id {
      var a, b := rows[i], rows[j];
      assert rows == rows[..i] + [a] + rows[i + 1..j] + [b] + rows[j + 1..];
      assert a in multiset(all) && b in multiset(all);
      if a == b {
        assert multiset(rows)[a] >= 2;
        OnceEach(all, a);
      } else {
        var m :| 0 <= m < |all| && all[m] == a;
        var n :| 0 <= n < |all| && all[n] == b;
        assert m != n;
      }
    }
  }

  lemma TakeIsPart(rows: seq<Match>, n: nat)
    ensures multiset(Take(rows, n)) <= multiset(rows)
  {
    var k := Min(n, |rows|);
    assert rows == rows[..k] + rows[k..];
  }

  /** Capping takes rows of the listed countries only, each at most as often as it is there. */
  lemma {:induction false} CollectIsPart(rows: seq<Match>, countries: seq<string>)
    requires forall i, j | 0 <= i < j < |countries| :: countries[i] != countries[j]
    ensures multiset(Collect(rows, countries)) <= multiset(Filter(rows, FromAny(countries)))
  {
    if countries == [] {
    } else {
      var init, last := countries[..|countries| - 1], countries[|countries| - 1];
      CollectIsPart(rows, init);
      TakeIsPart(Filter(rows, FromCountry(last)), CAP);
      forall m ensures multiset(Filter(rows, FromAny(countries)))[m]
                       == multiset(Filter(rows, FromAny(init)))[m] + multiset(Filter(rows, FromCountry(last)))[m]
      {
        FilterMultiplicity(rows, FromAny(countries), m);
        FilterMultiplicity(rows, FromAny(init), m);
        FilterMultiplicity(rows, FromCountry(last), m);
        assert countries == init + [last];
      }
    }
  }

  lemma FilterIsPart(rows: seq<Match>, test: Test)
    ensures multiset(Filter(rows, test)) <= multiset(rows)
  {
    forall m ensures multiset(Filter(rows, test))[m] <= multiset(rows)[m] {
      FilterMultiplicity(rows, test, m);
    }
  }

  lemma CountriesDistinct(rows: seq<Match>)
    ensures forall i, j | 0 <= i < j < |Countries(rows)| :: Countries(rows)[i] != Countries(rows)[j]
  {
    assert forall k | 0 <= k < |COUNTRY_PRIORITY| :: COUNTRY_PRIORITY[k] in COUNTRY_PRIORITY;
  }

  lemma CappedListIsPart(rows: seq<Match>)
    ensures multiset(CappedList(rows)) <= multiset(rows)
  {
    CountriesDistinct(rows);
    CollectIsPart(rows, Countries(rows));
    SortIs(Collect(rows, Countries(rows)));
    FilterIsPart(rows, FromAny(Countries(rows)));
  }

  /** The capped rows are fetched rows, none taken twice. */
  lemma CombinedIsPart(fetched: seq<Match>)
    ensures multiset(Combined(fetched)) <= multiset(fetched)
  {
    var yes, no := Filter(fetched, IsFeatured(true)), Filter(fetched, IsFeatured(false));
    CappedListIsPart(yes);
    CappedListIsPart(no);
    forall m ensures multiset(yes)[m] + multiset(no)[m] == multiset(fetched)[m] {
      FilterMultiplicity(fetched, IsFeatured(true), m);
      FilterMultiplicity(fetched, IsFeatured(false), m);
    }
  }

  lemma SameIdSameRow(fetched: seq<Match>, a: Match, b: Match)
    requires DistinctIds(fetched) && a in multiset(fetched) && b in multiset(fetched) && a.id == b.id
    ensures a == b
  {
    var i :| 0 <= i < |fetched| && fetched[i] == a;
    var j :| 0 <= j < |fetched| && fetched[j] == b;
    assert i == j;
  }

  /** Chosen and remaining rows together are the fetched ones. */
  lemma ChosenAndRemaining(fetched: seq<Match>, chosen: seq<Match>)
    requires DistinctIds(fetched) && multiset(chosen) <= multiset(fetched)
    ensures multiset(chosen) + multiset(Remaining(fetched, chosen)) == multiset(fetched)
  {
    forall m | m in multiset(chosen) ensures m.id in Ids(chosen) {
      var k :| 0 <= k < |chosen| && chosen[k] == m;
    }
    forall m ensures multiset(chosen)[m] + multiset(Remaining(fetched, chosen))[m] == multiset(fetched)[m] {
      FilterMultiplicity(fetched, NotAmong(Ids(chosen)), m);
      OnceEach(fetched, m);
      if m.id in Ids(chosen) && m in multiset(fetched) {
        var k :| 0 <= k < |chosen| && chosen[k].id == m.id;
        assert chosen[k] in multiset(chosen);
        SameIdSameRow(fetched, chosen[k], m);
        assert m in multiset(chosen);
      }
    }
  }

  lemma CombinedAndRest(fetched: seq<Match>)
    requires DistinctIds(fetched)
    ensures |Combined(fetched)| + |Remaining(fetched, Combined(fetched))| == |fetched|
  {
    var combined := Combined(fetched);
    CombinedIsPart(fetched);
    ChosenAndRemaining(fetched, combined);
    assert |multiset(combined)| + |multiset(Remaining(fetched, combined))| == |multiset(fetched)|;
  }

  /** Capped rows with some of the remaining ones are fetched rows, none twice. */
  lemma FilledIsPart(fetched: seq<Match>, n: nat)
    requires DistinctIds(fetched)
    ensures multiset(Combined(fetched) + Take(Remaining(fetched, Combined(fetched)), n)) <= multiset(fetched)
  {
    CombinedIsPart(fetched);
    ChosenAndRemaining(fetched, Combined(fetched));
    TakeIsPart(Remaining(fetched, Combined(fetched)), n);
  }

  lemma SelectionIsPart(fetched: seq<Match>, limit: nat)
    requires DistinctIds(fetched)
    ensures |Select(fetched, limit)| == Min(limit, |fetched|)
    ensures multiset(Select(fetched, limit)) <= multiset(fetched)
  {
    var combined := Combined(fetched);
    CombinedAndRest(fetched);
    if |combined| < limit {
      var filled := combined + Take(Remaining(fetched, combined), limit - |combined|);
      FilledIsPart(fetched, limit - |combined|);
      SortPermutes(filled);
      TakeIsPart(Sort(filled), limit);
    } else {
      CombinedIsPart(fetched);
      TakeIsPart(combined, limit);
    }
  }

  /** The answer has exactly min(limit, fetched) rows, all of them fetched, no id twice. */
  lemma SelectionFillsTheLimit(fetched: seq<Match>, limit: nat)
    requires DistinctIds(fetched)
    ensures |Select(fetched, limit)| == Min(limit, |fetched|)
    ensures multiset(Select(fetched, limit)) <= multiset(fetched)
    ensures DistinctIds(Select(fetched, limit))
  {
    SelectionIsPart(fetched, limit);
    DistinctIdsByMultiset(Select(fetched, limit), fetched);
  }

  // ---- variety ----

  lemma {:induction false} FilterAll(rows: seq<Match>, test: Test)
    requires forall m | m in rows :: Passes(test, m)
    ensures Filter(rows, test) == rows
  {
    if rows == [] {
    } else {
      assert rows[|rows| - 1] in rows;
      FilterAll(rows[..|rows| - 1], test);
    }
  }

  lemma {:induction false} FilterNone(rows: seq<Match>, test: Test)
    requires forall m | m in rows :: !Passes(test, m)
    ensures Filter(rows, test) == []
  {
    if rows == [] {
    } else {
      assert rows[|rows| - 1] in rows;
      FilterNone(rows[..|rows| - 1], test);
    }
  }

  lemma {:induction false} FilterPasses(rows: seq<Match>, test: Test)
    ensures forall m | m in Filter(rows, test) :: Passes(test, m) && m in rows
  {
    if rows == [] {
    } else {
      FilterPasses(rows[..|rows| - 1], test);
      assert rows == rows[..|rows| - 1] + [rows[|rows| - 1]];
    }
  }

  /** Filtering by feature and then by country is filtering by kind. */
  lemma {:induction false} FilterByKind(rows: seq<Match>, country: string, yes: bool)
    ensures Filter(Filter(rows, IsFeatured(yes)), FromCountry(country)) == Filter(rows, OfKind(country, yes))
  {
    if rows == [] {
    } else {
      var init, last := rows[..|rows| - 1], rows[|rows| - 1];
      FilterByKind(init, country, yes);
      var kept := Filter(init, IsFeatured(yes));
      assert (kept + [last])[..|kept|] == kept;
    }
  }

  lemma CappedStays(rows: seq<Match>, from: string, country: string)
    ensures Filter(Capped(rows, from), FromCountry(country)) == if from == country then Capped(rows, from) else []
  {
    FilterPasses(rows, FromCountry(from));
    forall m | m in Capped(rows, from) ensures m.country == from {
      assert m in Filter(rows, FromCountry(from));
    }
    if from == country {
      FilterAll(Capped(rows, from), FromCountry(country));
    } else {
      FilterNone(Capped(rows, from), FromCountry(country));
    }
  }

  lemma LastCountry(countries: seq<string>, country: string)
    requires countries != [] && forall i, j | 0 <= i < j < |countries| :: countries[i] != countries[j]
    ensures var init, last := countries[..|countries| - 1], countries[|countries| - 1];
            && (country in countries <==> country in init || country == last)
            && !(country in init && country == last)
  {
    var init, last := countries[..|countries| - 1], countries[|countries| - 1];
    assert countries == init + [last];
  }

  lemma {:induction false} CollectIsCapped(rows: seq<Match>, countries: seq<string>, country: string)
    requires forall i, j | 0 <= i < j < |countries| :: countries[i] != countries[j]
    ensures Filter(Collect(rows, countries), FromCountry(country))
            == if country in countries then Capped(rows, country) else []
  {
    if countries == [] {
    } else {
      var init, last := countries[..|countries| - 1], countries[|countries| - 1];
      CollectIsCapped(rows, init, country);
      FilterSplits(Collect(rows, init), Capped(rows, last), FromCountry(country));
      CappedStays(rows, last, country);
      LastCountry(countries, country);
    }
  }

  lemma {:induction false} OthersCover(rows: seq<Match>)
    ensures forall m | m in rows :: m.country in COUNTRY_PRIORITY || m.country in Others(rows)
  {
    if rows == [] {
    } else {
      OthersCover(rows[..|rows| - 1]);
      assert rows == rows[..|rows| - 1] + [rows[|rows| - 1]];
    }
  }

  lemma NoOtherCountry(rows: seq<Match>, country: string)
    requires country !in Countries(rows)
    ensures Capped(rows, country) == []
  {
    OthersCover(rows);
    FilterNone(rows, FromCountry(country));
  }

  /** Of each country the capped list holds exactly the first two rows, or all there are. */
  lemma CappedListIsCapped(rows: seq<Match>, country: string)
    ensures multiset(Filter(CappedList(rows), FromCountry(country))) == multiset(Capped(rows, country))
  {
    CountriesDistinct(rows);
    CollectIsCapped(rows, Countries(rows), country);
    if country !in Countries(rows) { NoOtherCountry(rows, country); }
    SortPermutes(Collect(rows, Countries(rows)));
    FilterPermutes(CappedList(rows), Collect(rows, Countries(rows)), FromCountry(country));
  }

  lemma {:induction false} KindIsCountry(rows: seq<Match>, country: string, yes: bool)
    requires forall m | m in rows :: m.featured == yes
    ensures Filter(rows, OfKind(country, yes)) == Filter(rows, FromCountry(country))
  {
    if rows == [] {
    } else {
      assert rows[|rows| - 1] in rows;
      KindIsCountry(rows[..|rows| - 1], country, yes);
    }
  }

  lemma CappedListKeepsKind(rows: seq<Match>, yes: bool)
    requires forall m | m in rows :: m.featured == yes
    ensures forall m | m in CappedList(rows) :: m.featured == yes
  {
    CappedListIsPart(rows);
    forall m | m in CappedList(rows) ensures m.featured == yes {
      assert m in multiset(CappedList(rows));
      assert m in multiset(rows);
    }
  }

  lemma SameSize(a: seq<Match>, b: seq<Match>)
    requires multiset(a) == multiset(b)
    ensures |a| == |b|
  {
    assert |multiset(a)| == |a| && |multiset(b)| == |b|;
  }

  /** Of each country and kind the capped rows are exactly the first two fetched ones, or all there
      are. */
  lemma CombinedIsCapped(fetched: seq<Match>, country: string, yes: bool)
    ensures multiset(Filter(Combined(fetched), OfKind(country, yes)))
            == multiset(Take(Filter(fetched, OfKind(country, yes)), CAP))
    ensures |Filter(Combined(fetched), OfKind(country, yes))| == Min(CAP, |Filter(fetched, OfKind(country, yes))|)
  {
    var a, b := CappedList(Filter(fetched, IsFeatured(true))), CappedList(Filter(fetched, IsFeatured(false)));
    FilterSplits(a, b, OfKind(country, yes));
    FilterPasses(fetched, IsFeatured(true));
    FilterPasses(fetched, IsFeatured(false));
    CappedListKeepsKind(Filter(fetched, IsFeatured(true)), true);
    CappedListKeepsKind(Filter(fetched, IsFeatured(false)), false);
    var same, other := if yes then a else b, if yes then b else a;
    FilterNone(other, OfKind(country, yes));
    KindIsCountry(same, country, yes);
    CappedListIsCapped(Filter(fetched, IsFeatured(yes)), country);
    FilterByKind(fetched, country, yes);
    SameSize(Filter(Combined(fetched), OfKind(country, yes)), Take(Filter(fetched, OfKind(country, yes)), CAP));
  }

  /** When the capped rows reach the limit, no country shows more than two featured and two other
      matches. */
  lemma SelectionIsVaried(fetched: seq<Match>, limit: nat, country: string, yes: bool)
    requires |Combined(fetched)| >= limit
    ensures |Filter(Select(fetched, limit), OfKind(country, yes))| <= CAP
  {
    var combined := Combined(fetched);
    CombinedIsCapped(fetched, country, yes);
    FilterSplits(combined[..limit], combined[limit..], OfKind(country, yes));
    assert combined == combined[..limit] + combined[limit..];
  }

  lemma SortedWithinLimit(rows: seq<Match>, limit: nat)
    requires |rows| <= limit
    ensures InDateOrder(Take(Sort(rows), limit)) && multiset(Take(Sort(rows), limit)) == multiset(rows)
  {
    SortIs(rows);
    assert Take(Sort(rows), limit) == Sort(rows);
  }

  /** Otherwise the answer is, in date order, all the capped rows and the first remaining fetched
      rows that fit. */
  lemma SelectionKeepsCapped(fetched: seq<Match>, limit: nat)
    requires DistinctIds(fetched) && |Combined(fetched)| < limit
    ensures var fill := Take(Remaining(fetched, Combined(fetched)), limit - |Combined(fetched)|);
            && InDateOrder(Select(fetched, limit))
            && multiset(Select(fetched, limit)) == multiset(Combined(fetched)) + multiset(fill)
            && fill <= Remaining(fetched, Combined(fetched))
  {
    var combined := Combined(fetched);
    var fill := Take(Remaining(fetched, combined), limit - |combined|);
    SortedWithinLimit(combined + fill, limit);
  }

  lemma {:induction false} FilterKeepsOrder(rows: seq<Match>, test: Test)
    requires InDateOrder(rows)
    ensures InDateOrder(Filter(rows, test))
  {
    if rows == [] {
    } else {
      var init, last := rows[..|rows| - 1], rows[|rows| - 1];
      FilterKeepsOrder(init, test);
      FilterPasses(init, test);
      forall k | 0 <= k < |Filter(init, test)| ensures Filter(init, test)[k].kickoff <= last.kickoff {
        assert Filter(init, test)[k] in init;
        var j :| 0 <= j < |init| && init[j] == Filter(init, test)[k];
        assert rows[j] == init[j];
      }
    }
  }

  lemma FirstAreEarliest(rows: seq<Match>, test: Test, n: nat)
    requires InDateOrder(rows)
    ensures var passing := Filter(rows, test);
            forall early, late | early in Take(passing, n) && late in passing[|Take(passing, n)|..] ::
              early.kickoff <= late.kickoff
  {
    FilterKeepsOrder(rows, test);
  }

  /** The query fetches in date order, so of each country and kind the capped rows come no later than
      any fetched row they leave out. */
  lemma CappedAreEarliest(fetched: seq<Match>, country: string, yes: bool)
    requires InDateOrder(fetched)
    ensures var kind := Filter(fetched, OfKind(country, yes));
            forall early, late | && early in Filter(Combined(fetched), OfKind(country, yes))
                                 && late in kind[|Take(kind, CAP)|..] ::
              early.kickoff <= late.kickoff
  {
    var held, kind := Filter(Combined(fetched), OfKind(country, yes)), Filter(fetched, OfKind(country, yes));
    CombinedIsCapped(fetched, country, yes);
    FirstAreEarliest(fetched, OfKind(country, yes), CAP);
    forall early | early in held ensures early in Take(kind, CAP) {
      assert early in multiset(held);
      assert early in multiset(Take(kind, CAP));
    }
  }

  /** And the rows that fill up the list are the earliest of those that remain. */
  lemma FillIsEarliest(fetched: seq<Match>, limit: nat)
    requires InDateOrder(fetched) && |Combined(fetched)| < limit
    ensures var rest := Remaining(fetched, Combined(fetched));
            var fill := Take(rest, limit - |Combined(fetched)|);
            forall early, late | early in fill && late in rest[|fill|..] :: early.kickoff <= late.kickoff
  {
    FirstAreEarliest(fetched, NotAmong(Ids(Combined(fetched))), limit - |Combined(fetched)|);
  }
}
