/** Merging the rows scraped off one page: one row per match, the most complete one. */
module RowMerge {
  import opened Common
  import opened PyText

  /** The text cells of a scraped row. */
  datatype Scraped = Scraped(
    dateStr: Option<string>, timeStr: Option<string>, home: Option<string>, away: Option<string>,
    result: Option<string>, odd1: Option<string>, oddX: Option<string>, odd2: Option<string>, bets: Option<string>)

  datatype Key = Key(date: string, time: string, home: string, away: string)

  function OrEmpty(cell: Option<string>): string { if cell.Some? then cell.value else "" }

  /** _row_key: blanks are trimmed, team names compared without case. */
  function RowKey(r: Scraped): Key {
    Key(Strip(OrEmpty(r.dateStr)), Strip(OrEmpty(r.timeStr)), Lower(Strip(OrEmpty(r.home))),
        Lower(Strip(OrEmpty(r.away))))
  }

  function Filled(cell: Option<string>): nat { if OrEmpty(cell) != "" then 1 else 0 }

  /** _row_quality: the number of filled cells. */
  function Quality(r: Scraped): nat {
    Filled(r.dateStr) + Filled(r.timeStr) + Filled(r.home) + Filled(r.away) + Filled(r.result)
    + Filled(r.odd1) + Filled(r.oddX) + Filled(r.odd2) + Filled(r.bets)
  }

  predicate Named(r: Scraped) { OrEmpty(r.home) != "" || OrEmpty(r.away) != "" }

  /** What the merge looks at in a row. */
  datatype Tag = Tag(named: bool, key: Key, quality: nat)

  function TagOf(r: Scraped): Tag { Tag(Named(r), RowKey(r), Quality(r)) }

  function Tags(candidates: seq<Scraped>): (tags: seq<Tag>)
    ensures |tags| == |candidates|
    ensures forall i | 0 <= i < |candidates| :: tags[i] == TagOf(candidates[i])
  {
    seq(|candidates|, i requires 0 <= i < |candidates| => TagOf(candidates[i]))
  }

  /** Among the first n rows, the one at i is the first most complete of its match. */
  ghost predicate FirstBest(tags: seq<Tag>, n: nat, i: nat) {
    && i < n <= |tags| && tags[i].named
    && (forall j | 0 <= j < n && tags[j].named && tags[j].key == tags[i].key ::
          tags[j].quality <= tags[i].quality && (j < i ==> tags[j].quality < tags[i].quality))
  }

  lemma BestStays(tags: seq<Tag>, n: nat, i: nat)
    requires n < |tags| && FirstBest(tags, n, i)
    requires tags[n].named && tags[n].key == tags[i].key ==> tags[n].quality <= tags[i].quality
    ensures FirstBest(tags, n + 1, i)
  {
  }

  /** The positions kept so far, by key. */
  ghost predicate Picks(tags: seq<Tag>, n: nat, from: map<Key, nat>) {
    && n <= |tags|
    && (forall j | 0 <= j < n && tags[j].named :: tags[j].key in from)
    && (forall key | key in from :: FirstBest(tags, n, from[key]) && tags[from[key]].key == key)
  }

  /** The row at n is unnamed, or no better than the one kept for its match. */
  lemma PickKept(tags: seq<Tag>, n: nat, from: map<Key, nat>)
    requires n < |tags| && Picks(tags, n, from)
    requires tags[n].named ==> tags[n].key in from && tags[n].quality <= tags[from[tags[n].key]].quality
    ensures Picks(tags, n + 1, from)
  {
    forall key | key in from ensures FirstBest(tags, n + 1, from[key]) {
      BestStays(tags, n, from[key]);
    }
  }

  /** The row at n is the first of its match, or better than the one kept so far. */
  lemma PickReplaced(tags: seq<Tag>, n: nat, from: map<Key, nat>)
    requires n < |tags| && Picks(tags, n, from) && tags[n].named
    requires tags[n].key in from ==> tags[n].quality > tags[from[tags[n].key]].quality
    ensures Picks(tags, n + 1, from[tags[n].key := n])
  {
    forall key | key in from && key != tags[n].key ensures FirstBest(tags, n + 1, from[key]) {
      BestStays(tags, n, from[key]);
    }
  }

  /** What one more row does to the positions kept. */
  function KeepOneMore(tags: seq<Tag>, n: nat, from: map<Key, nat>): map<Key, nat>
    requires n < |tags| && forall key | key in from :: from[key] < n
  {
    var tag := tags[n];
    if tag.named && (tag.key !in from || tag.quality > tags[from[tag.key]].quality) then from[tag.key := n] else from
  }

  lemma KeepOneMoreIsBest(tags: seq<Tag>, n: nat, from: map<Key, nat>)
    requires n < |tags| && Picks(tags, n, from)
    ensures Picks(tags, n + 1, KeepOneMore(tags, n, from))
  {
    var tag := tags[n];
    if tag.named && (tag.key !in from || tag.quality > tags[from[tag.key]].quality) {
      PickReplaced(tags, n, from);
    } else {
      PickKept(tags, n, from);
    }
  }

  /** Positions of the rows kept after n rows. */
  function Kept(tags: seq<Tag>, n: nat): (from: map<Key, nat>)
    requires n <= |tags|
    ensures forall key | key in from :: from[key] < n
  {
    if n == 0 then map[] else KeepOneMore(tags, n - 1, Kept(tags, n - 1))
  }

  lemma {:induction false} KeptAreFirstBest(tags: seq<Tag>, n: nat)
    requires n <= |tags|
    ensures Picks(tags, n, Kept(tags, n))
  {
    if n == 0 {
    } else {
      var from := Kept(tags, n - 1);
      KeptAreFirstBest(tags, n - 1);
      KeepOneMoreIsBest(tags, n - 1, from);
    }
  }

  /** The rows at the given positions. */
  function RowsAt(candidates: seq<Scraped>, from: map<Key, nat>): map<Key, Scraped>
    requires forall key | key in from :: from[key] < |candidates|
  {
    map key | key in from :: candidates[from[key]]
  }

  lemma RowsAtUpdate(candidates: seq<Scraped>, from: map<Key, nat>, key: Key, n: nat)
    requires n < |candidates| && forall key | key in from :: from[key] < |candidates|
    ensures RowsAt(candidates, from[key := n]) == RowsAt(candidates, from)[key := candidates[n]]
  {
  }

  /** What one more row does to the rows kept. */
  function Merge(rows: map<Key, Scraped>, candidate: Scraped, tag: Tag): map<Key, Scraped> {
    if tag.named && (tag.key !in rows || tag.quality > TagOf(rows[tag.key]).quality)
    then rows[tag.key := candidate]
    else rows
  }

  lemma MergeNext(candidates: seq<Scraped>, tags: seq<Tag>, n: nat)
    requires n < |tags| == |candidates| && forall i | 0 <= i < |tags| :: tags[i] == TagOf(candidates[i])
    ensures RowsAt(candidates, Kept(tags, n + 1)) == Merge(RowsAt(candidates, Kept(tags, n)), candidates[n], tags[n])
  {
    var from, key := Kept(tags, n), tags[n].key;
    if tags[n].named && (key !in from || tags[n].quality > tags[from[key]].quality) {
      RowsAtUpdate(candidates, from, key, n);
    }
  }

  /** Every named match of the page ends up with exactly its first most complete row. */
  method MergeRows(candidates: seq<Scraped>) returns (rows: map<Key, Scraped>)
    ensures var from := Kept(Tags(candidates), |candidates|);
            rows == RowsAt(candidates, from) && Picks(Tags(candidates), |candidates|, from)
  {
    rows := map[];
    ghost var tags := Tags(candidates);
    for n := 0 to |candidates|
      invariant rows == RowsAt(candidates, Kept(tags, n))
    {
      MergeNext(candidates, tags, n);
      var candidate := candidates[n];
      var tag := TagOf(candidate);
      if !tag.named {
        continue;
      }
      if tag.key !in rows || tag.quality > TagOf(rows[tag.key]).quality {
        rows := rows[tag.key := candidate];
      }
    }
    KeptAreFirstBest(tags, |candidates|);
  }
}
