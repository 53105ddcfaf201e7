/** The Python string operations the settlement and scraper code relies on, over ASCII text. */
module PyText {
  import opened Common

  predicate IsSpace(c: char) {
    c == ' ' || '\U{1C}' <= c <= '\U{1F}' || c == '\t' || c == '\n' || c == '\r' || c == '\U{0B}' || c == '\U{0C}'
  }

  predicate Blank(w: string) { forall i | 0 <= i < |w| :: IsSpace(w[i]) }

  predicate IsDigit(c: char) { '0' <= c <= '9' }

  predicate AllDigits(s: string) { forall i | 0 <= i < |s| :: IsDigit(s[i]) }

  function LStrip(s: string): string {
    if s != [] && IsSpace(s[0]) then LStrip(s[1..]) else s
  }

  function RStrip(s: string): string {
    if s != [] && IsSpace(s[|s| - 1]) then RStrip(s[..|s| - 1]) else s
  }

  /** str.strip() */
  function Strip(s: string): string { RStrip(LStrip(s)) }

  /** str.lower() on ASCII. */
  function Lower(s: string): string {
    seq(|s|, i requires 0 <= i < |s| => if 'A' <= s[i] <= 'Z' then s[i] - 'A' + 'a' else s[i])
  }

  /** Index of the first occurrence of c, or |s| when there is none. */
  function IndexOf(s: string, c: char): (k: nat)
    ensures k <= |s|
  {
    if s == [] then 0 else if s[0] == c then 0 else 1 + IndexOf(s[1..], c)
  }

  lemma {:induction false} IndexOfIsFirst(s: string, c: char)
    ensures IndexOf(s, c) < |s| ==> s[IndexOf(s, c)] == c
    ensures c !in s[..IndexOf(s, c)]
    ensures IndexOf(s, c) == |s| <==> c !in s
  {
    if s == [] {
    } else if s[0] != c {
      IndexOfIsFirst(s[1..], c);
      assert s == [s[0]] + s[1..];
      assert s[..IndexOf(s, c)] == [s[0]] + s[1..][..IndexOf(s[1..], c)];
    }
  }

  /** str.split(c) for a one-character separator. */
  function Split(s: string, c: char): (parts: seq<string>)
    ensures |parts| >= 1
  {
    var k := IndexOf(s, c);
    if k == |s| then [s] else [s[..k]] + Split(s[k + 1..], c)
  }

  /** The substring test of Python's `in`. */
  predicate Contains(s: string, sub: string) {
    sub <= s || (s != [] && Contains(s[1..], sub))
  }

  /** str.split(sep) for a longer separator, leftmost and non-overlapping. */
  function SplitOn(s: string, sep: string, start: string := []): seq<string>
    requires sep != []
    decreases |s|
  {
    if s == [] then [start]
    else if sep <= s then [start] + SplitOn(s[|sep|..], sep)
    else SplitOn(s[1..], sep, start + [s[0]])
  }

  /** The value of a digit string read left to right. */
  function Digits(s: string): nat
    requires AllDigits(s)
  {
    if s == [] then 0 else Digits(s[..|s| - 1]) * 10 + (s[|s| - 1] as int - '0' as int)
  }

  /** int(text): surrounding blanks, one optional sign, then at least one digit. */
  function PyInt(s: string): Option<int> {
    var t := Strip(s);
    var body := if t != [] && (t[0] == '+' || t[0] == '-') then t[1..] else t;
    if body == [] || !AllDigits(body) then None
    else Some(if t[0] == '-' then -(Digits(body) as int) else Digits(body) as int)
  }

  /** SQL LIKE with its two wildcards. */
  predicate Like(pattern: string, s: string)
    decreases |pattern| + |s|
  {
    if pattern == [] then s == []
    else if pattern[0] == '%' then Like(pattern[1..], s) || (s != [] && Like(pattern, s[1..]))
    else s != [] && (pattern[0] == '_' || pattern[0] == s[0]) && Like(pattern[1..], s[1..])
  }

  // ---- stripping ----

  lemma LStripBlank(w: string, s: string)
    requires Blank(w)
    ensures LStrip(w + s) == LStrip(s)
  {
    if w == [] {
      assert w + s == s;
    } else {
      assert (w + s)[1..] == w[1..] + s;
      LStripBlank(w[1..], s);
    }
  }

  lemma RStripBlank(s: string, w: string)
    requires Blank(w)
    ensures RStrip(s + w) == RStrip(s)
  {
    if w == [] {
      assert s + w == s;
    } else {
      assert (s + w)[..|s + w| - 1] == s + w[..|w| - 1];
      RStripBlank(s, w[..|w| - 1]);
    }
  }

  lemma LStripShape(s: string) returns (w: string)
    ensures s == w + LStrip(s) && Blank(w)
  {
    if s != [] && IsSpace(s[0]) {
      var rest := LStripShape(s[1..]);
      w := [s[0]] + rest;
    } else {
      w := [];
    }
  }

  lemma RStripShape(s: string) returns (w: string)
    ensures s == RStrip(s) + w && Blank(w)
  {
    if s != [] && IsSpace(s[|s| - 1]) {
      var rest := RStripShape(s[..|s| - 1]);
      w := rest + [s[|s| - 1]];
    } else {
      w := [];
    }
  }

  /** A string of blanks strips to nothing from either side. */
  lemma BlankStrips(w: string)
    requires Blank(w)
    ensures LStrip(w) == [] && RStrip(w) == []
  {
    LStripBlank(w, []);
    RStripBlank([], w);
    assert w + [] == w && [] + w == w;
  }

  /** Trailing blanks stay trailing through LStrip, unless everything was blank. */
  lemma LStripAppend(s: string, w: string)
    requires Blank(w)
    ensures LStrip(s + w) == if LStrip(s) == [] then LStrip(w) else LStrip(s) + w
  {
    if s == [] {
      assert s + w == w;
    } else if IsSpace(s[0]) {
      assert (s + w)[1..] == s[1..] + w;
      LStripAppend(s[1..], w);
    } else {
      assert (s + w)[0] == s[0];
    }
  }

  /** Blanks added at either end do not change what strip() returns. */
  lemma StripIgnoresBlanks(v: string, s: string, w: string)
    requires Blank(v)
    requires Blank(w)
    ensures Strip(v + s + w) == Strip(s)
  {
    assert v + s + w == v + (s + w);
    LStripBlank(v, s + w);
    LStripAppend(s, w);
    if LStrip(s) == [] {
      BlankStrips(w);
    } else {
      RStripBlank(LStrip(s), w);
    }
  }

  /** s is its stripped core with blanks on both sides. */
  lemma StripShape(s: string) returns (v: string, w: string)
    ensures s == v + Strip(s) + w
    ensures Blank(v)
    ensures Blank(w)
  {
    v := LStripShape(s);
    w := RStripShape(LStrip(s));
    assert v + (Strip(s) + w) == v + Strip(s) + w;
  }

  lemma PyIntIgnoresBlanks(v: string, s: string, w: string)
    requires Blank(v)
    requires Blank(w)
    ensures PyInt(v + s + w) == PyInt(s)
  {
    StripIgnoresBlanks(v, s, w);
  }

  /** A text without blanks is its own strip(). */
  lemma StripFixed(s: string)
    requires forall i | 0 <= i < |s| :: !IsSpace(s[i])
    ensures Strip(s) == s
  {
    assert LStrip(s) == s;
  }

  // ---- splitting ----

  /** c occurs in s exactly once, at k. */
  predicate IsOnlyAt(s: string, c: char, k: int) {
    0 <= k < |s| && s[k] == c && c !in s[..k] && c !in s[k + 1..]
  }

  lemma OnlyAtIsFirst(s: string, c: char, k: int)
    requires IsOnlyAt(s, c, k)
    ensures k == IndexOf(s, c)
  {
    IndexOfIsFirst(s, c);
    assert s == s[..k] + [c] + s[k + 1..];
  }

  /** A separator that occurs once splits the text into the two halves around it. */
  lemma SplitAtOnly(s: string, c: char, k: int)
    requires IsOnlyAt(s, c, k)
    ensures Split(s, c) == [s[..k], s[k + 1..]]
  {
    OnlyAtIsFirst(s, c, k);
    IndexOfIsFirst(s[k + 1..], c);
    assert Split(s[k + 1..], c) == [s[k + 1..]];
  }

  /** A split in exactly two comes from a separator that occurs once. */
  lemma SplitInTwo(s: string, c: char) returns (k: int)
    requires |Split(s, c)| == 2
    ensures IsOnlyAt(s, c, k)
  {
    k := IndexOf(s, c);
    var rest := s[k + 1..];
    IndexOfIsFirst(s, c);
    IndexOfIsFirst(rest, c);
    assert Split(s, c) == [s[..k]] + Split(rest, c);
  }
}
