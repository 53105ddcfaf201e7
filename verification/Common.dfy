/** Small shared vocabulary: optional values and endpoint replies. */
module Common {

  datatype Option<+T> = None | Some(value: T)

  /** What an endpoint hands back: a payload, or an HTTP error with its status code. */
  datatype Reply<+T> = Ok(payload: T) | HttpError(code: nat)

  ghost predicate Distinct<T(!new)>(s: seq<T>) {
    forall i, j | 0 <= i < j < |s| :: s[i] != s[j]
  }

  /** The second sequence lists the elements of the first in some order. */
  ghost predicate Permutes<T(!new)>(s: seq<T>, t: seq<T>) {
    multiset(s) == multiset(t)
  }

  lemma PermutesKeepsMembers<T(!new)>(s: seq<T>, t: seq<T>, x: T)
    requires Permutes(s, t)
    ensures x in s <==> x in t
  {
    assert x in s <==> x in multiset(s);
    assert x in t <==> x in multiset(t);
  }
}
