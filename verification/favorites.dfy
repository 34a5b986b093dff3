/**
 * The `favoriteMovies` array of a user document and the two MongoDB array
 * operators the favorite handlers send to the store: `$push` appends one
 * element, `$pull` removes every element equal to the given value.
 */
module Favorites {
  /** A movie as named in the request path; it is never looked up in the movie collection. */
  type MovieId = string

  /** Number of occurrences of `m` in `s`. */
  function Count(s: seq<MovieId>, m: MovieId): (n: nat)
    ensures n <= |s|
    ensures n == 0 <==> m !in s
  {
    if s == [] then 0
    else (if s[0] == m then 1 else 0) + Count(s[1..], m)
  }

  /** `$pull`: `s` with every element equal to `m` removed. */
  function Pull(s: seq<MovieId>, m: MovieId): (r: seq<MovieId>)
    ensures m !in r
    ensures |r| == |s| - Count(s, m)
    ensures forall x :: x in r ==> x in s
  {
    if s == [] then []
    else if s[0] == m then Pull(s[1..], m)
    else [s[0]] + Pull(s[1..], m)
  }

  /** `r` is what is left of `s` after deleting some of its elements, the rest keeping their order. */
  predicate IsSubsequence(r: seq<MovieId>, s: seq<MovieId>)
    decreases |r| + |s|
  {
    if r == [] then true
    else if s == [] then false
    else if r[0] == s[0] then IsSubsequence(r[1..], s[1..])
    else IsSubsequence(r, s[1..])
  }

  /** `$push` adds exactly one occurrence of `m` and leaves every other count alone. */
  lemma {:induction false} PushCount(s: seq<MovieId>, m: MovieId, x: MovieId)
    ensures Count(s + [m], x) == Count(s, x) + (if x == m then 1 else 0)
  {
    if s != [] {
      assert (s + [m])[1..] == s[1..] + [m];
      PushCount(s[1..], m, x);
    }
  }

  /** `$pull` takes the count of `m` to zero and leaves every other count alone. */
  lemma {:induction false} PullCount(s: seq<MovieId>, m: MovieId, x: MovieId)
    ensures Count(Pull(s, m), x) == if x == m then 0 else Count(s, x)
  {
    if s != [] {
      PullCount(s[1..], m, x);
      if s[0] != m {
        assert ([s[0]] + Pull(s[1..], m))[1..] == Pull(s[1..], m);
      }
    }
  }

  /** Pulling a value the list does not hold leaves the list as it was. */
  lemma {:induction false} PullAbsent(s: seq<MovieId>, m: MovieId)
    requires m !in s
    ensures Pull(s, m) == s
  {
    if s != [] {
      PullAbsent(s[1..], m);
      assert s == [s[0]] + s[1..];
    }
  }

  /** A second `$pull` of the same value changes nothing. */
  lemma {:induction false} PullIdempotent(s: seq<MovieId>, m: MovieId)
    ensures Pull(Pull(s, m), m) == Pull(s, m)
  {
    PullAbsent(Pull(s, m), m);
  }

  /** `$pull` acts on each part of a list separately, so it keeps the order of what it leaves. */
  lemma {:induction false} PullConcat(a: seq<MovieId>, b: seq<MovieId>, m: MovieId)
    ensures Pull(a + b, m) == Pull(a, m) + Pull(b, m)
  {
    if a == [] {
      assert a + b == b;
    } else {
      assert (a + b)[1..] == a[1..] + b;
      PullConcat(a[1..], b, m);
    }
  }

  /** What `$pull` leaves is a subsequence of the original list. */
  lemma {:induction false} PullIsSubsequence(s: seq<MovieId>, m: MovieId)
    ensures IsSubsequence(Pull(s, m), s)
  {
    if s != [] {
      PullIsSubsequence(s[1..], m);
      if s[0] != m {
        assert ([s[0]] + Pull(s[1..], m))[1..] == Pull(s[1..], m);
      }
    }
  }

  /** Adding a favorite and then removing it is the same as removing it outright. */
  lemma AddThenRemove(s: seq<MovieId>, m: MovieId)
    ensures Pull(s + [m], m) == Pull(s, m)
  {
    PullConcat(s, [m], m);
    assert Pull([m], m) == [];
  }
}
