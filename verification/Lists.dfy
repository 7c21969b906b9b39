/** Node colours, with the meanings of `dag.h`: in a traversal untouched, on the
    stack, visited; in scheduling up to date, ready, waiting. */
module Colours {
  datatype Colour = White | Grey | Black

  ghost predicate GreysFirst<N>(colour: map<N, Colour>, list: seq<N>) {
    && (forall u | u in list :: u in colour)
    && forall i, j | 0 <= i < j < |list| && colour[list[i]] == Black :: colour[list[j]] == Black
  }
}

/** Sequences without duplicates. */
module Lists {
  ghost predicate NoDup<T>(s: seq<T>) {
    forall i, j | 0 <= i < j < |s| :: s[i] != s[j]
  }

  ghost function Elems<T>(s: seq<T>): set<T> {
    set x | x in s
  }

  ghost predicate Before<T>(s: seq<T>, x: T, y: T) {
    exists i, j :: 0 <= i < j < |s| && s[i] == x && s[j] == y
  }

  /** `std::list::remove`. */
  function Remove<T(==)>(s: seq<T>, x: T): seq<T> {
    if s == [] then []
    else if s[0] == x then Remove(s[1..], x)
    else [s[0]] + Remove(s[1..], x)
  }

  lemma {:induction false} RemoveSplits<T>(s: seq<T>, x: T)
    requires NoDup(s)
    ensures x !in s ==> Remove(s, x) == s
    ensures forall i | 0 <= i < |s| && s[i] == x :: Remove(s, x) == s[..i] + s[i + 1..]
  {
    if s != [] {
      RemoveSplits(s[1..], x);
      assert s == [s[0]] + s[1..];
      forall i | 0 <= i < |s| && s[i] == x
        ensures Remove(s, x) == s[..i] + s[i + 1..]
      {
        if i == 0 {
          assert x !in s[1..];
          assert s[..0] + s[1..] == s[1..];
        } else {
          assert s[1..][i - 1] == x;
          assert s[..i] + s[i + 1..] == [s[0]] + (s[1..][..i - 1] + s[1..][i..]);
        }
      }
    }
  }

  lemma RemoveFacts<T>(s: seq<T>, x: T)
    requires NoDup(s)
    ensures NoDup(Remove(s, x))
    ensures forall y :: y in Remove(s, x) <==> y in s && y != x
  {
    RemoveSplits(s, x);
    if x in s {
      var i :| 0 <= i < |s| && s[i] == x;
      var r := s[..i] + s[i + 1..];
      forall y | y in s && y != x ensures y in r {
        var j :| 0 <= j < |s| && s[j] == y;
        assert if j < i then r[j] == y else r[j - 1] == y;
      }
    }
  }

  function Reversed<T>(s: seq<T>): seq<T> {
    if s == [] then [] else [s[|s| - 1]] + Reversed(s[..|s| - 1])
  }

  lemma {:induction false} ReversedFacts<T>(s: seq<T>)
    ensures forall x :: x in Reversed(s) <==> x in s
    ensures NoDup(s) ==> NoDup(Reversed(s))
  {
    if s != [] {
      var front := s[..|s| - 1];
      ReversedFacts(front);
      assert s == front + [s[|s| - 1]];
      assert NoDup(s) ==> s[|s| - 1] !in front;
    }
  }

  /** Concatenation may be regrouped. */
  lemma Regroup<T>(a: seq<T>, b: seq<T>, c: seq<T>)
    ensures (a + b) + c == a + (b + c)
  {
  }

  lemma Regroup4<T>(a: seq<T>, b: seq<T>, c: seq<T>, d: seq<T>)
    ensures a + ((b + c) + d) == ((a + b) + c) + d
  {
  }

  lemma Trivial<T>(a: seq<T>)
    ensures [] + a == a && a + [] == a
  {
  }
}
