/**
 * `sort_render_token_stream`: tokens are ordered by technique, then by mesh batch,
 * then by material, so that state changes between consecutive draws are few.
 * The comparator is the lambda handed to `std::sort`; the sort itself is modelled
 * as an insertion sort, whose result is one of the orders `std::sort` may leave.
 */
module TokenSort {
  import opened Scene
  import opened RenderTokens

  /** The comparator: lexicographic on (technique, batch index, material), pointers by address. */
  predicate Less(a: RenderToken, b: RenderToken)
  {
    if a.technique == b.technique then
      if a.buffer.batchIndex == b.buffer.batchIndex then a.material < b.material
      else a.buffer.batchIndex < b.buffer.batchIndex
    else a.technique < b.technique
  }

  /** The sort key of a token. */
  function Key(t: RenderToken): (nat, nat, nat)
  {
    (t.technique, t.buffer.batchIndex, t.material)
  }

  /**
   * The comparator is a strict weak order, as `std::sort` requires: irreflexive,
   * transitive, and two tokens are unordered exactly when their keys are equal.
   */
  lemma LessIsStrictWeakOrder(a: RenderToken, b: RenderToken, c: RenderToken)
    ensures !Less(a, a)
    ensures Less(a, b) ==> !Less(b, a)
    ensures Less(a, b) && Less(b, c) ==> Less(a, c)
    ensures !Less(a, b) && !Less(b, a) <==> Key(a) == Key(b)
    ensures Less(a, b) || Less(b, a) || Key(a) == Key(b)
  {
  }

  /** No token is ordered before one that precedes it. */
  predicate Sorted(s: seq<RenderToken>)
  {
    forall i, j :: 0 <= i < j < |s| ==> !Less(s[j], s[i])
  }

  /** `t` inserted into `s` after every token not ordered after it. */
  function Insert(s: seq<RenderToken>, t: RenderToken): seq<RenderToken>
  {
    if s == [] then [t]
    else if Less(t, s[0]) then [t] + s
    else [s[0]] + Insert(s[1..], t)
  }

  /** Inserting adds exactly `t`: one more token, the same tokens besides it. */
  lemma {:induction false} InsertAddsOne(s: seq<RenderToken>, t: RenderToken)
    ensures |Insert(s, t)| == |s| + 1 && multiset(Insert(s, t)) == multiset(s) + multiset{t}
  {
    if s != [] && !Less(t, s[0]) {
      InsertAddsOne(s[1..], t);
      assert s == [s[0]] + s[1..];
    }
  }

  /** Every token of a sorted stream is unordered before its first one. */
  lemma SortedHead(s: seq<RenderToken>)
    requires Sorted(s) && s != []
    ensures forall x :: x in multiset(s) ==> !Less(x, s[0])
  {
    forall x | x in multiset(s)
      ensures !Less(x, s[0])
    {
      var j :| 0 <= j < |s| && s[j] == x;
      if j == 0 {
        LessIsStrictWeakOrder(x, x, x);
      }
    }
  }

  /** A token followed by a sorted stream none of whose tokens is ordered before it. */
  lemma SortedCons(a: RenderToken, r: seq<RenderToken>)
    requires Sorted(r) && forall x :: x in multiset(r) ==> !Less(x, a)
    ensures Sorted([a] + r)
  {
    forall i, j | 0 <= i < j < |[a] + r|
      ensures !Less(([a] + r)[j], ([a] + r)[i])
    {
      assert ([a] + r)[j] == r[j - 1] && r[j - 1] in multiset(r);
      if i > 0 {
        assert ([a] + r)[i] == r[i - 1];
      }
    }
  }

  /** Inserting into a sorted stream keeps it sorted. */
  lemma {:induction false} InsertSorted(s: seq<RenderToken>, t: RenderToken)
    requires Sorted(s)
    ensures Sorted(Insert(s, t))
  {
    if s == [] {
    } else if Less(t, s[0]) {
      SortedHead(s);
      LessIsStrictWeakOrder(t, s[0], t);
      forall x | x in multiset(s)
        ensures !Less(x, t)
      {
        LessIsStrictWeakOrder(x, t, s[0]);
      }
      SortedCons(t, s);
    } else {
      var tail := s[1..];
      assert Sorted(tail) by {
        forall i, j | 0 <= i < j < |tail|
          ensures !Less(tail[j], tail[i])
        {
          assert tail[j] == s[j + 1] && tail[i] == s[i + 1];
        }
      }
      InsertSorted(tail, t);
      InsertAddsOne(tail, t);
      SortedHead(s);
      assert s == [s[0]] + tail;
      assert multiset(s) == multiset{s[0]} + multiset(tail);
      SortedCons(s[0], Insert(tail, t));
    }
  }

  /** The insertion sort of `s`. */
  function SortedTokens(s: seq<RenderToken>): seq<RenderToken>
  {
    if s == [] then [] else Insert(SortedTokens(s[..|s| - 1]), s[|s| - 1])
  }

  /** The insertion sort leaves a sorted permutation of its input. */
  lemma {:induction false} SortedTokensSorted(s: seq<RenderToken>)
    ensures Sorted(SortedTokens(s)) && multiset(SortedTokens(s)) == multiset(s) && |SortedTokens(s)| == |s|
  {
    if s != [] {
      SortedTokensSorted(s[..|s| - 1]);
      InsertSorted(SortedTokens(s[..|s| - 1]), s[|s| - 1]);
      InsertAddsOne(SortedTokens(s[..|s| - 1]), s[|s| - 1]);
      assert s == s[..|s| - 1] + [s[|s| - 1]];
    }
  }

  /**
   * `sort_render_token_stream(tokens)`: the stream is reordered so that no token
   * is ordered before one preceding it; `SortedTokensSorted` shows every token is kept.
   */
  method SortRenderTokenStream(tokens: seq<RenderToken>) returns (r: seq<RenderToken>)
    ensures r == SortedTokens(tokens)
    ensures Sorted(r) && |r| == |tokens|
  {
    r := SortedTokens(tokens);
    SortedTokensSorted(tokens);
  }

  /** In a sorted stream the keys never decrease. */
  lemma SortedKeysNonDecreasing(s: seq<RenderToken>, i: nat, j: nat)
    requires Sorted(s) && i < j < |s|
    ensures Key(s[i]).0 <= Key(s[j]).0
    ensures Key(s[i]).0 == Key(s[j]).0 ==> Key(s[i]).1 <= Key(s[j]).1
    ensures Key(s[i]).0 == Key(s[j]).0 && Key(s[i]).1 == Key(s[j]).1 ==> Key(s[i]).2 <= Key(s[j]).2
  {
  }
}
