/**
 * Sequence operations the source performs through JavaScript built-ins:
 * `indexOf`, `filter`, `new Set(...)` spread back into an array, and `join`.
 */
module SeqUtil {

  predicate NoDuplicates<T(==)>(s: seq<T>) {
    forall i, j :: 0 <= i < j < |s| ==> s[i] != s[j]
  }

  /** `Array.prototype.indexOf`: the first position of `x` in `s`, or -1. */
  function IndexOf<T(==)>(s: seq<T>, x: T): (i: int)
    ensures -1 <= i < |s|
    ensures i == -1 <==> x !in s
    ensures 0 <= i ==> s[i] == x && x !in s[..i]
  {
    if |s| == 0 then -1
    else if s[0] == x then 0
    else
      var j := IndexOf(s[1..], x);
      if j < 0 then -1
      else
        assert s[..j + 1] == [s[0]] + s[1..][..j];
        j + 1
  }

  /** Appending an element does not move the first occurrence of anything already present. */
  lemma {:induction false} IndexOfExtend<T>(p: seq<T>, x: T)
    ensures forall y :: y in p ==> IndexOf(p + [x], y) == IndexOf(p, y)
    ensures x !in p ==> IndexOf(p + [x], x) == |p|
  {
    forall y | y in p ensures IndexOf(p + [x], y) == IndexOf(p, y) {
      var i := IndexOf(p, y);
      assert (p + [x])[..i] == p[..i];
    }
    if x !in p {
      assert (p + [x])[..|p|] == p;
    }
  }

  /** `sub` can be obtained from `s` by deleting elements (relative order is kept). */
  predicate IsSubsequence<T(==)>(sub: seq<T>, s: seq<T>)
    decreases |s|
  {
    if |sub| == 0 then true
    else if |s| == 0 then false
    else if sub[0] == s[0] then IsSubsequence(sub[1..], s[1..])
    else IsSubsequence(sub, s[1..])
  }

  /** A subsequence of the tail is a subsequence of the whole. */
  lemma {:induction false} SubsequenceOfCons<T>(sub: seq<T>, x: T, t: seq<T>)
    requires IsSubsequence(sub, t)
    ensures IsSubsequence(sub, [x] + t)
    decreases |t|, 1
  {
    assert ([x] + t)[1..] == t;
    if |sub| > 0 && sub[0] == x {
      SubsequenceDropFirst(sub, t);
    }
  }

  /** Dropping the first element of a subsequence keeps it a subsequence. */
  lemma {:induction false} SubsequenceDropFirst<T>(sub: seq<T>, t: seq<T>)
    requires |sub| > 0 && IsSubsequence(sub, t)
    ensures IsSubsequence(sub[1..], t)
    decreases |t|, 0
  {
    if sub[0] == t[0] {
      SubsequenceOfCons(sub[1..], t[0], t[1..]);
    } else {
      SubsequenceDropFirst(sub, t[1..]);
      SubsequenceOfCons(sub[1..], t[0], t[1..]);
    }
    assert t == [t[0]] + t[1..];
  }

  /** `s.filter(y => y !== x)`. */
  function Without<T(==,!new)>(s: seq<T>, x: T): (r: seq<T>)
    ensures x !in r
    ensures forall y :: y in r <==> y in s && y != x
    ensures x !in s ==> r == s
    ensures IsSubsequence(r, s)
  {
    if |s| == 0 then []
    else if s[0] == x then Without(s[1..], x)
    else [s[0]] + Without(s[1..], x)
  }

  /** Dropping one value keeps the order in which the other values first occur. */
  lemma {:induction false} WithoutKeepsFirstOccurrenceOrder<T(!new)>(s: seq<T>, x: T, a: T, b: T)
    requires a != x && b != x && a in s && b in s
    ensures IndexOf(Without(s, x), a) < IndexOf(Without(s, x), b) <==> IndexOf(s, a) < IndexOf(s, b)
  {
    if s[0] != a && s[0] != b {
      WithoutKeepsFirstOccurrenceOrder(s[1..], x, a, b);
    }
  }

  /**
   * `q.filter(set.has.bind(set))` where `set` holds the elements of `members`:
   * the elements of `q` that are members, in their original order.
   */
  function KeepMembers<T(==,!new)>(q: seq<T>, members: seq<T>): (r: seq<T>)
    ensures forall x :: x in r <==> x in q && x in members
    ensures forall x :: multiset(r)[x] == if x in members then multiset(q)[x] else 0
    ensures |r| <= |q|
    ensures IsSubsequence(r, q)
  {
    if |q| == 0 then []
    else
      var rest := KeepMembers(q[1..], members);
      assert q == [q[0]] + q[1..];
      assert multiset(q) == multiset{q[0]} + multiset(q[1..]);
      if q[0] in members then
        assert ([q[0]] + rest)[1..] == rest;
        [q[0]] + rest
      else
        SubsequenceOfCons(rest, q[0], q[1..]);
        rest
  }

  /** Filtering by the same membership twice filters nothing more. */
  lemma {:induction false} KeepMembersIdempotent<T(!new)>(q: seq<T>, members: seq<T>)
    ensures KeepMembers(KeepMembers(q, members), members) == KeepMembers(q, members)
  {
    if |q| > 0 {
      KeepMembersIdempotent(q[1..], members);
    }
  }

  /** A queue already inside the member list is left as it is. */
  lemma {:induction false} KeepMembersOfSubset<T(!new)>(q: seq<T>, members: seq<T>)
    requires forall x :: x in q ==> x in members
    ensures KeepMembers(q, members) == q
  {
    if |q| > 0 {
      KeepMembersOfSubset(q[1..], members);
    }
  }

  /**
   * `[...new Set(s)]`: the distinct elements of `s`, in the order in which a
   * JavaScript Set first saw them (an element already present is not re-inserted).
   */
  function Dedup<T(==,!new)>(s: seq<T>): (r: seq<T>)
    ensures NoDuplicates(r)
    ensures forall x :: x in r <==> x in s
  {
    if |s| == 0 then []
    else
      var p, x := s[..|s| - 1], s[|s| - 1];
      assert s == p + [x];
      var d := Dedup(p);
      if x in d then d else d + [x]
  }

  /** The Set spread lists elements in the order of their first occurrence. */
  lemma {:induction false} DedupKeepsFirstOccurrenceOrder<T(!new)>(s: seq<T>)
    ensures forall i, j :: 0 <= i < j < |Dedup(s)| ==> IndexOf(s, Dedup(s)[i]) < IndexOf(s, Dedup(s)[j])
  {
    if |s| > 0 {
      var p, x := s[..|s| - 1], s[|s| - 1];
      assert s == p + [x];
      IndexOfExtend(p, x);
      DedupKeepsFirstOccurrenceOrder(p);
    }
  }

  /** Adding one element to a Set: it goes last unless it is already there. */
  lemma DedupSnoc<T(!new)>(s: seq<T>, x: T)
    ensures Dedup(s + [x]) == if x in Dedup(s) then Dedup(s) else Dedup(s) + [x]
  {
    assert (s + [x])[..|s|] == s;
  }

  /** A sequence without duplicates is its own Set spread. */
  lemma {:induction false} DedupOfDistinct<T(!new)>(s: seq<T>)
    requires NoDuplicates(s)
    ensures Dedup(s) == s
  {
    if |s| > 0 {
      var p, x := s[..|s| - 1], s[|s| - 1];
      DistinctPrefix(s);
      DedupOfDistinct(p);
      DedupAppendFresh(p, x);
      assert s == p + [x];
    }
  }

  lemma DedupAppendFresh<T(!new)>(p: seq<T>, x: T)
    requires Dedup(p) == p && x !in p
    ensures Dedup(p + [x]) == p + [x]
  {
    var s := p + [x];
    assert s[..|s| - 1] == p;
  }

  lemma DistinctPrefix<T>(s: seq<T>)
    requires NoDuplicates(s) && |s| > 0
    ensures NoDuplicates(s[..|s| - 1]) && s[|s| - 1] !in s[..|s| - 1]
  {
  }

  /** `xs.join(sep)`. */
  function Join(xs: seq<string>, sep: string): string {
    if |xs| == 0 then ""
    else if |xs| == 1 then xs[0]
    else xs[0] + sep + Join(xs[1..], sep)
  }

  /** Splits `s` at every ", ", the separator the source joins lists with. */
  function SplitCommaSpace(s: string): (r: seq<string>)
    ensures |r| >= 1
    decreases |s|
  {
    if |s| < 2 then [s]
    else if s[0] == ',' && s[1] == ' ' then [""] + SplitCommaSpace(s[2..])
    else
      var rest := SplitCommaSpace(s[1..]);
      [[s[0]] + rest[0]] + rest[1..]
  }

  /** A word with no comma in it survives a split unchanged, whatever follows a ", ". */
  lemma {:induction false} SplitWordThenRest(w: string, tail: string)
    requires ',' !in w
    ensures SplitCommaSpace(w + ", " + tail) == [w] + SplitCommaSpace(tail)
    decreases |w|
  {
    if |w| == 0 {
      assert w + ", " + tail == ", " + tail;
      assert (", " + tail)[2..] == tail;
    } else {
      SplitWordThenRest(w[1..], tail);
      assert (w + ", " + tail)[1..] == w[1..] + ", " + tail;
      assert [w[0]] + w[1..] == w;
    }
  }

  /** A word with no comma in it splits to itself. */
  lemma {:induction false} SplitWord(w: string)
    requires ',' !in w
    ensures SplitCommaSpace(w) == [w]
    decreases |w|
  {
    if |w| >= 2 {
      SplitWord(w[1..]);
      assert [w[0]] + w[1..] == w;
    }
  }

  /** Joining comma-free words with ", " and splitting again gives the words back. */
  lemma {:induction false} JoinSplitRoundTrip(xs: seq<string>)
    requires |xs| >= 1
    requires forall i :: 0 <= i < |xs| ==> ',' !in xs[i]
    ensures SplitCommaSpace(Join(xs, ", ")) == xs
  {
    if |xs| == 1 {
      SplitWord(xs[0]);
    } else {
      JoinSplitRoundTrip(xs[1..]);
      SplitWordThenRest(xs[0], Join(xs[1..], ", "));
      assert xs == [xs[0]] + xs[1..];
    }
  }
}
