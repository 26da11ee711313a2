/** Shared result types and a stable insertion sort used wherever the program calls a library sort. */
module Prelude {

  datatype Option<+T> = None | Some(value: T)

  datatype Result<+T, +E> = Ok(value: T) | Err(error: E)

  datatype Provider = Claude | Codex

  /** The version of the program, recorded with everything it binds or observes. */
  const ADAPTER_VERSION := "0.1.0-alpha.5"

  const U32_MAX: int := 0xFFFF_FFFF
  const U64_MAX: int := 0xFFFF_FFFF_FFFF_FFFF
  const I64_MAX: int := 0x7FFF_FFFF_FFFF_FFFF
}

module Sorting {

  ghost predicate TotalPreorder<T(!new)>(le: (T, T) -> bool) {
    && (forall a, b :: le(a, b) || le(b, a))
    && (forall a, b, c :: le(a, b) && le(b, c) ==> le(a, c))
  }

  ghost predicate SortedBy<T>(xs: seq<T>, le: (T, T) -> bool) {
    forall i, j :: 0 <= i < j < |xs| ==> le(xs[i], xs[j])
  }

  /** Inserts `x` after every element that is not above it. */
  function Insert<T>(x: T, xs: seq<T>, le: (T, T) -> bool): (r: seq<T>)
    ensures |r| == |xs| + 1
  {
    if xs == [] then [x]
    else if le(xs[|xs| - 1], x) then xs + [x]
    else Insert(x, xs[..|xs| - 1], le) + [xs[|xs| - 1]]
  }

  function Sort<T>(xs: seq<T>, le: (T, T) -> bool): (r: seq<T>)
    ensures |r| == |xs|
  {
    if xs == [] then [] else Insert(xs[|xs| - 1], Sort(xs[..|xs| - 1], le), le)
  }

  lemma {:induction false} InsertKeepsElements<T>(x: T, xs: seq<T>, le: (T, T) -> bool)
    ensures multiset(Insert(x, xs, le)) == multiset(xs) + multiset{x}
  {
    if xs != [] && !le(xs[|xs| - 1], x) {
      InsertKeepsElements(x, xs[..|xs| - 1], le);
      assert xs == xs[..|xs| - 1] + [xs[|xs| - 1]];
    }
  }

  lemma {:induction false} InsertSorts<T(!new)>(x: T, xs: seq<T>, le: (T, T) -> bool)
    requires TotalPreorder(le)
    requires SortedBy(xs, le)
    ensures SortedBy(Insert(x, xs, le), le)
  {
    if xs != [] && !le(xs[|xs| - 1], x) {
      var front := xs[..|xs| - 1];
      var last := xs[|xs| - 1];
      InsertSorts(x, front, le);
      InsertKeepsElements(x, front, le);
      var r := Insert(x, front, le);
      forall i | 0 <= i < |r| ensures le(r[i], last) {
        assert r[i] in multiset(r);
        assert r[i] in multiset(front) + multiset{x};
      }
    } else if xs != [] {
      forall i | 0 <= i < |xs| ensures le(xs[i], x) {
        assert i < |xs| - 1 ==> le(xs[i], xs[|xs| - 1]);
      }
    }
  }

  /** Sorting rearranges: nothing is lost, added or duplicated, and the result is in order. */
  lemma {:induction false} SortIsPermutation<T(!new)>(xs: seq<T>, le: (T, T) -> bool)
    requires TotalPreorder(le)
    ensures multiset(Sort(xs, le)) == multiset(xs)
    ensures SortedBy(Sort(xs, le), le)
  {
    if xs != [] {
      var front := xs[..|xs| - 1];
      SortIsPermutation(front, le);
      InsertKeepsElements(xs[|xs| - 1], Sort(front, le), le);
      InsertSorts(xs[|xs| - 1], Sort(front, le), le);
      assert xs == front + [xs[|xs| - 1]];
    }
  }

  // ---- keys -----------------------------------------------------------------------------------

  ghost predicate DistinctBy<T, K>(xs: seq<T>, key: T -> K) {
    forall i, j :: 0 <= i < j < |xs| ==> key(xs[i]) != key(xs[j])
  }

  lemma KeyNotInFront<T(!new), K>(xs: seq<T>, key: T -> K)
    requires DistinctBy(xs, key) && xs != []
    ensures forall y :: y in xs[..|xs| - 1] ==> key(y) != key(xs[|xs| - 1])
  {
    var front := xs[..|xs| - 1];
    forall y | y in front ensures key(y) != key(xs[|xs| - 1]) {
      var j :| 0 <= j < |front| && front[j] == y;
      assert xs[j] == y;
    }
  }

  lemma {:induction false} InsertKeepsDistinct<T(!new), K>(x: T, xs: seq<T>, le: (T, T) -> bool, key: T -> K)
    requires DistinctBy(xs, key) && forall i :: 0 <= i < |xs| ==> key(xs[i]) != key(x)
    ensures DistinctBy(Insert(x, xs, le), key)
    ensures forall y :: y in Insert(x, xs, le) <==> y in xs || y == x
  {
    if xs != [] && !le(xs[|xs| - 1], x) {
      var front, last := xs[..|xs| - 1], xs[|xs| - 1];
      InsertKeepsDistinct(x, front, le, key);
      assert xs == front + [last];
      KeyNotInFront(xs, key);
      var r := Insert(x, front, le);
      forall i | 0 <= i < |r| ensures key(r[i]) != key(last) {
        assert r[i] in r;
      }
    }
  }

  /** Sorting keeps the elements, and keeps their keys distinct. */
  lemma {:induction false} SortKeepsDistinct<T(!new), K>(xs: seq<T>, le: (T, T) -> bool, key: T -> K)
    requires DistinctBy(xs, key)
    ensures DistinctBy(Sort(xs, le), key)
    ensures forall x :: x in Sort(xs, le) <==> x in xs
  {
    if xs != [] {
      var front, last := xs[..|xs| - 1], xs[|xs| - 1];
      SortKeepsDistinct(front, le, key);
      assert xs == front + [last];
      KeyNotInFront(xs, key);
      var sorted := Sort(front, le);
      forall i | 0 <= i < |sorted| ensures key(sorted[i]) != key(last) {
        assert sorted[i] in front;
      }
      InsertKeepsDistinct(last, sorted, le, key);
    }
  }
}

/** Facts about sequences that the solver does not see by itself. */
module Sequences {

  lemma Associate<T>(x: seq<T>, y: seq<T>, z: seq<T>)
    ensures x + (y + z) == (x + y) + z
  {
  }
}

/** Splitting on and joining with a slash, as both path grammars of the program do. */
module Slashes {

  function Split(s: string): (parts: seq<string>)
    ensures |parts| >= 1
  {
    if s == "" then [""]
    else
      var rest := Split(s[1..]);
      if s[0] == '/' then [""] + rest else [[s[0]] + rest[0]] + rest[1..]
  }

  function Join(parts: seq<string>): string {
    if |parts| == 0 then ""
    else if |parts| == 1 then parts[0]
    else parts[0] + "/" + Join(parts[1..])
  }

  lemma {:induction false} JoinSplit(s: string)
    ensures Join(Split(s)) == s
  {
    if s != "" {
      JoinSplit(s[1..]);
      var rest := Split(s[1..]);
      if s[0] == '/' {
        assert Split(s)[1..] == rest;
      } else {
        assert Split(s)[1..] == rest[1..];
      }
    }
  }

  /** Joining two nonempty halves with one slash between them joins the whole. */
  lemma {:induction false} JoinHalves(parts: seq<string>, k: nat)
    requires 0 < k < |parts|
    ensures Join(parts) == Join(parts[..k]) + "/" + Join(parts[k..])
  {
    if k == 1 {
      assert parts[..1] == [parts[0]];
    } else {
      JoinHalves(parts[1..], k - 1);
      assert parts[1..][..k - 1] == parts[..k][1..];
      assert parts[1..][k - 1..] == parts[k..];
    }
  }

  lemma {:induction false} NoSlashSplits(s: string)
    requires forall i :: 0 <= i < |s| ==> s[i] != '/'
    ensures Split(s) == [s]
  {
    if s != "" {
      NoSlashSplits(s[1..]);
      assert s == [s[0]] + s[1..];
    }
  }
}
