/** Result types and the few facts about sequences, sets and strings the other modules share. */
module Prelude {

  /** Nanoseconds in a second. */
  const SECOND := 1_000_000_000

  datatype Option<+T> = None | Some(value: T)

  datatype Result<+T, +E> = Ok(value: T) | Err(error: E)

  predicate NoDup<T(==)>(s: seq<T>) {
    forall i, j :: 0 <= i < j < |s| ==> s[i] != s[j]
  }

  function Elems<T(==)>(s: seq<T>): set<T> {
    set x | x in s
  }

  lemma {:induction false} NoDupCard<T>(s: seq<T>)
    requires NoDup(s)
    ensures |Elems(s)| == |s|
  {
    if s == [] {
    } else {
      var n := |s| - 1;
      NoDupCard(s[..n]);
      assert Elems(s) == Elems(s[..n]) + {s[n]};
    }
  }

  /** Two duplicate-free sequences with the same elements have the same length. */
  lemma SameElemsSameLength<T>(a: seq<T>, b: seq<T>)
    requires NoDup(a) && NoDup(b) && Elems(a) == Elems(b)
    ensures |a| == |b|
  {
    NoDupCard(a);
    NoDupCard(b);
  }

  lemma {:induction false} SubsetCard<T>(a: set<T>, b: set<T>)
    requires a <= b
    ensures |a| <= |b|
    ensures |a| == |b| ==> a == b
  {
    if a == {} {
    } else {
      var x :| x in a;
      SubsetCard(a - {x}, b - {x});
    }
  }

  function Below(n: nat): (s: set<nat>)
    ensures forall i: nat :: i in s <==> i < n
    ensures |s| == n
  {
    if n == 0 then {} else Below(n - 1) + {n - 1}
  }

  /** Pigeonhole: n distinct indices below n are all the indices below n. */
  lemma Pigeonhole(s: seq<nat>, n: nat)
    requires NoDup(s) && |s| == n
    requires forall i :: 0 <= i < |s| ==> s[i] < n
    ensures Elems(s) == Below(n)
  {
    NoDupCard(s);
    assert Elems(s) <= Below(n);
    SubsetCard(Elems(s), Below(n));
  }

  /** a is b with some elements left out, the order kept. */
  predicate Subsequence<T(==)>(a: seq<T>, b: seq<T>)
    decreases |b|
  {
    if b == [] then a == []
    else
      || Subsequence(a, b[..|b| - 1])
      || (a != [] && a[|a| - 1] == b[|b| - 1] && Subsequence(a[..|a| - 1], b[..|b| - 1]))
  }
}

/** The byte order Go's sort.Strings uses, and the one increasing enumeration of a set of strings. */
module StringOrder {
  import opened Prelude

  predicate Less(a: string, b: string) {
    if a == [] then b != []
    else b != [] && (a[0] < b[0] || (a[0] == b[0] && Less(a[1..], b[1..])))
  }

  /** b is longer than a and starts with it, or a is smaller where they first differ. */
  predicate SmallerFrom(a: string, b: string, i: int) {
    && 0 <= i <= |a| && i < |b| && a[..i] == b[..i]
    && (i < |a| ==> a[i] < b[i])
  }

  lemma {:induction false} LessIsBytewise(a: string, b: string)
    ensures Less(a, b) <==> exists i :: SmallerFrom(a, b, i)
  {
    if a == [] {
      assert b != [] ==> SmallerFrom(a, b, 0);
    } else if b != [] {
      LessIsBytewise(a[1..], b[1..]);
      if a[0] < b[0] {
        assert SmallerFrom(a, b, 0);
      } else if a[0] == b[0] && Less(a[1..], b[1..]) {
        var i :| SmallerFrom(a[1..], b[1..], i);
        assert a[..i + 1] == [a[0]] + a[1..][..i] && b[..i + 1] == [b[0]] + b[1..][..i];
        assert SmallerFrom(a, b, i + 1);
      }
      if i :| SmallerFrom(a, b, i) && i > 0 {
        assert a[0] == a[..i][0] && b[0] == b[..i][0];
        assert a[1..][..i - 1] == a[..i][1..] && b[1..][..i - 1] == b[..i][1..];
        assert SmallerFrom(a[1..], b[1..], i - 1);
      }
    }
  }

  lemma {:induction false} Total(a: string, b: string)
    ensures a == b || Less(a, b) || Less(b, a)
  {
    if a != [] && b != [] && a[0] == b[0] {
      Total(a[1..], b[1..]);
      assert a == [a[0]] + a[1..] && b == [b[0]] + b[1..];
    }
  }

  lemma {:induction false} Irreflexive(a: string)
    ensures !Less(a, a)
  {
    if a != [] { Irreflexive(a[1..]); }
  }

  lemma {:induction false} Transitive(a: string, b: string, c: string)
    requires Less(a, b) && Less(b, c)
    ensures Less(a, c)
  {
    if a != [] && a[0] == b[0] == c[0] { Transitive(a[1..], b[1..], c[1..]); }
  }

  predicate Increasing(s: seq<string>) {
    forall i, j :: 0 <= i < j < |s| ==> Less(s[i], s[j])
  }

  lemma IncreasingNoDup(s: seq<string>)
    requires Increasing(s)
    ensures NoDup(s)
  {
    forall i, j | 0 <= i < j < |s| ensures s[i] != s[j] { Irreflexive(s[i]); }
  }

  /** Where an insertion sort puts x. */
  function Insert(x: string, s: seq<string>): seq<string> {
    if s == [] || Less(x, s[0]) then [x] + s else [s[0]] + Insert(x, s[1..])
  }

  lemma {:induction false} InsertKeeps(x: string, s: seq<string>)
    requires Increasing(s) && x !in s
    ensures Increasing(Insert(x, s)) && Elems(Insert(x, s)) == Elems(s) + {x}
  {
    if s == [] {
    } else if Less(x, s[0]) {
      forall j | 0 <= j < |s| ensures Less(x, s[j]) {
        if j > 0 { Transitive(x, s[0], s[j]); }
      }
    } else {
      Total(x, s[0]);
      InsertKeeps(x, s[1..]);
      var r := Insert(x, s[1..]);
      forall j | 0 <= j < |r| ensures Less(s[0], r[j]) {
        assert r[j] in Elems(r);
      }
      assert Elems(s) == {s[0]} + Elems(s[1..]);
      assert Elems([s[0]] + r) == {s[0]} + Elems(r);
    }
  }

  function Sort(s: seq<string>): seq<string> {
    if s == [] then [] else Insert(s[0], Sort(s[1..]))
  }

  lemma {:induction false} SortKeeps(s: seq<string>)
    requires NoDup(s)
    ensures Increasing(Sort(s)) && Elems(Sort(s)) == Elems(s)
  {
    if s != [] {
      SortKeeps(s[1..]);
      assert s[0] !in Elems(s[1..]) && Elems(s) == {s[0]} + Elems(s[1..]);
      InsertKeeps(s[0], Sort(s[1..]));
    }
  }

  /** Only one increasing sequence enumerates a given set. */
  lemma {:induction false} IncreasingUnique(a: seq<string>, b: seq<string>)
    requires Increasing(a) && Increasing(b) && Elems(a) == Elems(b)
    ensures a == b
  {
    IncreasingNoDup(a);
    IncreasingNoDup(b);
    SameElemsSameLength(a, b);
    if a != [] {
      assert a[0] in Elems(b) && b[0] in Elems(a);
      if a[0] != b[0] {
        var i :| 0 <= i < |b| && b[i] == a[0];
        var j :| 0 <= j < |a| && a[j] == b[0];
        Transitive(a[0], b[0], a[0]);
        Irreflexive(a[0]);
        assert false;
      }
      assert Elems(a[1..]) == Elems(a) - {a[0]};
      assert Elems(b[1..]) == Elems(b) - {b[0]};
      IncreasingUnique(a[1..], b[1..]);
      assert a == [a[0]] + a[1..] && b == [b[0]] + b[1..];
    }
  }

  /** The increasing enumeration of a set, which any sort of any listing of it yields. */
  ghost function Listing(s: set<string>): (r: seq<string>)
    ensures Increasing(r) && NoDup(r) && Elems(r) == s
  {
    if s == {} then []
    else
      var x :| x in s;
      var rest := Listing(s - {x});
      InsertKeeps(x, rest);
      IncreasingNoDup(Insert(x, rest));
      Insert(x, rest)
  }

  lemma SortIsListing(s: seq<string>)
    requires NoDup(s)
    ensures Sort(s) == Listing(Elems(s))
  {
    SortKeeps(s);
    IncreasingUnique(Sort(s), Listing(Elems(s)));
  }
}
