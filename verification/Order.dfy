/** Orderings, the stable sort of the two standard libraries the program is written against, and the
    canonical (sorted, duplicate-free) form of a list. */
module Order {

  /** What a comparator passed to a sort must satisfy. */
  ghost predicate Preorder<T(!new)>(le: (T, T) -> bool) {
    && (forall a, b :: le(a, b) || le(b, a))
    && (forall a, b, c :: le(a, b) && le(b, c) ==> le(a, c))
  }

  /** A preorder in which only equal values tie. */
  ghost predicate Linear<T(!new)>(le: (T, T) -> bool) {
    && Preorder(le)
    && (forall a, b :: le(a, b) && le(b, a) ==> a == b)
  }

  ghost predicate Ascending<T>(s: seq<T>, le: (T, T) -> bool) {
    forall i, j | 0 <= i < j < |s| :: le(s[i], s[j])
  }

  ghost predicate StrictlyAscending<T>(s: seq<T>, le: (T, T) -> bool) {
    forall i, j | 0 <= i < j < |s| :: le(s[i], s[j]) && !le(s[j], s[i])
  }

  /** `x` placed in `s` behind everything that is not greater. */
  function Insert<T>(x: T, s: seq<T>, le: (T, T) -> bool): (r: seq<T>)
    ensures |r| == |s| + 1
  {
    if s == [] || !le(s[0], x) then [x] + s else [s[0]] + Insert(x, s[1..], le)
  }

  function Sort<T>(s: seq<T>, le: (T, T) -> bool): (r: seq<T>)
    ensures |r| == |s|
  {
    if s == [] then [] else Insert(s[|s| - 1], Sort(s[..|s| - 1], le), le)
  }

  lemma {:induction false} InsertPermutes<T>(x: T, s: seq<T>, le: (T, T) -> bool)
    ensures multiset(Insert(x, s, le)) == multiset(s) + multiset{x}
  {
    if s != [] && le(s[0], x) {
      InsertPermutes(x, s[1..], le);
      assert s == [s[0]] + s[1..];
    }
  }

  lemma {:induction false} SortPermutes<T>(s: seq<T>, le: (T, T) -> bool)
    ensures multiset(Sort(s, le)) == multiset(s)
  {
    if s != [] {
      var n := |s| - 1;
      SortPermutes(s[..n], le);
      InsertPermutes(s[n], Sort(s[..n], le), le);
      assert s == s[..n] + [s[n]];
    }
  }

  lemma {:induction false} InsertAscending<T(!new)>(x: T, s: seq<T>, le: (T, T) -> bool)
    requires Preorder(le) && Ascending(s, le)
    ensures Ascending(Insert(x, s, le), le)
  {
    if s != [] && le(s[0], x) {
      InsertAscending(x, s[1..], le);
      var t := Insert(x, s[1..], le);
      InsertPermutes(x, s[1..], le);
      forall j | 0 <= j < |t| ensures le(s[0], t[j]) {
        assert t[j] in multiset(t);
        assert t[j] == x || t[j] in s[1..];
      }
    }
  }

  lemma {:induction false} SortAscending<T(!new)>(s: seq<T>, le: (T, T) -> bool)
    requires Preorder(le)
    ensures Ascending(Sort(s, le), le)
  {
    if s != [] {
      var n := |s| - 1;
      SortAscending(s[..n], le);
      InsertAscending(s[n], Sort(s[..n], le), le);
    }
  }

  lemma SortSameElements<T>(s: seq<T>, le: (T, T) -> bool)
    ensures forall x :: x in Sort(s, le) <==> x in s
  {
    SortPermutes(s, le);
    forall x ensures x in Sort(s, le) <==> x in s {
      assert x in Sort(s, le) <==> x in multiset(Sort(s, le));
      assert x in s <==> x in multiset(s);
    }
  }

  /** The values that tie with `x`, as they come. */
  function Ties<T>(s: seq<T>, x: T, le: (T, T) -> bool): seq<T> {
    if s == [] then []
    else
      var rest := Ties(s[..|s| - 1], x, le);
      if le(x, s[|s| - 1]) && le(s[|s| - 1], x) then rest + [s[|s| - 1]] else rest
  }

  lemma {:induction false} TiesAppend<T>(a: seq<T>, b: seq<T>, x: T, le: (T, T) -> bool)
    ensures Ties(a + b, x, le) == Ties(a, x, le) + Ties(b, x, le)
  {
    if b == [] {
      assert a + b == a;
    } else {
      var n := |b| - 1;
      assert (a + b)[..|a| + n] == a + b[..n] && (a + b)[|a| + n] == b[n];
      TiesAppend(a, b[..n], x, le);
    }
  }

  lemma {:induction false} InsertBehindTies<T(!new)>(y: T, s: seq<T>, x: T, le: (T, T) -> bool)
    requires Preorder(le) && Ascending(s, le)
    ensures Ties(Insert(y, s, le), x, le) == Ties(s + [y], x, le)
  {
    assert s == s + [] && [y] + s == [y] + s[..];
    TiesAppend(s, [y], x, le);
    if s == [] {
      assert [y] + s == s + [y];
    } else if !le(s[0], y) {
      TiesAppend([y], s, x, le);
      if le(x, y) && le(y, x) {
        forall i | 0 <= i < |s| ensures !(le(x, s[i]) && le(s[i], x)) {
          assert i > 0 ==> le(s[0], s[i]);
        }
        NoTies(s, x, le);
      } else {
        NoTies([y], x, le);
      }
    } else {
      InsertBehindTies(y, s[1..], x, le);
      TiesAppend([s[0]], Insert(y, s[1..], le), x, le);
      TiesAppend([s[0]], s[1..] + [y], x, le);
      assert [s[0]] + (s[1..] + [y]) == s + [y];
    }
  }

  lemma {:induction false} NoTies<T>(s: seq<T>, x: T, le: (T, T) -> bool)
    requires forall i | 0 <= i < |s| :: !(le(x, s[i]) && le(s[i], x))
    ensures Ties(s, x, le) == []
  {
    if s != [] { NoTies(s[..|s| - 1], x, le); }
  }

  /** The sort is stable: values that tie stay in the order they came in. */
  lemma {:induction false} SortStable<T(!new)>(s: seq<T>, x: T, le: (T, T) -> bool)
    requires Preorder(le)
    ensures Ties(Sort(s, le), x, le) == Ties(s, x, le)
  {
    if s != [] {
      var n := |s| - 1;
      SortStable(s[..n], x, le);
      SortAscending(s[..n], le);
      InsertBehindTies(s[n], Sort(s[..n], le), x, le);
      TiesAppend(Sort(s[..n], le), [s[n]], x, le);
      TiesAppend(s[..n], [s[n]], x, le);
      assert s == s[..n] + [s[n]];
    }
  }

  /** Two strictly ascending lists over the same values are the same list: what a sort returns on
      distinct values does not depend on how it sorts. */
  lemma {:induction false} StrictlyAscendingUnique<T(!new)>(a: seq<T>, b: seq<T>, le: (T, T) -> bool)
    requires Preorder(le)
    requires StrictlyAscending(a, le) && StrictlyAscending(b, le)
    requires forall x :: x in a <==> x in b
    ensures a == b
  {
    assert |b| > 0 ==> b[0] in a;
    if a != [] {
      assert a[0] in b;
      assert a[0] == b[0];
      forall x ensures x in a[1..] <==> x in b[1..] {
        assert x in a <==> x == a[0] || x in a[1..];
        assert x in b <==> x == b[0] || x in b[1..];
        assert a[0] !in a[1..];
        assert b[0] !in b[1..];
      }
      StrictlyAscendingUnique(a[1..], b[1..], le);
    }
  }

  /** An ascending permutation without duplicates is the sort. */
  lemma SortOfDistinct<T(!new)>(s: seq<T>, le: (T, T) -> bool)
    requires Preorder(le)
    requires forall i, j | 0 <= i < j < |s| :: !(le(s[i], s[j]) && le(s[j], s[i]))
    ensures StrictlyAscending(Sort(s, le), le)
  {
    SortAscending(s, le);
    SortPermutes(s, le);
    var t := Sort(s, le);
    forall i, j | 0 <= i < j < |t| ensures !le(t[j], t[i]) {
      if le(t[j], t[i]) {
        TiesComeFromTies(s, t, i, j, le);
      }
    }
  }

  lemma Twice<T>(t: seq<T>, i: nat, j: nat)
    requires i < j < |t| && t[i] == t[j]
    ensures multiset(t)[t[i]] >= 2
  {
    assert t == t[..j] + [t[j]] + t[j + 1..];
    assert t[..j][i] in multiset(t[..j]);
  }

  lemma {:induction false} FindTwo<T(!new)>(s: seq<T>, x: T) returns (p: nat, q: nat)
    requires multiset(s)[x] >= 2
    ensures p < q < |s| && s[p] == x && s[q] == x
  {
    var n := |s| - 1;
    assert s == s[..n] + [s[n]];
    if s[n] == x {
      q := n;
      assert x in s[..n];
      p :| 0 <= p < n && s[..n][p] == x;
    } else {
      p, q := FindTwo(s[..n], x);
    }
  }

  lemma TiesComeFromTies<T(!new)>(s: seq<T>, t: seq<T>, i: nat, j: nat, le: (T, T) -> bool)
    requires multiset(s) == multiset(t) && i < j < |t|
    requires le(t[i], t[j]) && le(t[j], t[i])
    ensures exists p, q :: 0 <= p < q < |s| && le(s[p], s[q]) && le(s[q], s[p])
  {
    assert t[i] in multiset(s) && t[j] in multiset(s);
    var p :| 0 <= p < |s| && s[p] == t[i];
    if t[i] != t[j] {
      var q :| 0 <= q < |s| && s[q] == t[j];
      if p < q { assert le(s[p], s[q]); } else { assert le(s[q], s[p]); }
    } else {
      Twice(t, i, j);
      var q, r := FindTwo(s, t[i]);
      assert le(s[q], s[r]) && le(s[r], s[q]);
    }
  }

  /** Drops each value equal to the one before it. */
  function Dedup<T(==, !new)>(s: seq<T>): (r: seq<T>)
    ensures forall x :: x in r <==> x in s
    ensures r != [] ==> s != [] && r[0] == s[0]
  {
    if |s| <= 1 then s
    else
      assert s == [s[0]] + s[1..];
      if s[0] == s[1] then Dedup(s[1..]) else [s[0]] + Dedup(s[1..])
  }

  lemma {:induction false} DedupStrict<T(!new)>(s: seq<T>, le: (T, T) -> bool)
    requires Linear(le) && Ascending(s, le)
    ensures StrictlyAscending(Dedup(s), le)
  {
    if |s| > 1 {
      DedupStrict(s[1..], le);
      if s[0] != s[1] {
        var t := Dedup(s[1..]);
        forall j | 0 <= j < |t| ensures le(s[0], t[j]) && !le(t[j], s[0]) {
          assert t[j] in s[1..];
          var k :| 1 <= k < |s| && s[k] == t[j];
          assert le(s[0], s[1]) && !le(s[1], s[0]);
        }
      }
    }
  }

  ghost function Elements<T>(s: seq<T>): set<T> {
    set x | x in s
  }

  /** The canonical list of a set of values. */
  function Canonical<T(==, !new)>(s: seq<T>, le: (T, T) -> bool): (r: seq<T>) {
    Dedup(Sort(s, le))
  }

  /** Sorting and deduplicating forgets exactly order and repetition. */
  lemma CanonicalIff<T(!new)>(a: seq<T>, b: seq<T>, le: (T, T) -> bool)
    requires Linear(le)
    ensures Canonical(a, le) == Canonical(b, le) <==> Elements(a) == Elements(b)
  {
    SortSameElements(a, le);
    SortSameElements(b, le);
    SortAscending(a, le);
    SortAscending(b, le);
    DedupStrict(Sort(a, le), le);
    DedupStrict(Sort(b, le), le);
    if Elements(a) == Elements(b) {
      forall x ensures x in a <==> x in b {
        assert x in Elements(a) <==> x in Elements(b);
      }
      StrictlyAscendingUnique(Canonical(a, le), Canonical(b, le), le);
    } else if Canonical(a, le) == Canonical(b, le) {
      forall x ensures x in Elements(a) <==> x in Elements(b) {
        assert x in a <==> x in Canonical(a, le);
      }
      assert false;
    }
  }

  /** Strings compare by their first differing character, a prefix before what it begins. */
  predicate StringLe(a: string, b: string) {
    a == [] || (b != [] && (a[0] < b[0] || (a[0] == b[0] && StringLe(a[1..], b[1..]))))
  }

  lemma {:induction false} StringLeTotal(a: string, b: string)
    ensures StringLe(a, b) || StringLe(b, a)
    ensures StringLe(a, b) && StringLe(b, a) ==> a == b
  {
    if a != [] && b != [] && a[0] == b[0] {
      StringLeTotal(a[1..], b[1..]);
      assert a == [a[0]] + a[1..] && b == [b[0]] + b[1..];
    }
  }

  lemma {:induction false} StringLeTransitive(a: string, b: string, c: string)
    requires StringLe(a, b) && StringLe(b, c)
    ensures StringLe(a, c)
  {
    if a != [] && b != [] && c != [] && a[0] == b[0] == c[0] {
      StringLeTransitive(a[1..], b[1..], c[1..]);
    }
  }

  lemma StringLeLinear()
    ensures Linear(StringLe)
  {
    forall a, b ensures (StringLe(a, b) || StringLe(b, a)) && (StringLe(a, b) && StringLe(b, a) ==> a == b) {
      StringLeTotal(a, b);
    }
    forall a, b, c | StringLe(a, b) && StringLe(b, c) ensures StringLe(a, c) {
      StringLeTransitive(a, b, c);
    }
  }
}
