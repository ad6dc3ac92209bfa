/** Byte-wise string order, and sorting by a strict order without ties. */
module Order {
  import Numbers

  predicate Less(a: string, b: string) {
    b != "" && (a == "" || a[0] < b[0] || (a[0] == b[0] && Less(a[1..], b[1..])))
  }

  lemma {:induction false} LessTotal(a: string, b: string)
    ensures Less(a, b) || a == b || Less(b, a)
    ensures !(Less(a, b) && Less(b, a)) && (a == b ==> !Less(a, b))
  {
    if a != "" && b != "" {
      LessTotal(a[1..], b[1..]);
      assert a == [a[0]] + a[1..] && b == [b[0]] + b[1..];
    }
  }

  lemma {:induction false} LessTransitive(a: string, b: string, c: string)
    requires Less(a, b) && Less(b, c)
    ensures Less(a, c)
  {
    if a != "" && a[0] == b[0] == c[0] {
      LessTransitive(a[1..], b[1..], c[1..]);
    }
  }

  /** A text comes earlier: it is a proper beginning of the other, or has the smaller
      character where they first differ. */
  ghost predicate EarlierText(a: string, b: string) {
    exists k :: 0 <= k <= |a| && EarlierAt(a, b, k)
  }

  predicate EarlierAt(a: string, b: string, k: nat)
    requires k <= |a|
  {
    k < |b| && a[..k] == b[..k] && (k == |a| || a[k] < b[k])
  }

  lemma SharesFirst(a: string, b: string, k: nat)
    requires k <= |a| && EarlierAt(a, b, k)
    ensures k > 0 ==> a != "" && b != "" && a[0] == b[0]
  {
    if k > 0 {
      assert a[..k][0] == b[..k][0];
    }
  }

  lemma {:induction false} LessIsEarlier(a: string, b: string)
    ensures Less(a, b) <==> EarlierText(a, b)
  {
    if a == "" || b == "" || a[0] != b[0] {
      assert b != "" && (a == "" || a[0] < b[0]) ==> EarlierAt(a, b, 0);
      forall k | 0 <= k <= |a| && EarlierAt(a, b, k) ensures k == 0 {
        SharesFirst(a, b, k);
      }
    } else {
      LessIsEarlier(a[1..], b[1..]);
      assert a == [a[0]] + a[1..] && b == [b[0]] + b[1..];
      if Less(a, b) {
        var k :| 0 <= k <= |a[1..]| && EarlierAt(a[1..], b[1..], k);
        assert a[..k + 1] == [a[0]] + a[1..][..k] && b[..k + 1] == [b[0]] + b[1..][..k];
        assert EarlierAt(a, b, k + 1);
      }
      if EarlierText(a, b) {
        var k :| 0 <= k <= |a| && EarlierAt(a, b, k);
        if k > 0 {
          assert a[1..][..k - 1] == a[..k][1..] && b[1..][..k - 1] == b[..k][1..];
          assert EarlierAt(a[1..], b[1..], k - 1);
        }
      }
    }
  }

  // ----- sorting

  function Insert<T>(x: T, s: seq<T>, before: (T, T) -> bool): (out: seq<T>)
    ensures multiset(out) == multiset{x} + multiset(s)
  {
    if s == [] || before(x, s[0]) then [x] + s
    else
      assert s == [s[0]] + s[1..];
      [s[0]] + Insert(x, s[1..], before)
  }

  function Sort<T>(s: seq<T>, before: (T, T) -> bool): (out: seq<T>)
    ensures multiset(out) == multiset(s)
  {
    if s == [] then []
    else
      assert s == s[..|s| - 1] + [s[|s| - 1]];
      Insert(s[|s| - 1], Sort(s[..|s| - 1], before), before)
  }

  ghost predicate Increasing<T(!new)>(s: seq<T>, before: (T, T) -> bool) {
    forall i, j :: 0 <= i < j < |s| ==> before(s[i], s[j])
  }

  ghost predicate Strict<T(!new)>(before: (T, T) -> bool) {
    && (forall x, y :: before(x, y) ==> !before(y, x))
    && (forall x, y, z :: before(x, y) && before(y, z) ==> before(x, z))
  }

  /** Any two entries are comparable; in particular none occurs twice. */
  ghost predicate NoTies<T(!new)>(s: seq<T>, before: (T, T) -> bool) {
    forall i, j :: 0 <= i < j < |s| ==> before(s[i], s[j]) || before(s[j], s[i])
  }

  lemma {:induction false} InsertIncreasing<T(!new)>(x: T, s: seq<T>, before: (T, T) -> bool)
    requires Strict(before) && Increasing(s, before)
    requires forall i :: 0 <= i < |s| ==> before(x, s[i]) || before(s[i], x)
    ensures Increasing(Insert(x, s, before), before)
  {
    if s != [] && !before(x, s[0]) {
      InsertIncreasing(x, s[1..], before);
      var rest := Insert(x, s[1..], before);
      forall k | 0 <= k < |rest| ensures before(s[0], rest[k]) {
        assert rest[k] in multiset(rest);
        assert rest[k] == x || rest[k] in s[1..];
      }
    }
  }

  lemma {:induction false} SortIncreasing<T(!new)>(s: seq<T>, before: (T, T) -> bool)
    requires Strict(before) && NoTies(s, before)
    ensures Increasing(Sort(s, before), before)
  {
    if s != [] {
      var rest := s[..|s| - 1];
      SortIncreasing(rest, before);
      var sorted := Sort(rest, before);
      forall i | 0 <= i < |sorted| ensures before(s[|s| - 1], sorted[i]) || before(sorted[i], s[|s| - 1]) {
        assert sorted[i] in multiset(sorted);
        var k :| 0 <= k < |rest| && rest[k] == sorted[i];
        assert s[k] == sorted[i];
      }
      InsertIncreasing(s[|s| - 1], sorted, before);
    }
  }

  lemma SortMembers<T(!new)>(s: seq<T>, before: (T, T) -> bool)
    ensures |Sort(s, before)| == |s|
    ensures forall x :: x in Sort(s, before) <==> x in s
  {
    assert |multiset(Sort(s, before))| == |multiset(s)|;
    forall x ensures x in Sort(s, before) <==> x in s {
      assert x in multiset(Sort(s, before)) <==> x in multiset(s);
    }
  }

  // ----- ties between equal entries

  ghost predicate Total<T(!new)>(before: (T, T) -> bool) {
    Strict(before) && forall x, y :: x != y ==> before(x, y) || before(y, x)
  }

  /** Never a later entry before an earlier one. */
  ghost predicate Ascending<T(!new)>(s: seq<T>, before: (T, T) -> bool) {
    forall i, j :: 0 <= i < j < |s| ==> !before(s[j], s[i])
  }

  lemma {:induction false} InsertAscending<T(!new)>(x: T, s: seq<T>, before: (T, T) -> bool)
    requires Total(before) && Ascending(s, before)
    ensures Ascending(Insert(x, s, before), before)
  {
    if s != [] && !before(x, s[0]) {
      InsertAscending(x, s[1..], before);
      var rest := Insert(x, s[1..], before);
      forall k | 0 <= k < |rest| ensures !before(rest[k], s[0]) {
        assert rest[k] in multiset(rest);
        assert rest[k] == x || rest[k] in s[1..];
      }
    } else if s != [] {
      forall k | 0 <= k < |s| ensures !before(s[k], x) {
        assert k > 0 ==> !before(s[k], s[0]);
      }
    }
  }

  lemma {:induction false} SortAscending<T(!new)>(s: seq<T>, before: (T, T) -> bool)
    requires Total(before)
    ensures Ascending(Sort(s, before), before)
  {
    if s != [] {
      SortAscending(s[..|s| - 1], before);
      InsertAscending(s[|s| - 1], Sort(s[..|s| - 1], before), before);
    }
  }

  lemma {:induction false} LeastIsFirst<T(!new)>(a: seq<T>, x: T, before: (T, T) -> bool)
    requires Strict(before) && Ascending(a, before) && x in a
    ensures !before(x, a[0])
  {
    var i :| 0 <= i < |a| && a[i] == x;
    assert i > 0 ==> !before(a[i], a[0]);
  }

  lemma {:induction false} SameFirst<T(!new)>(a: seq<T>, b: seq<T>, before: (T, T) -> bool)
    requires Total(before) && Ascending(a, before) && Ascending(b, before) && multiset(a) == multiset(b) && a != []
    ensures b != [] && a[0] == b[0]
  {
    hide Ascending;
    assert a[0] in multiset(b);
    assert b[0] in multiset(a);
    LeastIsFirst(a, b[0], before);
    LeastIsFirst(b, a[0], before);
  }

  /** Only one sequence with these entries is ascending. */
  lemma {:induction false} AscendingUnique<T(!new)>(a: seq<T>, b: seq<T>, before: (T, T) -> bool)
    requires Total(before) && Ascending(a, before) && Ascending(b, before) && multiset(a) == multiset(b)
    ensures a == b
    decreases |a|
  {
    hide Total;
    if a == [] {
      assert |multiset(b)| == |multiset(a)|;
    } else {
      SameFirst(a, b, before);
      assert a == [a[0]] + a[1..] && b == [b[0]] + b[1..];
      assert multiset(a[1..]) == multiset(a) - multiset{a[0]};
      assert multiset(b[1..]) == multiset(b) - multiset{b[0]};
      AscendingUnique(a[1..], b[1..], before);
    }
  }

  /** Sorting does not depend on the order in which the entries come. */
  lemma {:induction false} SortUnique<T(!new)>(a: seq<T>, b: seq<T>, before: (T, T) -> bool)
    requires Total(before) && multiset(a) == multiset(b)
    ensures Sort(a, before) == Sort(b, before)
  {
    SortAscending(a, before);
    SortAscending(b, before);
    AscendingUnique(Sort(a, before), Sort(b, before), before);
  }

  ghost function Members<T>(s: seq<T>): set<T> {
    set x | x in s
  }

  /** In an increasing sequence an entry's index is the number of entries before it. */
  lemma {:induction false} IndexIsRank<T(!new)>(s: seq<T>, i: nat, before: (T, T) -> bool)
    requires i < |s| && Strict(before) && Increasing(s, before)
    ensures (set x | x in s && before(x, s[i])) == Members(s[..i])
    ensures |Members(s[..i])| == i
  {
    PrefixCount(s, i, before);
    forall x ensures x in s && before(x, s[i]) <==> x in s[..i] {
      if x in s && before(x, s[i]) {
        var k :| 0 <= k < |s| && s[k] == x;
        assert k < i;
        assert s[..i][k] == x;
      }
    }
  }

  lemma {:induction false} PrefixCount<T(!new)>(s: seq<T>, i: nat, before: (T, T) -> bool)
    requires i <= |s| && Strict(before) && Increasing(s, before)
    ensures |Members(s[..i])| == i
  {
    if i == 0 {
      assert Members(s[..i]) == {};
    } else {
      PrefixCount(s, i - 1, before);
      assert s[..i] == s[..i - 1] + [s[i - 1]];
      assert Members(s[..i]) == Members(s[..i - 1]) + {s[i - 1]};
      assert s[i - 1] !in s[..i - 1];
    }
  }

  // ----- listing a set of names

  predicate IsFirst(first: string, names: set<string>) {
    first in names && forall name :: name in names ==> name == first || Less(first, name)
  }

  lemma {:induction false} FirstExists(names: set<string>)
    requires names != {}
    ensures exists first :: IsFirst(first, names)
  {
    var some := Numbers.Pick(names);
    var rest := names - {some};
    if rest == {} {
      assert forall name :: name in names ==> name == some || name in rest;
      assert IsFirst(some, names);
    } else {
      FirstExists(rest);
      var first :| IsFirst(first, rest);
      LessTotal(some, first);
      var least := if Less(some, first) then some else first;
      forall name | name in names ensures name == least || Less(least, name) {
        assert name == some || name in rest;
        if Less(some, first) && Less(first, name) {
          LessTransitive(some, first, name);
        }
      }
      assert IsFirst(least, names);
    }
  }

  lemma FirstUnique(names: set<string>)
    ensures forall a, b :: IsFirst(a, names) && IsFirst(b, names) ==> a == b
  {
    forall a, b | IsFirst(a, names) && IsFirst(b, names) ensures a == b {
      LessTotal(a, b);
    }
  }

  /** The names of a set in byte order. */
  function Listing(names: set<string>): (out: seq<string>)
    ensures forall name :: name in out <==> name in names
    ensures forall i, j :: 0 <= i < j < |out| ==> out[i] != out[j]
  {
    if names == {} then []
    else
      FirstExists(names);
      FirstUnique(names);
      var first :| IsFirst(first, names);
      var rest := Listing(names - {first});
      ListingStep(first, names, rest);
      [first] + rest
  }

  lemma ListingStep(first: string, names: set<string>, rest: seq<string>)
    requires first in names && forall name :: name in rest <==> name in names - {first}
    requires forall i, j :: 0 <= i < j < |rest| ==> rest[i] != rest[j]
    ensures forall name :: name in [first] + rest <==> name in names
    ensures forall i, j :: 0 <= i < j < |rest| + 1 ==> ([first] + rest)[i] != ([first] + rest)[j]
  {
    forall k | 0 <= k < |rest| ensures rest[k] != first { assert rest[k] in rest; }
  }
}
