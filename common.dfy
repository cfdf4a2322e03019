// Shared value types and sequence helpers used by every component model.

module Common {

  /** C++ unsigned widths, written out so that wrap-around is explicit. */
  const U32_LIMIT: int := 0x1_0000_0000
  const U64_LIMIT: int := 0x1_0000_0000_0000_0000
  const UINT32_MAX: int := U32_LIMIT - 1

  type u32 = x: int | 0 <= x < U32_LIMIT
  type u64 = x: int | 0 <= x < U64_LIMIT

  datatype Option<+T> = None | Some(value: T)
  {
    function GetOr(default: T): T
    {
      if Some? then value else default
    }
  }

  datatype Result<+T, +E> = Success(value: T) | Failure(error: E)

  /** std::clamp(v, lo, hi): a value inside [lo, hi], and v itself when v already is. */
  function Clamp(v: int, lo: int, hi: int): (r: int)
    ensures lo <= hi ==> lo <= r <= hi
    ensures lo <= v <= hi ==> r == v
    ensures v < lo ==> r == lo
    ensures lo <= hi && hi < v ==> r == hi
  {
    if v < lo then lo else if hi < v then hi else v
  }

  /** The first entry of a preference list that is also available, if any. */
  function FirstPreferred<T(==)>(prefs: seq<T>, available: seq<T>): (r: Option<T>)
    ensures r.None? <==> forall i :: 0 <= i < |prefs| ==> prefs[i] !in available
    ensures r.Some? ==> r.value in available && r.value in prefs
    ensures r.Some? ==> exists i :: 0 <= i < |prefs| && prefs[i] == r.value &&
                         forall j :: 0 <= j < i ==> prefs[j] !in available
  {
    if |prefs| == 0 then None
    else if prefs[0] in available then Some(prefs[0])
    else
      var rest := FirstPreferred(prefs[1..], available);
      assert forall i :: 1 <= i < |prefs| ==> prefs[i] == prefs[1..][i - 1];
      if rest.Some? then
        ghost var i :| 0 <= i < |prefs[1..]| && prefs[1..][i] == rest.value &&
                       forall j :: 0 <= j < i ==> prefs[1..][j] !in available;
        assert prefs[i + 1] == rest.value;
        assert forall j :: 0 <= j < i + 1 ==> prefs[j] !in available by {
          forall j | 0 <= j < i + 1 ensures prefs[j] !in available {
            if j > 0 { assert prefs[j] == prefs[1..][j - 1]; }
          }
        }
        rest
      else
        rest
  }

  /** The linear preference search the source writes as a loop with `std::find` and `break`. */
  method FindFirstPreferred<T(==)>(prefs: seq<T>, available: seq<T>) returns (r: Option<T>)
    ensures r == FirstPreferred(prefs, available)
  {
    r := None;
    var i := 0;
    while i < |prefs|
      invariant 0 <= i <= |prefs|
      invariant FirstPreferred(prefs, available) == FirstPreferred(prefs[i..], available)
    {
      if prefs[i] in available {
        r := Some(prefs[i]);
        return;
      }
      assert prefs[i..][1..] == prefs[i + 1..];
      i := i + 1;
    }
  }

  predicate StrictlyIncreasing(s: seq<nat>)
  {
    forall i, j :: 0 <= i < j < |s| ==> s[i] < s[j]
  }

  predicate Distinct<T(==)>(s: seq<T>)
  {
    forall i, j :: 0 <= i < j < |s| ==> s[i] != s[j]
  }

  function Elements<T>(s: seq<T>): set<T>
  {
    set x | x in s
  }

  lemma {:induction false} DistinctCard<T>(s: seq<T>)
    requires Distinct(s)
    ensures |Elements(s)| == |s|
  {
    if |s| > 0 {
      var init := s[..|s| - 1];
      assert Distinct(init);
      DistinctCard(init);
      assert Elements(s) == Elements(init) + {s[|s| - 1]};
      assert s[|s| - 1] !in Elements(init);
    }
  }

  lemma {:induction false} MinBelow(s: set<nat>, x: nat)
    requires x in s
    ensures exists m :: m in s && forall y :: y in s ==> m <= y
    decreases x
  {
    if exists y :: y in s && y < x {
      var y :| y in s && y < x;
      MinBelow(s, y);
    } else {
      assert forall y :: y in s ==> x <= y;
    }
  }

  lemma IncreasingSnoc(r: seq<nat>, m: nat)
    requires StrictlyIncreasing(r)
    requires |r| > 0 ==> r[|r| - 1] < m
    ensures StrictlyIncreasing(r + [m])
  {
    var t := r + [m];
    forall i, j | 0 <= i < j < |t| ensures t[i] < t[j] {
      if j < |r| {
        assert t[i] == r[i] && t[j] == r[j];
      } else if i < |r| - 1 {
        assert r[i] < r[|r| - 1];
      }
    }
  }

  /** The loop invariant of AscendingOrder: `r` lists, in increasing order, the elements of `s`
      taken so far, all of them below what is left in `rest`. */
  ghost predicate AscendingSoFar(s: set<nat>, r: seq<nat>, rest: set<nat>)
  {
    StrictlyIncreasing(r) && rest <= s &&
    (forall x :: x in s <==> x in r || x in rest) &&
    (forall x :: x in r ==> x !in rest) &&
    (|r| > 0 ==> forall y :: y in rest ==> r[|r| - 1] < y) &&
    |r| + |rest| == |s|
  }

  lemma AscendingStep(s: set<nat>, r: seq<nat>, rest: set<nat>, m: nat)
    requires AscendingSoFar(s, r, rest)
    requires m in rest && forall y :: y in rest ==> m <= y
    ensures AscendingSoFar(s, r + [m], rest - {m})
  {
    IncreasingSnoc(r, m);
    assert |rest - {m}| == |rest| - 1;
    forall x ensures x in r + [m] <==> x in r || x == m { }
  }

  /** The ascending key order in which a std::map or std::set of numbers is iterated. */
  method AscendingOrder(s: set<nat>) returns (r: seq<nat>)
    ensures StrictlyIncreasing(r)
    ensures forall x :: x in r <==> x in s
    ensures |r| == |s|
  {
    r := [];
    var rest := s;
    while rest != {}
      invariant AscendingSoFar(s, r, rest)
      decreases |rest|
    {
      var x :| x in rest;
      MinBelow(rest, x);
      var m: nat :| m in rest && forall y :: y in rest ==> m <= y;
      AscendingStep(s, r, rest, m);
      r := r + [m];
      rest := rest - {m};
    }
  }

  /** The least element of a non-empty set of numbers. */
  ghost function Min(s: set<nat>): (m: nat)
    requires s != {}
    ensures m in s && forall y :: y in s ==> m <= y
  {
    var x :| x in s;
    MinBelow(s, x);
    var m :| m in s && forall y :: y in s ==> m <= y;
    m
  }

  /** `r` lists the elements of `s` in strictly ascending order. */
  ghost predicate SortedListing(s: set<nat>, r: seq<nat>)
  {
    StrictlyIncreasing(r) && (forall x :: x in r <==> x in s) && |r| == |s|
  }

  lemma {:induction false} SortedListingExists(s: set<nat>)
    ensures exists r :: SortedListing(s, r)
    decreases |s|
  {
    if s == {} {
      assert SortedListing(s, []);
    } else {
      var m := Min(s);
      SortedListingExists(s - {m});
      var rest :| SortedListing(s - {m}, rest);
      assert forall i :: 0 <= i < |rest| ==> m < rest[i] by {
        forall i | 0 <= i < |rest| ensures m < rest[i] {
          assert rest[i] in s - {m};
        }
      }
      IncreasingCons(m, rest);
      assert forall x :: x in [m] + rest <==> x == m || x in rest;
      assert SortedListing(s, [m] + rest);
    }
  }

  /** The elements of a set of numbers in ascending order: the order a std::map or std::set iterates in. */
  ghost function SortedKeys(s: set<nat>): seq<nat>
  {
    SortedListingExists(s);
    var r :| SortedListing(s, r);
    r
  }

  lemma SortedKeysMeaning(s: set<nat>)
    ensures var r := SortedKeys(s); StrictlyIncreasing(r) && (forall x :: x in r <==> x in s) && |r| == |s|
  {
  }

  lemma IncreasingCons(m: nat, r: seq<nat>)
    requires StrictlyIncreasing(r) && forall i :: 0 <= i < |r| ==> m < r[i]
    ensures StrictlyIncreasing([m] + r)
  {
    var t := [m] + r;
    forall i, j | 0 <= i < j < |t| ensures t[i] < t[j] {
      if i > 0 {
        assert t[i] == r[i - 1] && t[j] == r[j - 1];
      } else {
        assert t[j] == r[j - 1];
      }
    }
  }

  lemma IncreasingFirstLeast(s: seq<nat>, k: nat)
    requires StrictlyIncreasing(s) && k < |s|
    ensures s[0] <= s[k]
  {
    if k > 0 { assert s[0] < s[k]; }
  }

  /** Two strictly increasing sequences with the same elements are equal. */
  lemma {:induction false} IncreasingUnique(a: seq<nat>, b: seq<nat>)
    requires StrictlyIncreasing(a) && StrictlyIncreasing(b)
    requires forall x :: x in a <==> x in b
    ensures a == b
    decreases |a|
  {
    if a != [] && b != [] {
      HeadsAgree(a, b);
      TailsAgree(a, b);
      IncreasingUnique(a[1..], b[1..]);
      assert a == [a[0]] + a[1..] && b == [b[0]] + b[1..];
    } else {
      assert Elements(a) == Elements(b);
      DistinctCard(a);
      DistinctCard(b);
    }
  }

  lemma HeadsAgree(a: seq<nat>, b: seq<nat>)
    requires StrictlyIncreasing(a) && StrictlyIncreasing(b) && a != [] && b != []
    requires forall x :: x in a <==> x in b
    ensures a[0] == b[0]
  {
    assert a[0] in b && b[0] in a;
    var i :| 0 <= i < |b| && b[i] == a[0];
    var j :| 0 <= j < |a| && a[j] == b[0];
    IncreasingFirstLeast(b, i);
    IncreasingFirstLeast(a, j);
  }

  lemma TailsAgree(a: seq<nat>, b: seq<nat>)
    requires StrictlyIncreasing(a) && StrictlyIncreasing(b) && a != [] && b != [] && a[0] == b[0]
    requires forall x :: x in a <==> x in b
    ensures forall x :: x in a[1..] <==> x in b[1..]
  {
    forall x | x in a[1..] ensures x in b[1..] {
      TailMember(a, b, x);
    }
    forall x | x in b[1..] ensures x in a[1..] {
      TailMember(b, a, x);
    }
  }

  lemma TailMember(a: seq<nat>, b: seq<nat>, x: nat)
    requires StrictlyIncreasing(a) && a != [] && b != [] && a[0] == b[0]
    requires x in a[1..] && x in b
    ensures x in b[1..]
  {
    var i :| 1 <= i < |a| && a[i] == x;
    var k :| 0 <= k < |b| && b[k] == x;
    assert a[0] < x;
    assert k != 0 && b[1..][k - 1] == x;
  }

  /** AscendingOrder walks a set in exactly the order SortedKeys lists it. */
  lemma AscendingIsSorted(s: set<nat>, r: seq<nat>)
    requires StrictlyIncreasing(r) && forall x :: x in r <==> x in s
    ensures r == SortedKeys(s)
  {
    SortedKeysMeaning(s);
    IncreasingUnique(r, SortedKeys(s));
  }

  /** Walks a set in an unspecified order, each element once. */
  method Enumerate<T(==)>(s: set<T>) returns (r: seq<T>)
    ensures Distinct(r)
    ensures forall x :: x in r <==> x in s
  {
    r := [];
    var rest := s;
    while rest != {}
      invariant Distinct(r)
      invariant forall x :: x in s <==> x in r || x in rest
      invariant forall x :: x in r ==> x !in rest
      decreases |rest|
    {
      var x :| x in rest;
      r := r + [x];
      rest := rest - {x};
    }
  }

  /** `n` copies of `x`. */
  function Repeat<T>(x: T, n: nat): (r: seq<T>)
    ensures |r| == n && forall k :: 0 <= k < n ==> r[k] == x
  {
    seq(n, _ => x)
  }

  /** Four appends one at a time are one append of four. */
  lemma AppendFour<T>(s: seq<T>, t: seq<T>)
    requires |t| == 4
    ensures s + [t[0]] + [t[1]] + [t[2]] + [t[3]] == s + t
  {
    assert t == [t[0], t[1], t[2], t[3]];
  }

  /** Keeps the first appearance of every value, in order. */
  function Dedup(s: seq<nat>): (r: seq<nat>)
    ensures Distinct(r)
    ensures forall x :: x in r <==> x in s
  {
    if s == [] then []
    else
      var d := Dedup(s[..|s| - 1]);
      assert forall x :: x in s <==> x in s[..|s| - 1] || x == s[|s| - 1];
      if s[|s| - 1] in d then d else d + [s[|s| - 1]]
  }

  lemma DedupSnoc(s: seq<nat>, x: nat)
    ensures Dedup(s + [x]) == if x in s then Dedup(s) else Dedup(s) + [x]
  {
    assert (s + [x])[..|s|] == s;
  }
}
