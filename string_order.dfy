/**
 * Kotlin's natural order on strings (`String.compareTo`: code unit by code unit,
 * a proper prefix before its extensions) and `List<String>.sorted()`.
 */
module StringOrder {

  /** The first UTF-16 code unit of `c`: itself, or the high surrogate of its pair. */
  function LeadUnit(c: char): (u: int)
    ensures c as int < 0x1_0000 ==> u == c as int
    ensures c as int >= 0x1_0000 ==> 0xD800 <= u < 0xDC00
  {
    if c as int < 0x1_0000 then c as int else 0xD800 + (c as int - 0x1_0000) / 0x400
  }

  /**
   * A rank that orders characters as their UTF-16 code units compare: the lead unit
   * first, then (for a surrogate pair) the low ten bits of the trailing unit.
   */
  function Utf16Rank(c: char): (r: int)
    ensures r / 0x400 == LeadUnit(c)
  {
    if c as int < 0x1_0000 then c as int * 0x400 else 0xD800 * 0x400 + (c as int - 0x1_0000)
  }

  /** Different characters have different ranks, and a smaller lead unit means a smaller rank. */
  lemma Utf16RankOrder(a: char, b: char)
    ensures a != b ==> Utf16Rank(a) != Utf16Rank(b)
    ensures LeadUnit(a) < LeadUnit(b) ==> Utf16Rank(a) < Utf16Rank(b)
    ensures LeadUnit(a) == LeadUnit(b) && a != b ==> a as int >= 0x1_0000 && b as int >= 0x1_0000
    ensures a as int >= 0x1_0000 && b as int >= 0x1_0000 ==> (Utf16Rank(a) < Utf16Rank(b) <==> a < b)
  {
  }

  /**
   * A character outside the Basic Multilingual Plane sorts before U+E000..U+FFFF,
   * whose code units exceed its high surrogate, although its code point is larger.
   */
  lemma SurrogatesBeforeHighPlane()
    ensures Utf16Rank('\U{1F600}') < Utf16Rank('\U{FF21}') && '\U{FF21}' < '\U{1F600}'
    ensures LexLe("\U{1F600}", "\U{FF21}") && !LexLe("\U{FF21}", "\U{1F600}")
  {
  }

  /** `a.compareTo(b) <= 0`: code unit by code unit, a proper prefix before its extensions. */
  predicate LexLe(a: string, b: string)
    decreases |a|
  {
    if a == [] then true
    else if b == [] then false
    else if a[0] != b[0] then Utf16Rank(a[0]) < Utf16Rank(b[0])
    else LexLe(a[1..], b[1..])
  }

  // ---------------------------------------------------------------- the order on code units

  /** The UTF-16 encoding of `c`: one unit, or a high and a low surrogate. */
  function Units(c: char): (u: seq<int>)
    ensures u != [] && u[0] == LeadUnit(c)
  {
    if c as int < 0x1_0000 then [c as int]
    else [LeadUnit(c), 0xDC00 + (c as int - 0x1_0000) % 0x400]
  }

  /** The UTF-16 encoding of a string, as the JVM stores it. */
  function Encode(s: string): seq<int>
  {
    if s == [] then [] else Units(s[0]) + Encode(s[1..])
  }

  /** Lexicographic order on code-unit sequences, what `String.compareTo` computes. */
  predicate UnitsLe(x: seq<int>, y: seq<int>)
    decreases |x|
  {
    if x == [] then true
    else if y == [] then false
    else if x[0] != y[0] then x[0] < y[0]
    else UnitsLe(x[1..], y[1..])
  }

  lemma {:induction false} UnitsLeCommonPrefix(u: seq<int>, x: seq<int>, y: seq<int>)
    ensures UnitsLe(u + x, u + y) == UnitsLe(x, y)
    decreases |u|
  {
    if u == [] {
      assert u + x == x && u + y == y;
    } else {
      assert (u + x)[0] == (u + y)[0];
      assert (u + x)[1..] == u[1..] + x && (u + y)[1..] == u[1..] + y;
      UnitsLeCommonPrefix(u[1..], x, y);
    }
  }

  /** Two different characters' encodings differ within their first two units, and that decides. */
  lemma UnitsDecide(a: char, b: char, x: seq<int>, y: seq<int>)
    requires a != b
    ensures UnitsLe(Units(a) + x, Units(b) + y) == (Utf16Rank(a) < Utf16Rank(b))
  {
    Utf16RankOrder(a, b);
    Utf16RankOrder(b, a);
    var ua, ub := Units(a) + x, Units(b) + y;
    if LeadUnit(a) == LeadUnit(b) {
      assert ua[1..] == [Units(a)[1]] + x && ub[1..] == [Units(b)[1]] + y;
      assert ua[1..][0] == Units(a)[1] && ub[1..][0] == Units(b)[1];
      assert Units(a)[1] < Units(b)[1] <==> a < b;
      assert Units(a)[1] != Units(b)[1];
    }
  }

  /** `LexLe` is exactly the lexicographic order on the UTF-16 encodings. */
  lemma {:induction false} LexLeIsUnitOrder(a: string, b: string)
    ensures LexLe(a, b) <==> UnitsLe(Encode(a), Encode(b))
    decreases |a|
  {
    if a != [] && b != [] {
      if a[0] == b[0] {
        UnitsLeCommonPrefix(Units(a[0]), Encode(a[1..]), Encode(b[1..]));
        LexLeIsUnitOrder(a[1..], b[1..]);
      } else {
        UnitsDecide(a[0], b[0], Encode(a[1..]), Encode(b[1..]));
      }
    }
  }

  // ---------------------------------------------------------------- order laws

  lemma {:induction false} LexLeReflexive(a: string)
    ensures LexLe(a, a)
    decreases |a|
  {
    if a != [] {
      LexLeReflexive(a[1..]);
    }
  }

  lemma {:induction false} LexLeAntisymmetric(a: string, b: string)
    requires LexLe(a, b) && LexLe(b, a)
    ensures a == b
    decreases |a|
  {
    if a != [] && b != [] {
      LexLeAntisymmetric(a[1..], b[1..]);
      assert a == [a[0]] + a[1..] && b == [b[0]] + b[1..];
    }
  }

  lemma {:induction false} LexLeTransitive(a: string, b: string, c: string)
    requires LexLe(a, b) && LexLe(b, c)
    ensures LexLe(a, c)
    decreases |a|
  {
    if a != [] && b != [] && c != [] && a[0] == b[0] && b[0] == c[0] {
      LexLeTransitive(a[1..], b[1..], c[1..]);
    }
  }

  lemma {:induction false} LexLeTotal(a: string, b: string)
    ensures LexLe(a, b) || LexLe(b, a)
    decreases |a|
  {
    if a != [] && b != [] {
      if a[0] == b[0] {
        LexLeTotal(a[1..], b[1..]);
      } else {
        Utf16RankOrder(a[0], b[0]);
      }
    }
  }

  /** Ascending in the natural order. */
  predicate Sorted(s: seq<string>)
  {
    forall i, j :: 0 <= i < j < |s| ==> LexLe(s[i], s[j])
  }

  /** No element occurs twice (the elements of a `Set`). */
  predicate NoDuplicates<T(==)>(s: seq<T>)
  {
    forall i, j :: 0 <= i < j < |s| ==> s[i] != s[j]
  }

  /** `x` placed into a sorted list before the first element it does not exceed. */
  function Insert(x: string, s: seq<string>): (r: seq<string>)
    requires Sorted(s)
    ensures Sorted(r)
    ensures multiset(r) == multiset(s) + multiset{x}
  {
    if s == [] then [x]
    else if LexLe(x, s[0]) then
      LexLeBelowSorted(x, s);
      ConsSorted(x, s);
      [x] + s
    else
      LexLeTotal(x, s[0]);
      var rest := Insert(x, s[1..]);
      assert s == [s[0]] + s[1..];
      LexLeBelowAll(s[0], rest, multiset(s[1..]) + multiset{x});
      ConsSorted(s[0], rest);
      [s[0]] + rest
  }

  /** A least element in front of a sorted list keeps it sorted. */
  lemma ConsSorted(x: string, s: seq<string>)
    requires Sorted(s) && forall j :: 0 <= j < |s| ==> LexLe(x, s[j])
    ensures Sorted([x] + s)
  {
    var r := [x] + s;
    forall i, j | 0 <= i < j < |r| ensures LexLe(r[i], r[j]) {
      assert r[j] == s[j - 1];
      if i > 0 {
        assert r[i] == s[i - 1];
      }
    }
  }

  lemma LexLeBelowSorted(x: string, s: seq<string>)
    requires Sorted(s) && s != [] && LexLe(x, s[0])
    ensures forall j :: 0 <= j < |s| ==> LexLe(x, s[j])
  {
    forall j | 0 <= j < |s| ensures LexLe(x, s[j]) {
      if j > 0 {
        LexLeTransitive(x, s[0], s[j]);
      }
    }
  }

  lemma LexLeBelowAll(x: string, s: seq<string>, m: multiset<string>)
    requires multiset(s) == m
    requires forall y :: y in m ==> LexLe(x, y)
    ensures forall j :: 0 <= j < |s| ==> LexLe(x, s[j])
  {
    forall j | 0 <= j < |s| ensures LexLe(x, s[j]) {
      assert s[j] in multiset(s);
    }
  }

  /** `List<String>.sorted()`: the same elements, ascending. */
  function Sort(s: seq<string>): (r: seq<string>)
    ensures Sorted(r)
    ensures multiset(r) == multiset(s)
  {
    if s == [] then []
    else
      assert s == [s[0]] + s[1..];
      Insert(s[0], Sort(s[1..]))
  }

  /** Sorting keeps exactly the elements, and a list without duplicates stays without them. */
  lemma SortKeepsElements(s: seq<string>)
    ensures |Sort(s)| == |s|
    ensures forall x :: x in Sort(s) <==> x in s
    ensures NoDuplicates(s) ==> NoDuplicates(Sort(s)) && StrictlySorted(Sort(s))
  {
    var r := Sort(s);
    assert |r| == |multiset(r)| == |multiset(s)| == |s|;
    forall x ensures x in r <==> x in s {
      assert x in r <==> x in multiset(r);
      assert x in s <==> x in multiset(s);
    }
    if NoDuplicates(s) {
      forall i, j | 0 <= i < j < |r| ensures r[i] != r[j] {
        if r[i] == r[j] {
          MultiplicityOfDuplicate(r, i, j);
          MultiplicityInNoDuplicates(s, r[i]);
          assert false;
        }
      }
      forall i, j | 0 <= i < j < |r| ensures LexLe(r[i], r[j]) && r[i] != r[j] {
      }
    }
  }

  /** Strictly ascending: what `sorted()` gives on the elements of a `Set`. */
  predicate StrictlySorted(s: seq<string>)
  {
    forall i, j :: 0 <= i < j < |s| ==> LexLe(s[i], s[j]) && s[i] != s[j]
  }

  lemma MultiplicityOfDuplicate<T>(s: seq<T>, i: nat, j: nat)
    requires i < j < |s| && s[i] == s[j]
    ensures multiset(s)[s[i]] >= 2
  {
    assert s == s[..i] + [s[i]] + s[i + 1..j] + [s[j]] + s[j + 1..];
  }

  lemma {:induction false} MultiplicityInNoDuplicates<T>(s: seq<T>, x: T)
    requires NoDuplicates(s)
    ensures multiset(s)[x] <= 1
  {
    if s != [] {
      assert s == [s[0]] + s[1..];
      MultiplicityInNoDuplicates(s[1..], x);
      if x == s[0] {
        assert x !in s[1..];
      }
    }
  }

  /** The head of a sorted list is the least element of the list. */
  lemma SortedHeadIsLeast(s: seq<string>, x: string)
    requires Sorted(s) && x in s
    ensures LexLe(s[0], x)
  {
    if x == s[0] {
      LexLeReflexive(x);
    }
  }
}
