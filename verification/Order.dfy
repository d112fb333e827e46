/** The order that Go's `<` gives strings, and the order in which the provider
    lists resources after sorting them. */
module Order {

  /** Lexicographic order on strings. */
  predicate StrLess(a: string, b: string)
  {
    b != [] && (a == [] || a[0] < b[0] || (a[0] == b[0] && StrLess(a[1..], b[1..])))
  }

  lemma StrIrreflexive(a: string)
    ensures !StrLess(a, a)
  {
  }

  lemma {:induction false} StrTransitive(a: string, b: string, c: string)
    requires StrLess(a, b) && StrLess(b, c)
    ensures StrLess(a, c)
  {
    if a != [] && a[0] == b[0] && b[0] == c[0] {
      StrTransitive(a[1..], b[1..], c[1..]);
    }
  }

  lemma {:induction false} StrTotal(a: string, b: string)
    ensures a == b || StrLess(a, b) || StrLess(b, a)
  {
    if a != [] && b != [] && a[0] == b[0] {
      StrTotal(a[1..], b[1..]);
      if a[1..] == b[1..] {
        assert a == [a[0]] + a[1..] && b == [b[0]] + b[1..];
      }
    }
  }

  /** The strings agree up to a position where the first ends or has the lesser
      character. */
  predicate LessAt(a: string, b: string, k: int)
  {
    0 <= k <= |a| && k < |b| && a[..k] == b[..k] && (k == |a| || a[k] < b[k])
  }

  /** The order of strings is the dictionary order. */
  lemma {:induction false} DictionaryOrder(a: string, b: string)
    ensures StrLess(a, b) <==> exists k :: LessAt(a, b, k)
  {
    if b != [] && (a == [] || a[0] < b[0]) {
      assert LessAt(a, b, 0);
    } else if b != [] && a[0] == b[0] {
      DictionaryOrder(a[1..], b[1..]);
      if k :| LessAt(a[1..], b[1..], k) {
        assert a[..k + 1] == [a[0]] + a[1..][..k] && b[..k + 1] == [b[0]] + b[1..][..k];
        assert LessAt(a, b, k + 1);
      }
      if k :| LessAt(a, b, k) {
        assert a[1..][..k - 1] == a[..k][1..] && b[1..][..k - 1] == b[..k][1..];
        assert LessAt(a[1..], b[1..], k - 1);
      }
    } else if a != [] && b != [] {
      assert forall k :: 0 < k <= |a| && k <= |b| ==> a[..k][0] == a[0] && b[..k][0] == b[0];
    }
  }

  /** Every listing in the provider is sorted by one of three keys: the resource
      ID, (position, ID) for L7 policies, or (address, port, ID) for members.
      Unused components are constant. */
  datatype SortKey = SortKey(major: string, minor: int, id: string)

  predicate KeyLess(a: SortKey, b: SortKey)
  {
    if a.major != b.major then StrLess(a.major, b.major)
    else if a.minor != b.minor then a.minor < b.minor
    else StrLess(a.id, b.id)
  }

  lemma KeyIrreflexive(a: SortKey)
    ensures !KeyLess(a, a)
  {
    StrIrreflexive(a.id);
  }

  lemma KeyTransitive(a: SortKey, b: SortKey, c: SortKey)
    requires KeyLess(a, b) && KeyLess(b, c)
    ensures KeyLess(a, c)
  {
    if a.major != b.major && b.major != c.major {
      StrTransitive(a.major, b.major, c.major);
      StrIrreflexive(a.major);
      if a.major == c.major {
        StrIrreflexive(a.major);
      }
    } else if a.major == b.major == c.major && a.minor == b.minor == c.minor {
      StrTransitive(a.id, b.id, c.id);
    }
  }

  lemma KeyTotal(a: SortKey, b: SortKey)
    ensures a == b || KeyLess(a, b) || KeyLess(b, a)
  {
    StrTotal(a.major, b.major);
    StrTotal(a.id, b.id);
  }

  lemma KeyAsymmetric(a: SortKey, b: SortKey)
    requires KeyLess(a, b)
    ensures a != b && !KeyLess(b, a)
  {
    KeyIrreflexive(a);
    if KeyLess(b, a) {
      KeyTransitive(a, b, a);
    }
  }

  ghost predicate IsLeast(m: SortKey, s: set<SortKey>)
  {
    m in s && forall k :: k in s && k != m ==> KeyLess(m, k)
  }

  lemma {:induction false} LeastExists(s: set<SortKey>)
    requires s != {}
    ensures exists m :: IsLeast(m, s)
  {
    var x :| x in s;
    var rest := s - {x};
    if rest == {} {
      assert s == {x} + rest;
      assert IsLeast(x, s);
    } else {
      LeastExists(rest);
      var m :| IsLeast(m, rest);
      KeyTotal(x, m);
      if KeyLess(x, m) {
        forall k | k in s && k != x ensures KeyLess(x, k) {
          if k != m {
            KeyTransitive(x, m, k);
          }
        }
        assert IsLeast(x, s);
      } else {
        assert IsLeast(m, s);
      }
    }
  }

  /** The listing of a finite set of resources in sorted order. */
  ghost function Sorted(s: set<SortKey>): (r: seq<SortKey>)
  {
    if s == {} then []
    else
      LeastExists(s);
      var m :| IsLeast(m, s);
      [m] + Sorted(s - {m})
  }

  /** Sorting loses nothing and invents nothing. */
  lemma {:induction false} SortedElements(s: set<SortKey>)
    ensures forall k :: k in Sorted(s) <==> k in s
    ensures (Sorted(s) == []) == (s == {})
  {
    if s != {} {
      LeastExists(s);
      var m := Sorted(s)[0];
      SortedElements(s - {m});
    }
  }

  /** A listing repeats nothing. */
  lemma {:induction false} SortedDistinct(s: set<SortKey>)
    ensures forall i, j :: 0 <= i < j < |Sorted(s)| ==> Sorted(s)[i] != Sorted(s)[j]
  {
    if s != {} {
      LeastExists(s);
      var m := Sorted(s)[0];
      SortedDistinct(s - {m});
      SortedElements(s - {m});
      forall j | 1 <= j < |Sorted(s)| ensures Sorted(s)[j] != m {
        assert Sorted(s)[j] == Sorted(s - {m})[j - 1];
        assert Sorted(s)[j] in Sorted(s - {m});
      }
    }
  }

  /** The head of a listing is a member, and what follows it is the listing
      without it. */
  lemma SortedHead(s: set<SortKey>)
    requires s != {}
    ensures Sorted(s) != [] && Sorted(s)[0] in s
    ensures Sorted(s - {Sorted(s)[0]}) == Sorted(s)[1..]
  {
    LeastExists(s);
  }

  /** A listing begins with its least element. */
  lemma SortedLeast(s: set<SortKey>)
    requires s != {}
    ensures Sorted(s) != [] && IsLeast(Sorted(s)[0], s)
  {
    LeastExists(s);
  }

  ghost predicate StrictlySorted(r: seq<SortKey>)
  {
    forall i, j :: 0 <= i < j < |r| ==> KeyLess(r[i], r[j])
  }

  /** A listing is in increasing order. */
  lemma {:induction false} SortedIncreasing(s: set<SortKey>)
    ensures StrictlySorted(Sorted(s))
  {
    if s != {} {
      LeastExists(s);
      var m := Sorted(s)[0];
      SortedIncreasing(s - {m});
      SortedElements(s - {m});
      var rest := Sorted(s - {m});
      assert Sorted(s) == [m] + rest;
      assert forall j :: 0 <= j < |rest| ==> rest[j] in rest && KeyLess(m, rest[j]);
    }
  }

  /** A sorted sequence is determined by its elements, so the order in which the
      API returns a listing cannot influence a plan. */
  lemma {:induction false} SortedUnique(r: seq<SortKey>, s: set<SortKey>)
    requires StrictlySorted(r)
    requires forall k :: k in r <==> k in s
    ensures r == Sorted(s)
  {
    if r == [] {
      assert s == {};
    } else {
      assert r[0] in s;
      LeastExists(s);
      var m := Sorted(s)[0];
      assert IsLeast(m, s);
      if r[0] != m {
        var i :| 0 <= i < |r| && r[i] == m;
        KeyAsymmetric(r[0], m);
        assert false;
      }
      forall k ensures k in r[1..] <==> k in s - {m} {
        if k in r[1..] {
          KeyAsymmetric(r[0], k);
        }
        if k in s - {m} {
          assert k in r && k != r[0];
        }
      }
      SortedUnique(r[1..], s - {m});
    }
  }

  /** Puts one item into a sorted listing. */
  function Insert(r: seq<SortKey>, k: SortKey): (q: seq<SortKey>)
    ensures forall x :: x in q <==> x in r || x == k
  {
    if r == [] then [k]
    else if KeyLess(k, r[0]) then [k] + r
    else
      var q := Insert(r[1..], k);
      assert forall x :: x in r <==> x == r[0] || x in r[1..];
      [r[0]] + q
  }

  lemma {:induction false} InsertSorted(r: seq<SortKey>, k: SortKey)
    requires StrictlySorted(r) && k !in r
    ensures StrictlySorted(Insert(r, k))
  {
    if r != [] {
      if KeyLess(k, r[0]) {
        forall i | 0 <= i < |r| ensures KeyLess(k, r[i]) {
          if i > 0 {
            KeyTransitive(k, r[0], r[i]);
          }
        }
      } else {
        KeyTotal(k, r[0]);
        InsertSorted(r[1..], k);
        var q := Insert(r[1..], k);
        forall i | 0 <= i < |q| ensures KeyLess(r[0], q[i]) {
          assert q[i] in q;
        }
      }
    }
  }

  /** An API listing arrives in no particular order and is then sorted. */
  method ListSorted(s: set<SortKey>) returns (r: seq<SortKey>)
    ensures r == Sorted(s)
  {
    r := [];
    var rest := s;
    while rest != {}
      invariant rest <= s
      invariant StrictlySorted(r)
      invariant forall k :: k in r <==> k in s - rest
      decreases rest
    {
      var k :| k in rest;
      InsertSorted(r, k);
      r := Insert(r, k);
      rest := rest - {k};
    }
    SortedUnique(r, s);
  }
}
