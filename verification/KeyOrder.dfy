/**
 The order in which `std::map` and `std::set` visit string keys: lexicographic on bytes.  The scope
 set of a client is kept as the ascending list of its elements, with `Insert` as the operation.
 */
module KeyOrder {
  import opened ByteStrings

  predicate Less(a: Bytes, b: Bytes) {
    if b == [] then false
    else if a == [] then true
    else a[0] < b[0] || (a[0] == b[0] && Less(a[1..], b[1..]))
  }

  lemma {:induction false} LessIrreflexive(a: Bytes)
    ensures !Less(a, a)
  {
    if a != [] {
      LessIrreflexive(a[1..]);
    }
  }

  lemma {:induction false} LessTransitive(a: Bytes, b: Bytes, c: Bytes)
    requires Less(a, b) && Less(b, c)
    ensures Less(a, c)
  {
    if a != [] && a[0] == b[0] && b[0] == c[0] {
      LessTransitive(a[1..], b[1..], c[1..]);
    }
  }

  lemma {:induction false} LessTotal(a: Bytes, b: Bytes)
    ensures Less(a, b) || a == b || Less(b, a)
  {
    if a != [] && b != [] && a[0] == b[0] {
      LessTotal(a[1..], b[1..]);
      assert a == [a[0]] + a[1..] && b == [b[0]] + b[1..];
    }
  }

  /** At `n` the strings differ for the first time: `a` ends there, or has the smaller byte. */
  predicate DiffersAt(a: Bytes, b: Bytes, n: nat) {
    && n <= |a| && n < |b| && a[..n] == b[..n]
    && (n == |a| || a[n] < b[n])
  }

  /** The order compares the first byte that differs, and puts a proper prefix first. */
  lemma {:induction false} LessMeaning(a: Bytes, b: Bytes)
    ensures Less(a, b) <==> exists n: nat :: DiffersAt(a, b, n)
  {
    if a != [] && b != [] && a[0] == b[0] {
      LessMeaning(a[1..], b[1..]);
      if Less(a, b) {
        var n: nat :| DiffersAt(a[1..], b[1..], n);
        assert a[..n + 1] == [a[0]] + a[1..][..n] && b[..n + 1] == [b[0]] + b[1..][..n];
        assert DiffersAt(a, b, n + 1);
      }
      if n: nat :| DiffersAt(a, b, n) {
        assert n > 0;
        assert a[1..][..n - 1] == a[..n][1..] && b[1..][..n - 1] == b[..n][1..];
        assert DiffersAt(a[1..], b[1..], n - 1);
      }
    } else if b != [] {
      if Less(a, b) {
        assert DiffersAt(a, b, 0);
      }
      if n: nat :| DiffersAt(a, b, n) {
        assert n > 0 ==> a[..n][0] == b[..n][0];
      }
    }
  }

  predicate Ascending(s: seq<Bytes>) {
    forall i, j :: 0 <= i < j < |s| ==> Less(s[i], s[j])
  }

  ghost function Elements(s: seq<Bytes>): set<Bytes> {
    set x | x in s
  }

  /** An ascending list has one place for each element and is fixed by its element set. */
  lemma {:induction false} AscendingUnique(a: seq<Bytes>, b: seq<Bytes>)
    requires Ascending(a) && Ascending(b) && Elements(a) == Elements(b)
    ensures a == b
  {
    EmptyElements(a);
    EmptyElements(b);
    if a != [] {
      assert a[0] in Elements(b);
      assert b[0] in Elements(a);
      HeadLeast(a, b[0]);
      HeadLeast(b, a[0]);
      if a[0] != b[0] {
        LessTransitive(a[0], b[0], a[0]);
        LessIrreflexive(a[0]);
      }
      TailElements(a);
      TailElements(b);
      AscendingUnique(a[1..], b[1..]);
      assert a == [a[0]] + a[1..] && b == [b[0]] + b[1..];
    }
  }

  lemma EmptyElements(a: seq<Bytes>)
    ensures a == [] <==> Elements(a) == {}
  {
    if a != [] {
      assert a[0] in Elements(a);
    }
  }

  lemma HeadLeast(a: seq<Bytes>, x: Bytes)
    requires Ascending(a) && x in a
    ensures x == a[0] || Less(a[0], x)
  {
  }

  lemma TailElements(a: seq<Bytes>)
    requires Ascending(a) && a != []
    ensures Ascending(a[1..]) && Elements(a[1..]) == Elements(a) - {a[0]}
  {
    LessIrreflexive(a[0]);
    assert a == [a[0]] + a[1..];
    forall x | x in a[1..] ensures x != a[0] {
    }
    forall x | x in a && x != a[0] ensures x in a[1..] {
    }
  }

  /** `std::set::insert` on the ascending list. */
  function Insert(s: seq<Bytes>, x: Bytes): seq<Bytes> {
    if s == [] then [x]
    else if s[0] == x then s
    else if Less(x, s[0]) then [x] + s
    else [s[0]] + Insert(s[1..], x)
  }

  lemma AscendingCons(x: Bytes, s: seq<Bytes>)
    requires Ascending(s) && forall y :: y in s ==> Less(x, y)
    ensures Ascending([x] + s)
    ensures Elements([x] + s) == {x} + Elements(s)
  {
    hide Less;
  }

  lemma {:induction false} InsertElements(s: seq<Bytes>, x: Bytes)
    requires Ascending(s)
    ensures Elements(Insert(s, x)) == Elements(s) + {x}
    ensures Ascending(Insert(s, x))
  {
    hide Less, Ascending, Elements;
    if s == [] {
      AscendingOne(x);
    } else {
      AscendingTail(s);
      if Less(x, s[0]) {
        forall y | y in s[1..] ensures Less(x, y) {
          LessTransitive(x, s[0], y);
        }
        AscendingCons(x, s);
      } else if s[0] != x {
        LessTotal(x, s[0]);
        InsertElements(s[1..], x);
        ElementOf(Insert(s[1..], x));
        ElementOf(s[1..]);
        AscendingCons(s[0], Insert(s[1..], x));
      }
    }
  }

  lemma AscendingOne(x: Bytes)
    ensures Ascending([x]) && Elements([]) == {} && Elements([x]) == {x}
  {
  }

  lemma AscendingTail(s: seq<Bytes>)
    requires Ascending(s) && s != []
    ensures Ascending(s[1..]) && forall y :: y in s[1..] ==> Less(s[0], y)
    ensures Elements(s) == {s[0]} + Elements(s[1..])
  {
    assert s == [s[0]] + s[1..];
    hide Less;
  }

  lemma ElementOf(s: seq<Bytes>)
    ensures forall y :: y in Elements(s) <==> y in s
  {
  }

  /** The list depends on what was inserted, not on when. */
  lemma InsertCommutes(s: seq<Bytes>, x: Bytes, y: Bytes)
    requires Ascending(s)
    ensures Insert(Insert(s, x), y) == Insert(Insert(s, y), x)
  {
    InsertElements(s, x);
    InsertElements(s, y);
    InsertElements(Insert(s, x), y);
    InsertElements(Insert(s, y), x);
    AscendingUnique(Insert(Insert(s, x), y), Insert(Insert(s, y), x));
  }

  /** `x` comes first in `s`. */
  ghost predicate Least(s: set<Bytes>, x: Bytes) {
    x in s && forall y :: y in s ==> y == x || Less(x, y)
  }

  lemma {:induction false} LeastExists(s: set<Bytes>) returns (x: Bytes)
    requires s != {}
    ensures Least(s, x)
  {
    x :| x in s;
    if s - {x} != {} {
      var y := LeastExists(s - {x});
      LessTotal(x, y);
      if Less(y, x) {
        x := y;
      } else {
        forall z | z in s && z != x ensures Less(x, z) {
          if z != y {
            LessTransitive(x, y, z);
          }
        }
      }
    } else {
      assert s == {x};
    }
  }

  /** The keys of a map in visiting order. */
  ghost function KeysInOrder(s: set<Bytes>): (r: seq<Bytes>)
    ensures Elements(r) == s
    ensures Ascending(r)
  {
    if s == {} then []
    else
      var x := LeastKey(s);
      var r := KeysInOrder(s - {x});
      assert Elements([x] + r) == {x} + Elements(r);
      assert forall i :: 0 <= i < |r| ==> r[i] in Elements(r);
      [x] + r
  }

  ghost function LeastKey(s: set<Bytes>): (x: Bytes)
    requires s != {}
    ensures Least(s, x)
  {
    assert exists x :: Least(s, x) by {
      var x := LeastExists(s);
    }
    var x :| Least(s, x);
    x
  }
}
