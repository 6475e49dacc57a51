/**
 Byte strings: the `std::string` of the C++ sources.  A byte is a character below 256, so string
 literals can be written as usual.  The module also holds the searches (`find`) and the splitting
 that the encoders and the readers of the other modules share.
 */
module ByteStrings {

  type Byte = c: char | c as int < 256 witness 'a'
  type Bytes = seq<Byte>

  datatype Option<+T> = None | Some(value: T) {
    predicate IsFailure() {
      None?
    }

    function PropagateFailure<U>(): Option<U>
      requires None?
    {
      None
    }

    function Extract(): T
      requires Some?
    {
      value
    }

    function GetOr(default: T): T {
      if Some? then value else default
    }
  }

  datatype Result<+T, +E> = Ok(value: T) | Err(error: E) {
    predicate IsFailure() {
      Err?
    }

    function PropagateFailure<U>(): Result<U, E>
      requires Err?
    {
      Err(error)
    }

    function Extract(): T
      requires Ok?
    {
      value
    }
  }

  const DIGITS: Bytes := "0123456789"
  const CAPITALS: Bytes := "ABCDEFGHIJKLMNOPQRSTUVWXYZ"
  const SMALLS: Bytes := "abcdefghijklmnopqrstuvwxyz"

  /** The digits and letters are where the table says. */
  lemma AlphabetPlaces(i: nat)
    ensures |DIGITS| == 10 && |CAPITALS| == |SMALLS| == 26
    ensures i < 10 ==> DIGITS[i] == ('0' as int + i) as char
    ensures i < 26 ==> CAPITALS[i] == ('A' as int + i) as char && SMALLS[i] == ('a' as int + i) as char
  {
  }

  /** Index of the first `c` in `s`, or `|s|`: `std::string::find` with `npos` read as the end. */
  function IndexOf(s: Bytes, c: Byte): (i: nat)
    ensures i <= |s|
    ensures c !in s[..i]
    ensures i < |s| ==> s[i] == c
  {
    if s == [] || s[0] == c then 0 else 1 + IndexOf(s[1..], c)
  }

  lemma {:induction false} IndexOfUnique(s: Bytes, c: Byte, i: nat)
    requires i < |s| && s[i] == c && c !in s[..i]
    ensures IndexOf(s, c) == i
  {
    if i > 0 {
      assert s[0] == s[..i][0];
      assert s[1..][..i - 1] == s[..i][1..];
      IndexOfUnique(s[1..], c, i - 1);
    }
  }

  lemma IndexOfAbsent(s: Bytes, c: Byte)
    requires c !in s
    ensures IndexOf(s, c) == |s|
  {
  }

  /** The first `c` of `a + [c] + b` is the one in the middle when `a` has none. */
  lemma IndexOfJoin(a: Bytes, c: Byte, b: Bytes)
    requires c !in a
    ensures IndexOf(a + [c] + b, c) == |a|
  {
    var s := a + [c] + b;
    assert s[..|a|] == a;
    IndexOfUnique(s, c, |a|);
  }

  lemma ConcatAssociative(a: Bytes, b: Bytes, c: Bytes)
    ensures a + (b + c) == (a + b) + c
  {
  }

  /** `p` stands in `s` at offset `j`. */
  predicate OccursAt(s: Bytes, p: Bytes, j: nat) {
    j + |p| <= |s| && s[j..j + |p|] == p
  }

  predicate Occurs(s: Bytes, p: Bytes) {
    exists j :: 0 <= j <= |s| && OccursAt(s, p, j)
  }

  /** First occurrence of `p` in `s` at or after offset `from`: `std::string::find(p, from)`. */
  function FindFrom(s: Bytes, p: Bytes, from: nat): (r: Option<nat>)
    ensures r.Some? ==> from <= r.value && OccursAt(s, p, r.value)
    ensures r.Some? ==> forall j: nat :: from <= j < r.value ==> !OccursAt(s, p, j)
    ensures r.None? ==> forall j: nat :: from <= j ==> !OccursAt(s, p, j)
    decreases |s| - from
  {
    if |s| < from + |p| then None
    else if OccursAt(s, p, from) then Some(from)
    else FindFrom(s, p, from + 1)
  }

  lemma FindFromUnique(s: Bytes, p: Bytes, from: nat, i: nat)
    requires from <= i && OccursAt(s, p, i)
    requires forall j: nat :: from <= j < i ==> !OccursAt(s, p, j)
    ensures FindFrom(s, p, from) == Some(i)
  {
  }

  /** The pieces of `s` between the separators `c`; always at least one piece. */
  function Split(s: Bytes, c: Byte): (r: seq<Bytes>)
    ensures |r| >= 1
    decreases |s|
  {
    var i := IndexOf(s, c);
    if i == |s| then [s] else [s[..i]] + Split(s[i + 1..], c)
  }

  /** `ps` written one after the other with `c` between neighbours. */
  function Join(ps: seq<Bytes>, c: Byte): Bytes
    requires |ps| >= 1
  {
    if |ps| == 1 then ps[0] else ps[0] + [c] + Join(ps[1..], c)
  }

  /** Splitting undoes joining exactly when no piece holds the separator. */
  lemma {:induction false} SplitJoin(ps: seq<Bytes>, c: Byte)
    requires |ps| >= 1
    requires forall i :: 0 <= i < |ps| ==> c !in ps[i]
    ensures Split(Join(ps, c), c) == ps
  {
    if |ps| == 1 {
      IndexOfAbsent(ps[0], c);
    } else {
      SplitJoin(ps[1..], c);
      SplitFirst(ps[0], c, Join(ps[1..], c));
      hide Split;
    }
  }

  lemma SplitFirst(a: Bytes, c: Byte, rest: Bytes)
    requires c !in a
    ensures Split(a + [c] + rest, c) == [a] + Split(rest, c)
  {
    var s := a + [c] + rest;
    IndexOfJoin(a, c, rest);
    assert s[..|a|] == a && s[|a| + 1..] == rest;
  }

  /** Joining undoes splitting. */
  lemma {:induction false} JoinSplit(s: Bytes, c: Byte)
    ensures Join(Split(s, c), c) == s
    decreases |s|
  {
    var i := IndexOf(s, c);
    if i < |s| {
      var a, rest := s[..i], s[i + 1..];
      assert s == a + [c] + rest;
      SplitFirst(a, c, rest);
      JoinFirst(a, Split(rest, c), c);
      JoinSplit(rest, c);
      hide Split, Join, IndexOf;
    }
  }

  lemma JoinFirst(a: Bytes, ps: seq<Bytes>, c: Byte)
    requires |ps| >= 1
    ensures Join([a] + ps, c) == a + [c] + Join(ps, c)
  {
    assert ([a] + ps)[1..] == ps;
  }

  /** No piece of a split holds the separator. */
  lemma {:induction false} SplitPieces(s: Bytes, c: Byte)
    ensures forall i :: 0 <= i < |Split(s, c)| ==> c !in Split(s, c)[i]
    decreases |s|
  {
    var i := IndexOf(s, c);
    if i < |s| {
      SplitPieces(s[i + 1..], c);
    }
  }
}
