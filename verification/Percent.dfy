/**
 Percent-encoding: `url_encode` of src/Utilities.cpp, a reader for it (RFC 3986 section 2.1, with
 the form reading of '+' as an option), and the laws that connect the two.
 */
module Percent {
  import opened ByteStrings

  /** The unreserved set of RFC 3986 section 2.3, as `isalnum` of the "C" locale gives it. */
  predicate Unreserved(c: Byte) {
    || '0' <= c <= '9' || 'A' <= c <= 'Z' || 'a' <= c <= 'z'
    || c == '-' || c == '_' || c == '.' || c == '~'
  }

  function HexDigit(n: nat): (c: Byte)
    requires n < 16
    ensures HexValue(c) == Some(n) && !('a' <= c <= 'z')
  {
    if n < 10 then ('0' as int + n) as char else ('A' as int + n - 10) as char
  }

  function HexValue(c: Byte): (r: Option<nat>)
    ensures r.Some? ==> r.value < 16
  {
    if '0' <= c <= '9' then Some(c as int - '0' as int)
    else if 'A' <= c <= 'F' then Some(c as int - 'A' as int + 10)
    else if 'a' <= c <= 'f' then Some(c as int - 'a' as int + 10)
    else None
  }

  /** The list of RFC 3986 section 2.3. */
  const UNRESERVED: Bytes := CAPITALS + SMALLS + DIGITS + "-._~"

  lemma UnreservedList(c: Byte)
    ensures Unreserved(c) <==> c in UNRESERVED
  {
    assert c in UNRESERVED <==> c in CAPITALS || c in SMALLS || c in DIGITS || c in "-._~";
    AlphabetHolds(c);
    assert c in "-._~" <==> c == '-' || c == '.' || c == '_' || c == '~';
  }

  lemma AlphabetHolds(c: Byte)
    ensures c in CAPITALS <==> 'A' <= c <= 'Z'
    ensures c in SMALLS <==> 'a' <= c <= 'z'
    ensures c in DIGITS <==> '0' <= c <= '9'
  {
    HoldsRun(CAPITALS, 'A', c);
    HoldsRun(SMALLS, 'a', c);
    HoldsRun(DIGITS, '0', c);
  }

  /** A run of bytes that follow each other holds what lies between its ends. */
  lemma HoldsRun(s: Bytes, first: Byte, c: Byte)
    requires s in {CAPITALS, SMALLS, DIGITS} && s[0] == first
    ensures c in s <==> first <= c && (c as int) < first as int + |s|
  {
    forall i: nat | i < |s| ensures s[i] == (first as int + i) as char {
      AlphabetPlaces(i);
      AlphabetPlaces(0);
    }
    if first <= c && (c as int) < first as int + |s| {
      assert s[c as int - first as int] == c;
    }
  }

  /** A reserved byte becomes '%' and the two capital hexadecimal digits of its value. */
  lemma EscapeForm(c: Byte)
    ensures Encode([c]) == if c in UNRESERVED then [c]
                           else ['%', "0123456789ABCDEF"[c as int / 16], "0123456789ABCDEF"[c as int % 16]]
  {
    UnreservedList(c);
    HexMeaning(c as int / 16);
    HexMeaning(c as int % 16);
    assert Encode([c]) == EncodeByte(c) + Encode([]);
    hide Unreserved, HexDigit;
  }

  /** The reader takes the digits in either case. */
  lemma HexMeaning(n: nat)
    requires n < 16
    ensures HexDigit(n) == "0123456789ABCDEF"[n]
    ensures HexValue("0123456789ABCDEF"[n]) == HexValue("0123456789abcdef"[n]) == Some(n)
  {
  }

  function EncodeByte(c: Byte): Bytes {
    if Unreserved(c) then [c] else ['%', HexDigit(c as int / 16), HexDigit(c as int % 16)]
  }

  function Encode(s: Bytes): Bytes {
    if s == [] then [] else EncodeByte(s[0]) + Encode(s[1..])
  }

  /** Bytes of `s` that must be escaped. */
  function Escaped(s: Bytes): nat {
    if s == [] then 0 else (if Unreserved(s[0]) then 0 else 1) + Escaped(s[1..])
  }

  /** Reads an encoded string; with `form`, '+' is a space (URL Standard section 5.1). */
  function Decode(e: Bytes, form: bool): Bytes
    decreases |e|
  {
    if e == [] then []
    else if e[0] == '%' && |e| >= 3 && HexValue(e[1]).Some? && HexValue(e[2]).Some? then
      [(16 * HexValue(e[1]).value + HexValue(e[2]).value) as char] + Decode(e[3..], form)
    else if form && e[0] == '+' then [' '] + Decode(e[1..], form)
    else [e[0]] + Decode(e[1..], form)
  }

  /** The loop of `url_encode`. */
  method UrlEncode(input: Bytes) returns (out: Bytes)
    ensures out == Encode(input)
    ensures Decode(out, false) == input && |out| == |input| + 2 * Escaped(input)
  {
    out := [];
    for i := 0 to |input|
      invariant out == Encode(input[..i])
    {
      EncodeConcat(input[..i], [input[i]]);
      assert input[..i + 1] == input[..i] + [input[i]];
      assert Encode([input[i]]) == EncodeByte(input[i]);
      if Unreserved(input[i]) {
        out := out + [input[i]];
      } else {
        out := out + ['%', HexDigit(input[i] as int / 16), HexDigit(input[i] as int % 16)];
      }
    }
    assert input[..|input|] == input;
    DecodeEncode(input, [], false);
    assert Encode(input) + [] == Encode(input);
    EncodeLength(input);
  }

  /** Encoding distributes over concatenation. */
  lemma {:induction false} EncodeConcat(a: Bytes, b: Bytes)
    ensures Encode(a + b) == Encode(a) + Encode(b)
  {
    if a == [] {
      assert a + b == b;
    } else {
      EncodeConcat(a[1..], b);
      assert (a + b)[1..] == a[1..] + b && (a + b)[0] == a[0];
      ConcatAssociative(EncodeByte(a[0]), Encode(a[1..]), Encode(b));
    }
  }

  lemma DecodeEncodedByte(c: Byte, tail: Bytes, form: bool)
    ensures Decode(EncodeByte(c) + tail, form) == [c] + Decode(tail, form)
  {
    var e := EncodeByte(c) + tail;
    assert e[|EncodeByte(c)|..] == tail;
  }

  /** Either reader undoes the encoder, whatever follows the encoded text. */
  lemma {:induction false} DecodeEncode(s: Bytes, rest: Bytes, form: bool)
    ensures Decode(Encode(s) + rest, form) == s + Decode(rest, form)
  {
    if s == [] {
      assert Encode(s) + rest == rest;
    } else {
      var tail := Encode(s[1..]) + rest;
      ConcatAssociative(EncodeByte(s[0]), Encode(s[1..]), rest);
      DecodeEncodedByte(s[0], tail, form);
      DecodeEncode(s[1..], rest, form);
      ConcatAssociative([s[0]], s[1..], Decode(rest, form));
      assert s == [s[0]] + s[1..];
    }
  }

  lemma RoundTrip(s: Bytes, form: bool)
    ensures Decode(Encode(s), form) == s
  {
    DecodeEncode(s, [], form);
    assert Encode(s) + [] == Encode(s);
  }

  /** Two strings with the same encoding are the same string. */
  lemma EncodeInjective(a: Bytes, b: Bytes)
    requires Encode(a) == Encode(b)
    ensures a == b
  {
    RoundTrip(a, false);
    RoundTrip(b, false);
  }

  lemma {:induction false} EncodeLength(s: Bytes)
    ensures |Encode(s)| == |s| + 2 * Escaped(s)
  {
    if s != [] {
      EncodeLength(s[1..]);
    }
  }

  lemma {:induction false} EscapedZero(s: Bytes)
    ensures Escaped(s) == 0 <==> forall i :: 0 <= i < |s| ==> Unreserved(s[i])
  {
    if s != [] {
      EscapedZero(s[1..]);
      assert forall i :: 1 <= i < |s| ==> s[i] == s[1..][i - 1];
    }
  }

  /** The encoder leaves a string alone exactly when every byte is unreserved. */
  lemma {:induction false} EncodeIdentity(s: Bytes)
    ensures Encode(s) == s <==> forall i :: 0 <= i < |s| ==> Unreserved(s[i])
  {
    EncodeLength(s);
    EscapedZero(s);
    if s != [] && Escaped(s) == 0 {
      EncodeIdentity(s[1..]);
      assert Escaped(s[1..]) == 0;
      EscapedZero(s[1..]);
      assert s == [s[0]] + s[1..];
    }
  }

  /** Encoded text holds unreserved bytes and '%' only, so none of the query's separators. */
  lemma {:induction false} EncodeAlphabet(s: Bytes)
    ensures forall i :: 0 <= i < |Encode(s)| ==> Unreserved(Encode(s)[i]) || Encode(s)[i] == '%'
    ensures '&' !in Encode(s) && '=' !in Encode(s) && '+' !in Encode(s)
  {
    if s != [] {
      EncodeAlphabet(s[1..]);
    }
  }
}
