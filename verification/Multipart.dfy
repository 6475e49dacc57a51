/**
 Multipart bodies: `generate_boundary` and `build_multipart_body` of src/BotBase.cpp, and a reader
 in the manner of RFC 2046 section 5.1.1 and RFC 7578 section 4.1 that looks for the closing
 delimiter after the header block.
 */
module Multipart {
  import opened ByteStrings

  const CR: Byte := '\r'
  const QUOTE: Byte := '"'
  const CRLF: Bytes := "\r\n"
  const DASHES: Bytes := "--"
  const DISPOSITION: Bytes := "Content-Disposition: form-data; name=\""
  const FILENAME: Bytes := "\"; filename=\""
  const CONTENT_TYPE: Bytes := "\"\r\nContent-Type: "
  const BLANK_LINE: Bytes := "\r\n\r\n"
  const CLOSING: Bytes := "--\r\n"
  const BOUNDARY_PREFIX: Bytes := "----VkBotCppFormBoundary"

  datatype Part = Part(field: Bytes, filename: Bytes, contentType: Bytes, data: Bytes)

  // ----- the boundary

  predicate AlphanumOrDash(c: char) {
    '0' <= c <= '9' || 'A' <= c <= 'Z' || 'a' <= c <= 'z' || c == '-'
  }

  /** Entry `n % 62` of the table of digits, capitals and small letters. */
  function Pick(n: nat): (c: Byte)
    ensures AlphanumOrDash(c)
  {
    var i := n % 62;
    if i < 10 then ('0' as int + i) as char
    else if i < 36 then ('A' as int + i - 10) as char
    else ('a' as int + i - 36) as char
  }

  const TABLE: Bytes := DIGITS + CAPITALS + SMALLS

  lemma PickMeaning(n: nat)
    ensures |TABLE| == 62 && Pick(n) == TABLE[n % 62]
  {
    var i := n % 62;
    AlphabetPlaces(if i < 10 then i else if i < 36 then i - 10 else i - 36);
  }

  /** What RFC 2046 section 5.1.1 asks of a boundary, and what the reader below relies on. */
  ghost predicate GoodBoundary(b: Bytes) {
    0 < |b| <= 70 && forall c :: c in b ==> AlphanumOrDash(c)
  }

  /** `draws` are the numbers the generator `rng()` gives. */
  method GenerateBoundary(draws: seq<nat>) returns (boundary: Bytes)
    requires |draws| == 16
    ensures GoodBoundary(boundary) && |boundary| == |BOUNDARY_PREFIX| + 16
    ensures "----VkBotCppFormBoundary" <= boundary
    ensures forall i :: 0 <= i < 16 ==> boundary[24 + i] == TABLE[draws[i] % |TABLE|]
  {
    boundary := BOUNDARY_PREFIX;
    for i := 0 to 16
      invariant |boundary| == |BOUNDARY_PREFIX| + i && BOUNDARY_PREFIX <= boundary
      invariant forall c :: c in boundary ==> AlphanumOrDash(c)
      invariant forall j :: 0 <= j < i ==> boundary[|BOUNDARY_PREFIX| + j] == Pick(draws[j])
    {
      PickMeaning(draws[i]);
      boundary := boundary + [Pick(draws[i])];
    }
    forall i | 0 <= i < 16 ensures boundary[24 + i] == TABLE[draws[i] % |TABLE|] {
      PickMeaning(draws[i]);
      assert boundary[|BOUNDARY_PREFIX| + i] == Pick(draws[i]);
    }
  }

  // ----- the body

  /** CR LF "--" and the boundary: what ends the data. */
  function Delimiter(b: Bytes): Bytes {
    CRLF + (DASHES + b)
  }

  function OpenLine(b: Bytes): Bytes {
    DASHES + (b + CRLF)
  }

  function AfterHeader(data: Bytes, b: Bytes): Bytes {
    data + (Delimiter(b) + CLOSING)
  }

  function TypeOnwards(contentType: Bytes, data: Bytes, b: Bytes): Bytes {
    CONTENT_TYPE + (contentType + (BLANK_LINE + AfterHeader(data, b)))
  }

  function FilenameOnwards(filename: Bytes, contentType: Bytes, data: Bytes, b: Bytes): Bytes {
    FILENAME + (filename + TypeOnwards(contentType, data, b))
  }

  /** The text of a one-part body. */
  function Body(p: Part, b: Bytes): Bytes {
    OpenLine(b) + (DISPOSITION + (p.field + FilenameOnwards(p.filename, p.contentType, p.data, b)))
  }

  /** The header line of the names, the line of the type, the data and the end, flattened. */
  lemma Lines(d: Bytes, field: Bytes, n: Bytes, filename: Bytes, q: Bytes, rest: Bytes)
    ensures d + (field + (n + (filename + (q + rest)))) == (d + field + n + filename + q) + rest
  {
  }

  lemma Typed(q: Bytes, t: Bytes, contentType: Bytes, blank: Bytes, data: Bytes, end: Bytes)
    ensures (q + t) + (contentType + (blank + (data + end))) == q + ((t + contentType + blank) + (data + end))
  {
  }

  lemma Split5(a: Bytes, b: Bytes, c: Bytes, d: Bytes, e: Bytes)
    ensures a + (b + (c + (d + e))) == a + b + c + d + e
  {
  }

  lemma EndLine(b: Bytes)
    ensures Delimiter(b) == "\r\n--" + b
    ensures Delimiter(b) + CLOSING == "\r\n--" + b + "--\r\n"
    ensures OpenLine(b) == "--" + b + "\r\n"
  {
    assert CRLF + DASHES == "\r\n--";
  }

  /** The text line by line. */
  lemma BodyText(p: Part, b: Bytes)
    ensures Body(p, b)
            == ("--" + b + "\r\n")
               + ("Content-Disposition: form-data; name=\"" + p.field + "\"; filename=\"" + p.filename + "\"\r\n")
               + ("Content-Type: " + p.contentType + "\r\n\r\n")
               + p.data
               + ("\r\n--" + b + "--\r\n")
  {
    EndLine(b);
    var end := Delimiter(b) + CLOSING;
    var q: Bytes, t: Bytes := "\"\r\n", "Content-Type: ";
    assert CONTENT_TYPE == q + t;
    Typed(q, t, p.contentType, BLANK_LINE, p.data, end);
    var typed := t + p.contentType + BLANK_LINE;
    Lines(DISPOSITION, p.field, FILENAME, p.filename, q, typed + (p.data + end));
    Split5(OpenLine(b), DISPOSITION + p.field + FILENAME + p.filename + q, typed, p.data, end);
    hide OpenLine, Delimiter;
  }

  method Append3(r0: Bytes, x: Bytes, y: Bytes, z: Bytes) returns (r: Bytes)
    ensures r == r0 + (x + (y + z))
  {
    r := r0 + x;
    r := r + y;
    r := r + z;
  }

  lemma Regroup(x: Bytes, y: Bytes, z: Bytes, t: Bytes)
    ensures (x + (y + z)) + t == x + (y + (z + t))
  {
  }

  /** The five groups the method writes are the body. */
  lemma BodyGroups(p: Part, b: Bytes, g1: Bytes, g2: Bytes, g3: Bytes, g4: Bytes, g5: Bytes)
    requires g1 == OpenLine(b) && g2 == DISPOSITION + (p.field + FILENAME)
    requires g3 == p.filename + (CONTENT_TYPE + p.contentType)
    requires g4 == BLANK_LINE + (p.data + CRLF) && g5 == DASHES + (b + CLOSING)
    ensures g1 + (g2 + (g3 + (g4 + g5))) == Body(p, b)
  {
    Regroup(BLANK_LINE, p.data, CRLF, g5);
    assert CRLF + g5 == Delimiter(b) + CLOSING;
    var t := g4 + g5;
    assert t == BLANK_LINE + AfterHeader(p.data, b);
    Regroup(p.filename, CONTENT_TYPE, p.contentType, t);
    Regroup(DISPOSITION, p.field, FILENAME, g3 + t);
  }

  lemma LeftToRight(g1: Bytes, g2: Bytes, g3: Bytes, g4: Bytes, g5: Bytes)
    ensures [] + g1 + g2 + g3 + g4 + g5 == g1 + (g2 + (g3 + (g4 + g5)))
  {
  }

  /** `build_multipart_body`: the pieces are written to a stream one after the other. */
  method BuildMultipartBody(field: Bytes, filename: Bytes, contentType: Bytes, data: Bytes, b: Bytes)
    returns (r: Bytes)
    ensures r == Body(Part(field, filename, contentType, data), b)
  {
    hide Body, OpenLine;
    ghost var g1, g2 := DASHES + (b + CRLF), DISPOSITION + (field + FILENAME);
    ghost var g3, g4, g5 := filename + (CONTENT_TYPE + contentType), BLANK_LINE + (data + CRLF), DASHES + (b + CLOSING);
    r := [];
    r := Append3(r, DASHES, b, CRLF);
    r := Append3(r, DISPOSITION, field, FILENAME);
    r := Append3(r, filename, CONTENT_TYPE, contentType);
    r := Append3(r, BLANK_LINE, data, CRLF);
    r := Append3(r, DASHES, b, CLOSING);
    LeftToRight(g1, g2, g3, g4, g5);
    OpenLineText(b);
    BodyGroups(Part(field, filename, contentType, data), b, g1, g2, g3, g4, g5);
  }

  lemma OpenLineText(b: Bytes)
    ensures OpenLine(b) == DASHES + (b + CRLF)
  {
  }

  // ----- the reader

  /** What follows the prefix `p` of `s`. */
  function Expect(s: Bytes, p: Bytes): Option<Bytes> {
    if p <= s then Some(s[|p|..]) else None
  }

  /** Cuts `s` before its first `c`. */
  function Before(s: Bytes, c: Byte): Option<(Bytes, Bytes)> {
    var i := IndexOf(s, c);
    if i == |s| then None else Some((s[..i], s[i..]))
  }

  /** The data up to the first delimiter, if only the closing mark follows it. */
  function ReadData(s: Bytes, b: Bytes): Option<Bytes> {
    match FindFrom(s, Delimiter(b), 0)
    case None => None
    case Some(i) =>
      if s[i + |Delimiter(b)|..] == CLOSING then Some(s[..i]) else None
  }

  function ReadTyped(s: Bytes, b: Bytes): Option<(Bytes, Bytes)> {
    var s1 :- Expect(s, CONTENT_TYPE);
    var (contentType, s2) :- Before(s1, CR);
    var s3 :- Expect(s2, BLANK_LINE);
    var data :- ReadData(s3, b);
    Some((contentType, data))
  }

  function ReadFile(s: Bytes, b: Bytes): Option<(Bytes, Bytes, Bytes)> {
    var s1 :- Expect(s, FILENAME);
    var (filename, s2) :- Before(s1, QUOTE);
    var typed :- ReadTyped(s2, b);
    Some((filename, typed.0, typed.1))
  }

  function ReadPart(s: Bytes, b: Bytes): Option<Part> {
    var s1 :- Expect(s, OpenLine(b));
    var s2 :- Expect(s1, DISPOSITION);
    var (field, s3) :- Before(s2, QUOTE);
    var (filename, contentType, data) :- ReadFile(s3, b);
    Some(Part(field, filename, contentType, data))
  }

  lemma ExpectPrefix(p: Bytes, rest: Bytes)
    ensures Expect(p + rest, p) == Some(rest)
  {
    assert (p + rest)[|p|..] == rest && (p + rest)[..|p|] == p;
  }

  lemma BeforeFirst(a: Bytes, c: Byte, rest: Bytes)
    requires c !in a && rest != [] && rest[0] == c
    ensures Before(a + rest, c) == Some((a, rest))
  {
    var s := a + rest;
    assert s[..|a|] == a && s[|a|..] == rest;
    IndexOfUnique(s, c, |a|);
  }

  /** The cut gives back what was put before the mark exactly when that holds no mark. */
  lemma BeforeIff(a: Bytes, c: Byte, rest: Bytes)
    requires rest != [] && rest[0] == c
    ensures Before(a + rest, c).Some?
    ensures Before(a + rest, c).value.0 == a <==> c !in a
    ensures c !in a ==> Before(a + rest, c).value.1 == rest
  {
    if c in a {
      var k :| 0 <= k < |a| && a[k] == c;
      assert (a + rest)[k] == c;
    } else {
      BeforeFirst(a, c, rest);
    }
  }

  /** CR is the first byte of the delimiter and no other. */
  lemma DelimiterUnbordered(b: Bytes)
    requires GoodBoundary(b)
    ensures Delimiter(b)[0] == CR && forall k :: 1 <= k < |Delimiter(b)| ==> Delimiter(b)[k] != CR
  {
    var d := Delimiter(b);
    forall k | 1 <= k < |d| ensures d[k] != CR {
      if k >= 4 {
        assert d[k] == b[k - 4] && b[k - 4] in b;
      }
    }
  }

  lemma NoStraddle(s: Bytes, d: Bytes, at: nat, j: nat)
    requires j < at < |s| && at < j + |d| && s[at] == CR
    requires forall k :: 1 <= k < |d| ==> d[k] != CR
    ensures !OccursAt(s, d, j)
  {
    if j + |d| <= |s| {
      assert s[j..j + |d|][at - j] == s[at];
      assert d[at - j] != CR;
    }
  }

  /** A delimiter put behind `data` is the first one exactly when `data` has none: none straddles. */
  lemma FirstDelimiter(data: Bytes, b: Bytes, tail: Bytes)
    requires GoodBoundary(b)
    ensures FindFrom(data + (Delimiter(b) + tail), Delimiter(b), 0) == Some(|data|)
            <==> !Occurs(data, Delimiter(b))
    ensures FindFrom(data + (Delimiter(b) + tail), Delimiter(b), 0).Some?
  {
    var d := Delimiter(b);
    var s := data + (d + tail);
    DelimiterUnbordered(b);
    assert OccursAt(s, d, |data|) by {
      assert s[|data|..|data| + |d|] == d;
    }
    assert s[|data|] == CR;
    if Occurs(data, d) {
      var j :| 0 <= j <= |data| && OccursAt(data, d, j);
      assert s[j..j + |d|] == data[j..j + |d|];
      assert OccursAt(s, d, j);
    } else {
      forall j: nat | j < |data| ensures !OccursAt(s, d, j) {
        if j + |d| <= |data| {
          assert s[j..j + |d|] == data[j..j + |d|];
          assert !OccursAt(data, d, j);
        } else {
          NoStraddle(s, d, |data|, j);
        }
      }
      FindFromUnique(s, d, 0, |data|);
    }
  }

  lemma DataRoundTrip(data: Bytes, b: Bytes)
    requires GoodBoundary(b)
    ensures ReadData(AfterHeader(data, b), b) == Some(data) <==> !Occurs(data, Delimiter(b))
  {
    var d := Delimiter(b);
    var s := AfterHeader(data, b);
    FirstDelimiter(data, b, CLOSING);
    var i := FindFrom(s, d, 0).value;
    if i == |data| {
      assert s[..i] == data && s[i + |d|..] == CLOSING;
    } else {
      assert |s[..i]| == i;
    }
  }

  /** The reader can tell where each of the four texts ends. */
  ghost predicate Readable(p: Part, b: Bytes) {
    QUOTE !in p.field && QUOTE !in p.filename && CR !in p.contentType && !Occurs(p.data, Delimiter(b))
  }

  lemma TypeRoundTrip(contentType: Bytes, data: Bytes, b: Bytes)
    requires GoodBoundary(b)
    ensures ReadTyped(TypeOnwards(contentType, data, b), b) == Some((contentType, data))
            <==> CR !in contentType && !Occurs(data, Delimiter(b))
  {
    var rest := AfterHeader(data, b);
    ExpectPrefix(CONTENT_TYPE, contentType + (BLANK_LINE + rest));
    BeforeIff(contentType, CR, BLANK_LINE + rest);
    ExpectPrefix(BLANK_LINE, rest);
    DataRoundTrip(data, b);
  }

  lemma FileRoundTrip(filename: Bytes, contentType: Bytes, data: Bytes, b: Bytes)
    requires GoodBoundary(b)
    ensures ReadFile(FilenameOnwards(filename, contentType, data, b), b)
            == Some((filename, contentType, data))
            <==> QUOTE !in filename && CR !in contentType && !Occurs(data, Delimiter(b))
  {
    hide Before, ReadTyped, TypeOnwards, Delimiter, Occurs;
    var rest := TypeOnwards(contentType, data, b);
    TypeStart(contentType, data, b);
    ExpectPrefix(FILENAME, filename + rest);
    BeforeIff(filename, QUOTE, rest);
    TypeRoundTrip(contentType, data, b);
    var cut := Before(filename + rest, QUOTE).value;
    var typed := ReadTyped(cut.1, b);
    assert ReadFile(FilenameOnwards(filename, contentType, data, b), b)
        == if typed.None? then None else Some((cut.0, typed.value.0, typed.value.1));
  }

  lemma TypeStart(contentType: Bytes, data: Bytes, b: Bytes)
    ensures TypeOnwards(contentType, data, b) != [] && TypeOnwards(contentType, data, b)[0] == QUOTE
  {
  }

  /**
   The reader gets back field, file name, type and data exactly when the names hold no quote, the type
   no CR and the data no delimiter; nothing is escaped.
   */
  lemma MultipartRoundTrip(p: Part, b: Bytes)
    requires GoodBoundary(b)
    ensures ReadPart(Body(p, b), b) == Some(p) <==> Readable(p, b)
  {
    hide Before, ReadFile, OpenLine, Delimiter, Occurs;
    var rest := FilenameOnwards(p.filename, p.contentType, p.data, b);
    ExpectPrefix(OpenLine(b), DISPOSITION + (p.field + rest));
    ExpectPrefix(DISPOSITION, p.field + rest);
    BeforeIff(p.field, QUOTE, rest);
    FileRoundTrip(p.filename, p.contentType, p.data, b);
    var cut := Before(p.field + rest, QUOTE).value;
    var file := ReadFile(cut.1, b);
    assert ReadPart(Body(p, b), b)
        == if file.None? then None else Some(Part(cut.0, file.value.0, file.value.1, file.value.2));
  }

  /** Different parts that can be read back never give the same body. */
  lemma MultipartInjective(p: Part, q: Part, b: Bytes)
    requires GoodBoundary(b) && Body(p, b) == Body(q, b)
    requires Readable(p, b) && Readable(q, b)
    ensures p == q
  {
    MultipartRoundTrip(p, b);
    MultipartRoundTrip(q, b);
  }

  /** Without that, they may: a quote in a name lets two parts with different names share a body. */
  lemma QuotesCollide(x: Bytes, y: Bytes, z: Bytes, contentType: Bytes, data: Bytes, b: Bytes)
    ensures var p := Part(x + (FILENAME + y), z, contentType, data);
            var q := Part(x, y + (FILENAME + z), contentType, data);
            p != q && Body(p, b) == Body(q, b)
  {
    var t := TypeOnwards(contentType, data, b);
    Regroup(x, FILENAME, y, FILENAME + (z + t));
    Regroup(y, FILENAME, z, t);
    assert |x + (FILENAME + y)| > |x|;
  }
}
