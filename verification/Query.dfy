/**
 Request bodies: `params_to_query` of src/ClientBase.cpp, the two `fill_required_params`, and a
 reader of application/x-www-form-urlencoded text that gives the parameters back.
 */
module Query {
  import opened ByteStrings
  import opened JsonValues
  import opened KeyOrder
  import opened Percent

  type Params = map<Bytes, Json>

  const API_VERSION: Bytes := "5.120"
  const API_HOST: Bytes := "api.vk.com"
  const METHOD_PREFIX: Bytes := "/method/"

  /** Every value is a string; otherwise `val.get<std::string>()` throws. */
  predicate AllText(m: Params) {
    forall k :: k in m ==> m[k].Str?
  }

  function Texts(m: Params): map<Bytes, Bytes>
    requires AllText(m)
  {
    map k | k in m :: m[k].s
  }

  function Piece(k: Bytes, v: Bytes): Bytes {
    Encode(k) + ['='] + Encode(v)
  }

  function Pieces(m: Params, order: seq<Bytes>): (r: seq<Bytes>)
    requires AllText(m) && forall k :: k in order ==> k in m
    ensures |r| == |order|
  {
    seq(|order|, i requires 0 <= i < |order| => Piece(order[i], m[order[i]].s))
  }

  /** The text `params_to_query` promises; `None` when it throws. */
  ghost function QueryOf(m: Params): Option<Bytes> {
    if !AllText(m) then None
    else if m == map[] then Some([])
    else
      var ps := Pieces(m, KeysInOrder(m.Keys));
      NonEmptyOrder(m);
      Some(Join(ps, '&'))
  }

  lemma NonEmptyOrder(m: Params)
    requires m != map[]
    ensures KeysInOrder(m.Keys) != []
    ensures forall k :: k in KeysInOrder(m.Keys) ==> k in m
  {
    EmptyElements(KeysInOrder(m.Keys));
    forall k | k in KeysInOrder(m.Keys) ensures k in m {
      assert k in Elements(KeysInOrder(m.Keys));
    }
  }

  /** The first `n` pieces, each followed by '&', as the loop writes them. */
  function Written(ps: seq<Bytes>): Bytes {
    if ps == [] then [] else Written(ps[..|ps| - 1]) + ps[|ps| - 1] + ['&']
  }

  lemma {:induction false} JoinSnoc(ps: seq<Bytes>, p: Bytes, c: Byte)
    requires |ps| >= 1
    ensures Join(ps + [p], c) == Join(ps, c) + [c] + p
  {
    if |ps| > 1 {
      JoinSnoc(ps[1..], p, c);
      assert (ps + [p])[1..] == ps[1..] + [p];
      var a, b := ps[0] + [c], Join(ps[1..], c);
      assert a + (b + [c] + p) == (a + b) + [c] + p;
    } else {
      assert (ps + [p])[1..] == [p];
    }
  }

  lemma {:induction false} WrittenJoin(ps: seq<Bytes>)
    requires |ps| >= 1
    ensures Written(ps) == Join(ps, '&') + ['&']
  {
    var front, last := ps[..|ps| - 1], ps[|ps| - 1];
    assert ps == front + [last];
    if front != [] {
      WrittenJoin(front);
      JoinSnoc(front, last, '&');
    }
  }

  /** The least key still to visit is the next one of the ascending order. */
  lemma NextKey(order: seq<Bytes>, i: nat, rest: set<Bytes>, key: Bytes)
    requires Ascending(order) && i <= |order| && rest == Elements(order[i..])
    requires Least(rest, key)
    ensures i < |order| && key == order[i]
    ensures rest - {key} == Elements(order[i + 1..])
  {
    var tail := order[i..];
    EmptyElements(tail);
    assert tail[0] in rest;
    HeadLeast(tail, key);
    if key != tail[0] {
      LessTransitive(key, tail[0], key);
      LessIrreflexive(key);
    }
    TailElements(tail);
    assert tail[1..] == order[i + 1..];
  }

  lemma WrittenNext(m: Params, order: seq<Bytes>, i: nat)
    requires AllText(m) && i < |order| && forall k :: k in order ==> k in m
    ensures Written(Pieces(m, order[..i + 1]))
            == Written(Pieces(m, order[..i])) + Encode(order[i]) + ['='] + Encode(m[order[i]].s) + ['&']
  {
    var ps := Pieces(m, order[..i + 1]);
    assert ps[..i] == Pieces(m, order[..i]);
    assert ps[i] == Piece(order[i], m[order[i]].s);
    var w, k, v := Written(ps[..i]), Encode(order[i]), Encode(m[order[i]].s);
    assert w + (k + ['='] + v) + ['&'] == w + k + ['='] + v + ['&'];
  }

  /** One pass of the loop of `params_to_query`. */
  method AppendPair(result: Bytes, key: Bytes, value: Bytes) returns (r: Bytes)
    ensures r == result + Encode(key) + ['='] + Encode(value) + ['&']
  {
    r := result + Encode(key);
    r := r + ['='];
    r := r + Encode(value);
    r := r + ['&'];
  }

  /** After `i` passes: what is left to visit, and what has been written if no value has thrown. */
  ghost predicate Upto(m: Params, i: nat, rest: set<Bytes>, result: Bytes) {
    var order := KeysInOrder(m.Keys);
    && i <= |order| && rest == Elements(order[i..]) && rest <= m.Keys
    && (forall k :: k in m && !m[k].Str? ==> k in rest)
    && (forall k :: k in order ==> k in m)
    && (AllText(m) ==> result == Written(Pieces(m, order[..i])))
  }

  lemma UptoStart(m: Params)
    ensures Upto(m, 0, m.Keys, [])
  {
    var order := KeysInOrder(m.Keys);
    assert order[0..] == order;
    assert forall k :: k in order ==> k in Elements(order);
  }

  lemma UptoNext(m: Params, i: nat, rest: set<Bytes>, result: Bytes, key: Bytes, after: Bytes)
    requires Upto(m, i, rest, result) && Least(rest, key) && m[key].Str?
    requires after == result + Encode(key) + ['='] + Encode(m[key].s) + ['&']
    ensures Upto(m, i + 1, rest - {key}, after)
  {
    var order := KeysInOrder(m.Keys);
    NextKey(order, i, rest, key);
    if AllText(m) {
      WrittenNext(m, order, i);
    }
  }

  lemma UptoEnd(m: Params, i: nat, result: Bytes)
    requires Upto(m, i, {}, result)
    ensures QueryOf(m) == Some(if result == [] then [] else result[..|result| - 1])
  {
    var order := KeysInOrder(m.Keys);
    EmptyElements(order[i..]);
    EmptyElements(order);
    assert order[..i] == order;
    if m != map[] {
      NonEmptyOrder(m);
      WrittenJoin(Pieces(m, order));
    }
  }

  /** The loop of `params_to_query`, with the final '&' popped. */
  method ParamsToQuery(params: Params) returns (r: Option<Bytes>)
    ensures r == QueryOf(params)
  {
    var result: Bytes := [];
    var rest := params.Keys;
    ghost var i := 0;
    UptoStart(params);
    while rest != {}
      invariant Upto(params, i, rest, result)
      decreases rest
    {
      ghost var least := LeastExists(rest);
      var key :| key in rest && forall x :: x in rest ==> x == key || Less(key, x);
      assert Least(rest, key);
      if !params[key].Str? {
        return None;
      }
      ghost var before := result;
      result := AppendPair(result, key, params[key].s);
      UptoNext(params, i, rest, before, key, result);
      rest := rest - {key};
      i := i + 1;
    }
    UptoEnd(params, i, result);
    if result != [] {
      result := result[..|result| - 1];
    }
    return Some(result);
  }

  /** The text itself: for the keys in ascending order "key=value", escaped, with '&' between. */
  lemma QueryText(m: Params, order: seq<Bytes>)
    requires AllText(m) && Ascending(order) && Elements(order) == m.Keys && m != map[]
    ensures order != [] && forall k :: k in order ==> k in m
    ensures var pairs := seq(|order|, i requires 0 <= i < |order| =>
                                        Encode(order[i]) + "=" + Encode(m[order[i]].s));
            QueryOf(m) == Some(Join(pairs, '&'))
  {
    AscendingUnique(order, KeysInOrder(m.Keys));
    NonEmptyOrder(m);
    var ps := seq(|order|, i requires 0 <= i < |order| => Encode(order[i]) + "=" + Encode(m[order[i]].s));
    assert Pieces(m, order) == ps;
  }

  // ----- the reader

  function DecodePiece(p: Bytes, form: bool): (Bytes, Bytes) {
    var i := IndexOf(p, '=');
    (Decode(p[..i], form), if i < |p| then Decode(p[i + 1..], form) else [])
  }

  function DecodePieces(ps: seq<Bytes>, form: bool): map<Bytes, Bytes> {
    if ps == [] then map[]
    else
      var (k, v) := DecodePiece(ps[|ps| - 1], form);
      DecodePieces(ps[..|ps| - 1], form)[k := v]
  }

  lemma DecodeSnoc(ps: seq<Bytes>, p: Bytes, form: bool)
    ensures DecodePieces(ps + [p], form)
            == DecodePieces(ps, form)[DecodePiece(p, form).0 := DecodePiece(p, form).1]
  {
    assert (ps + [p])[..|ps + [p]| - 1] == ps;
  }

  /** Splits on '&', then on the first '=', and percent-decodes; the empty text has no parameter. */
  function DecodeQuery(q: Bytes, form: bool): map<Bytes, Bytes> {
    if q == [] then map[] else DecodePieces(Split(q, '&'), form)
  }

  lemma DecodeEncodedPiece(k: Bytes, v: Bytes, form: bool)
    ensures DecodePiece(Piece(k, v), form) == (k, v)
    ensures '&' !in Piece(k, v)
  {
    EncodeAlphabet(k);
    EncodeAlphabet(v);
    IndexOfJoin(Encode(k), '=', Encode(v));
    var p := Piece(k, v);
    assert p[..|Encode(k)|] == Encode(k) && p[|Encode(k)| + 1..] == Encode(v);
    RoundTrip(k, form);
    RoundTrip(v, form);
  }

  lemma {:induction false} DecodeEncodedPieces(m: Params, order: seq<Bytes>, form: bool)
    requires AllText(m) && forall k :: k in order ==> k in m
    ensures DecodePieces(Pieces(m, order), form) == TextsOf(m, order)
  {
    if order != [] {
      var front, last := order[..|order| - 1], order[|order| - 1];
      DecodeEncodedPieces(m, front, form);
      DecodeEncodedPiece(last, m[last].s, form);
      DecodeSnoc(Pieces(m, front), Piece(last, m[last].s), form);
      PiecesSnoc(m, order);
      TextsOfSnoc(m, front, last);
    }
  }

  lemma PiecesSnoc(m: Params, order: seq<Bytes>)
    requires AllText(m) && order != [] && forall k :: k in order ==> k in m
    ensures order == order[..|order| - 1] + [order[|order| - 1]]
    ensures Pieces(m, order)
            == Pieces(m, order[..|order| - 1]) + [Piece(order[|order| - 1], m[order[|order| - 1]].s)]
  {
  }

  ghost function TextsOf(m: Params, order: seq<Bytes>): map<Bytes, Bytes>
    requires AllText(m) && forall k :: k in order ==> k in m
  {
    map k | k in order :: m[k].s
  }

  lemma TextsOfSnoc(m: Params, front: seq<Bytes>, last: Bytes)
    requires AllText(m) && (forall k :: k in front ==> k in m) && last in m
    ensures TextsOf(m, front + [last]) == TextsOf(m, front)[last := m[last].s]
  {
    assert forall k :: k in front + [last] <==> k in front || k == last;
  }

  /** The pieces of a query can be split apart again, and their join is not empty. */
  lemma PiecesSplit(m: Params, order: seq<Bytes>, form: bool)
    requires AllText(m) && order != [] && forall k :: k in order ==> k in m
    ensures Split(Join(Pieces(m, order), '&'), '&') == Pieces(m, order)
    ensures Join(Pieces(m, order), '&') != []
  {
    hide DecodePiece, Split;
    var ps := Pieces(m, order);
    forall i | 0 <= i < |ps| ensures '&' !in ps[i] {
      DecodeEncodedPiece(order[i], m[order[i]].s, form);
    }
    SplitJoin(ps, '&');
    assert ps[0] == Piece(order[0], m[order[0]].s);
  }

  lemma TextsOfAll(m: Params, order: seq<Bytes>)
    requires AllText(m) && Elements(order) == m.Keys && forall k :: k in order ==> k in m
    ensures TextsOf(m, order) == Texts(m)
  {
    forall k | k in m ensures k in order {
      assert k in Elements(order);
    }
  }

  /** Reading the text of `params_to_query` gives back exactly its parameters. */
  lemma QueryRoundTrip(m: Params, form: bool)
    requires AllText(m)
    ensures QueryOf(m).Some? && DecodeQuery(QueryOf(m).value, form) == Texts(m)
  {
    hide Pieces, Split, Join, TextsOf, DecodePieces;
    if m != map[] {
      NonEmptyOrder(m);
      var order := KeysInOrder(m.Keys);
      PiecesSplit(m, order, form);
      DecodeEncodedPieces(m, order, form);
      TextsOfAll(m, order);
    }
  }

  /** Different parameters never share a text. */
  lemma QueryInjective(a: Params, b: Params)
    requires AllText(a) && AllText(b) && QueryOf(a) == QueryOf(b)
    ensures a == b
  {
    QueryRoundTrip(a, false);
    QueryRoundTrip(b, false);
    assert Texts(a) == Texts(b);
    assert a.Keys == Texts(a).Keys && b.Keys == Texts(b).Keys;
    forall k | k in a ensures k in b && a[k] == b[k] {
      assert k in Texts(a) && Texts(a)[k] == a[k].s && Texts(b)[k] == b[k].s;
    }
  }

  // ----- required parameters

  /** The object the caller passed; `null` counts as empty and anything else makes `out[k] = v` throw. */
  function ParamMap(j: Json): Option<Params> {
    match j
    case Obj(fields) => Some(fields)
    case Null => Some(map[])
    case _ => None
  }

  /** The parameters of a document, and their texts. */
  lemma ParamsMeaning(j: Json, m: Params, texts: map<Bytes, Bytes>)
    ensures ParamMap(j) == Some(m) <==> j == Obj(m) || (j == Null && m == map[])
    ensures AllText(m) && Texts(m) == texts <==> m.Keys == texts.Keys && forall k :: k in m ==> m[k] == Str(texts[k])
  {
  }

  function WithDefault(m: Params, k: Bytes, v: Bytes): Params {
    if k in m then m else m[k := Str(v)]
  }

  /** `BotBase::fill_required_params`. */
  function FillBot(m: Params, token: Bytes, group: Bytes): Params {
    var a := WithDefault(m, "access_token", token);
    var b := WithDefault(a, "group_id", group);
    WithDefault(b, "v", API_VERSION)
  }

  /** `UserBase::fill_required_params`. */
  function FillUser(m: Params, token: Bytes): Params {
    WithDefault(WithDefault(m, "access_token", token), "v", API_VERSION)
  }

  function BotDefaults(token: Bytes, group: Bytes): (r: Params)
    ensures AllText(r)
  {
    map["access_token" := Str(token), "group_id" := Str(group), "v" := Str(API_VERSION)]
  }

  function UserDefaults(token: Bytes): (r: Params)
    ensures AllText(r)
  {
    map["access_token" := Str(token), "v" := Str(API_VERSION)]
  }

  /** The caller's parameters win over the defaults, and filling twice changes nothing. */
  lemma FillBotMeaning(m: Params, token: Bytes, group: Bytes)
    ensures FillBot(m, token, group) == BotDefaults(token, group) + m
    ensures FillBot(FillBot(m, token, group), token, group) == FillBot(m, token, group)
  {
    var f := FillBot(m, token, group);
    assert forall k :: k in m ==> k in f && f[k] == m[k];
    assert f == BotDefaults(token, group) + m;
  }

  lemma FillUserMeaning(m: Params, token: Bytes)
    ensures FillUser(m, token) == UserDefaults(token) + m
    ensures FillUser(FillUser(m, token), token) == FillUser(m, token)
  {
    var f := FillUser(m, token);
    assert forall k :: k in m ==> k in f && f[k] == m[k];
    assert f == UserDefaults(token) + m;
  }

  lemma TextsUnion(d: Params, m: Params)
    requires AllText(d)
    ensures AllText(d + m) <==> AllText(m)
    ensures AllText(m) ==> Texts(d + m) == Texts(d) + Texts(m)
  {
    assert forall k :: k in m ==> k in d + m && (d + m)[k] == m[k];
  }

  lemma UnionContent(d: Params, m: Params, form: bool)
    requires AllText(d)
    ensures QueryOf(d + m).Some? <==> AllText(m)
    ensures AllText(m) ==> DecodeQuery(QueryOf(d + m).value, form) == Texts(d) + Texts(m)
  {
    TextsUnion(d, m);
    if AllText(m) {
      QueryRoundTrip(d + m, form);
    }
  }

  /**
   What the server reads in the body of a bot request: the caller's parameters, and a default for
   each required one that the caller left out.  There is a body exactly when all values are text.
   */
  lemma BotBodyContent(m: Params, token: Bytes, group: Bytes, form: bool)
    ensures QueryOf(FillBot(m, token, group)).Some? <==> AllText(m)
    ensures AllText(m) ==>
              DecodeQuery(QueryOf(FillBot(m, token, group)).value, form)
              == Texts(BotDefaults(token, group)) + Texts(m)
  {
    FillBotMeaning(m, token, group);
    UnionContent(BotDefaults(token, group), m, form);
  }

  lemma UserBodyContent(m: Params, token: Bytes, form: bool)
    ensures QueryOf(FillUser(m, token)).Some? <==> AllText(m)
    ensures AllText(m) ==>
              DecodeQuery(QueryOf(FillUser(m, token)).value, form)
              == Texts(UserDefaults(token)) + Texts(m)
  {
    FillUserMeaning(m, token);
    UnionContent(UserDefaults(token), m, form);
  }
}
