/**
 `UserBase` of src/UserBase.cpp: authorisation by token and by login and password with captcha and a
 second factor, as a class tied to functions on values, the exact condition for success, and whose
 identity an authorised client holds.
 */
module UserClient {
  import opened ByteStrings
  import opened Decimal
  import opened Http
  import opened JsonValues
  import opened KeyOrder
  import opened LongPoll
  import opened Query

  const OAUTH_HOST: Bytes := "oauth.vk.com"
  const TOKEN_TARGET: Bytes := "/token"
  const USERS_GET: Bytes := "/method/users.get"
  const ID: Bytes := "id"
  const ACCESS_TOKEN: Bytes := "access_token"
  const USER_ID: Bytes := "user_id"
  const VALIDATION_TYPE: Bytes := "validation_type"
  const CAPTCHA_IMG: Bytes := "captcha_img"
  const CAPTCHA_SID: Bytes := "captcha_sid"
  const CAPTCHA_KEY: Bytes := "captcha_key"
  const NEED_CAPTCHA: Bytes := "need_captcha"
  const SMS: Bytes := "2fa_sms"
  const APP: Bytes := "2fa_app"
  const SUPPORTED: Bytes := "2fa_supported"
  const FORCE_SMS: Bytes := "force_sms"
  const CODE: Bytes := "code"
  const ONE: Bytes := "1"
  const COMMA: Byte := ','

  datatype User = User(token: Bytes, userId: Bytes, authorized: bool)

  const FreshUser: User := User([], [], false)

  datatype AuthResult = Returned(ok: bool) | Raised(fault: Fault)

  // ----- authorisation by token

  /** The identity a users.get reply names. */
  function FirstId(doc: Json): Option<int> {
    match At(doc, RESPONSE)
    case Some(Arr(items)) => if items == [] then None else Int64At(items[0], ID)
    case _ => None
  }

  /** The id is that of the first entry of the response. */
  lemma FirstIdMeaning(doc: Json, id: int)
    ensures FirstId(doc) == Some(id)
            <==>
            && At(doc, "response").Some? && At(doc, "response").value.Arr?
            && At(doc, "response").value.items != []
            && Int64At(At(doc, "response").value.items[0], "id") == Some(id)
  {
  }

  function TokenSpec(u: User, token: Bytes, h: Reply): (User, AuthResult) {
    if token == [] then (u, Raised(EmptyArgument))
    else
      var u1 := u.(authorized := false);
      match h
      case Failed(msg) => (u1, Raised(NetworkFault(msg)))
      case Raw(None) => (u1, Raised(JsonFault))
      case Raw(Some(doc)) =>
        if Contains(doc, ERROR) then (FreshUser, Returned(false))
        else
          match FirstId(doc)
          case None => (u1, Returned(false))
          case Some(id) => (User(token, Print(id), true), Returned(true))
  }

  // ----- authorisation by login and password

  /** The replies and the typed texts that a login may consume, each used at most once. */
  datatype Script = Script(first: Reply, captchaKey: Bytes, second: Reply, code: Bytes, third: Reply)

  /** A client, a result, and the parameter maps that were posted. */
  datatype LoginEnd = LoginEnd(user: User, result: AuthResult, posts: seq<Params>)

  function CaptchaParams(p: Params, sid: Bytes, key: Bytes): Params {
    p[CAPTCHA_SID := Str(sid)][CAPTCHA_KEY := Str(key)]
  }

  function CodeParams(p: Params, sms: bool, code: Bytes): Params {
    var q := p[SUPPORTED := Str(ONE)];
    (if sms then q[FORCE_SMS := Str(ONE)] else q)[CODE := Str(code)]
  }

  /** Token and user id of a reply without an error: the token is written before the id is read. */
  function TakeIdentity(u: User, r: Json): (User, bool) {
    match StrAt(r, ACCESS_TOKEN)
    case None => (u, false)
    case Some(token) =>
      match Int64At(r, USER_ID)
      case None => (u.(token := token), false)
      case Some(id) => (u.(token := token, userId := Print(id)), true)
  }

  /** `handle_2fa`. */
  function SecondFactorSpec(u: User, p: Params, posts: seq<Params>, r: Json, sc: Script): LoginEnd {
    match StrAt(r, VALIDATION_TYPE)
    case None => LoginEnd(u, Returned(false), posts)
    case Some(kind) =>
      if kind != SMS && kind != APP then LoginEnd(u, Returned(false), posts)
      else
        var all := posts + [CodeParams(p, kind == SMS, sc.code)];
        match sc.third
        case Failed(msg) => LoginEnd(u, Raised(NetworkFault(msg)), all)
        case Raw(None) => LoginEnd(u, Returned(false), all)
        case Raw(Some(resp)) =>
          if Contains(resp, ERROR) then LoginEnd(u, Returned(false), all)
          else
            var (u1, ok) := TakeIdentity(u, resp);
            LoginEnd(u1.(authorized := ok), Returned(ok), all)
  }

  function AfterErrorSpec(u: User, p: Params, posts: seq<Params>, r: Json, sc: Script): LoginEnd {
    if Contains(r, VALIDATION_TYPE) then SecondFactorSpec(u, p, posts, r, sc)
    else LoginEnd(u, Returned(false), posts)
  }

  /** `auth(login, password)` past the argument check, with the parameters `p` of the first POST. */
  function LoginSpec(u0: User, p: Params, sc: Script): LoginEnd {
    var u := u0.(authorized := false);
    match sc.first
    case Failed(msg) => LoginEnd(u, Raised(NetworkFault(msg)), [p])
    case Raw(None) => LoginEnd(u, Returned(false), [p])
    case Raw(Some(r)) =>
      if !Contains(r, ERROR) then
        var (u1, ok) := TakeIdentity(u, r);
        LoginEnd(u1.(authorized := ok), Returned(ok), [p])
      else if GetStr(r.fields[ERROR]) == Some(NEED_CAPTCHA) then
        if StrAt(r, CAPTCHA_IMG).None? || StrAt(r, CAPTCHA_SID).None? then LoginEnd(u, Returned(false), [p])
        else
          var p1 := CaptchaParams(p, StrAt(r, CAPTCHA_SID).value, sc.captchaKey);
          match sc.second
          case Failed(msg) => LoginEnd(u, Raised(NetworkFault(msg)), [p, p1])
          case Raw(None) => LoginEnd(u, Returned(false), [p, p1])
          case Raw(Some(r2)) => AfterErrorSpec(u, p1, [p, p1], r2, sc)
      else if GetStr(r.fields[ERROR]).None? then LoginEnd(u, Returned(false), [p])
      else AfterErrorSpec(u, p, [p], r, sc)
  }

  // ----- the exact outcome

  /** A reply without an error that carries a token and a user id. */
  predicate Complete(h: Reply) {
    && h.Raw? && h.doc.Some? && !Contains(h.doc.value, ERROR)
    && StrAt(h.doc.value, ACCESS_TOKEN).Some? && Int64At(h.doc.value, USER_ID).Some?
  }

  /** The first reply asks for a captcha and gives what the retry needs. */
  predicate AsksCaptcha(h: Reply) {
    && h.Raw? && h.doc.Some? && StrAt(h.doc.value, ERROR) == Some(NEED_CAPTCHA)
    && StrAt(h.doc.value, CAPTCHA_IMG).Some? && StrAt(h.doc.value, CAPTCHA_SID).Some?
  }

  /** The first reply is another error. */
  predicate OtherError(h: Reply) {
    h.Raw? && h.doc.Some? && StrAt(h.doc.value, ERROR).Some? && StrAt(h.doc.value, ERROR) != Some(NEED_CAPTCHA)
  }

  /** A second factor the client knows. */
  predicate Challenge(h: Reply) {
    h.Raw? && h.doc.Some? && StrAt(h.doc.value, VALIDATION_TYPE) in {Some(SMS), Some(APP)}
  }

  /** The four kinds of replies, on their documents. */
  lemma RepliesMeaning(h: Reply)
    ensures Complete(h)
            <==> h.Raw? && h.doc.Some? && !Contains(h.doc.value, "error")
                 && StrAt(h.doc.value, "access_token").Some? && Int64At(h.doc.value, "user_id").Some?
    ensures AsksCaptcha(h)
            <==> h.Raw? && h.doc.Some? && StrAt(h.doc.value, "error") == Some("need_captcha")
                 && StrAt(h.doc.value, "captcha_img").Some? && StrAt(h.doc.value, "captcha_sid").Some?
    ensures OtherError(h)
            <==> h.Raw? && h.doc.Some? && StrAt(h.doc.value, "error").Some?
                 && StrAt(h.doc.value, "error").value != "need_captcha"
    ensures Challenge(h)
            <==> h.Raw? && h.doc.Some? && StrAt(h.doc.value, "validation_type") in {Some("2fa_sms"), Some("2fa_app")}
  {
  }

  /** A recognised challenge is reached, directly or after the captcha. */
  predicate Challenged(sc: Script) {
    || (OtherError(sc.first) && Challenge(sc.first))
    || (AsksCaptcha(sc.first) && Challenge(sc.second))
  }

  /**
   For every script: login succeeds exactly when the first reply is complete, or a recognised challenge
   is answered by a complete reply; it throws exactly when a POST that is reached fails in transport.
   */
  lemma LoginOutcome(u: User, p: Params, sc: Script)
    ensures LoginSpec(u, p, sc).result == Returned(true)
            <==> Complete(sc.first) || (Challenged(sc) && Complete(sc.third))
    ensures LoginSpec(u, p, sc).result.Raised?
            <==> || sc.first.Failed?
                 || (AsksCaptcha(sc.first) && sc.second.Failed?)
                 || (Challenged(sc) && sc.third.Failed?)
    ensures LoginSpec(u, p, sc).user.authorized <==> LoginSpec(u, p, sc).result == Returned(true)
  {
  }

  /** The only exceptions of a login are those of its POSTs, unchanged. */
  lemma LoginFaults(u: User, p: Params, sc: Script, msg: Bytes)
    ensures LoginSpec(u, p, sc).result == Raised(NetworkFault(msg))
            <==> || sc.first == Failed(msg)
                 || (AsksCaptcha(sc.first) && sc.second == Failed(msg))
                 || (Challenged(sc) && sc.third == Failed(msg))
    ensures LoginSpec(u, p, sc).result.Raised? ==> LoginSpec(u, p, sc).result.fault.NetworkFault?
  {
  }

  /** The exceptions of `auth(token)`, each with its cause; an empty token changes nothing. */
  lemma TokenFaults(u: User, token: Bytes, h: Reply, msg: Bytes)
    ensures var (u1, r) := TokenSpec(u, token, h);
            && (r == Raised(EmptyArgument) <==> token == [])
            && (r == Raised(NetworkFault(msg)) <==> token != [] && h == Failed(msg))
            && (r == Raised(JsonFault) <==> token != [] && h == Raw(None))
            && (token == [] ==> u1 == u)
  {
    hide FirstId;
  }

  /** A captcha retry answered without "validation_type" never authorises, not even by a complete reply. */
  lemma CaptchaRetryAlone(u: User, p: Params, sc: Script)
    requires AsksCaptcha(sc.first) && sc.second.Raw?
    requires sc.second.doc.Some? ==> !Contains(sc.second.doc.value, VALIDATION_TYPE)
    ensures LoginSpec(u, p, sc).result == Returned(false) && |LoginSpec(u, p, sc).posts| == 2
    ensures LoginSpec(u, p, sc).user == u.(authorized := false)
  {
    LoginOutcome(u, p, sc);
  }

  /** What the captcha adds to the parameters. */
  function CaptchaAdds(sc: Script): Params {
    if !AsksCaptcha(sc.first) then map[]
    else map["captcha_sid" := sc.first.doc.value.fields["captcha_sid"], "captcha_key" := Str(sc.captchaKey)]
  }

  /** What the answer to a challenge adds to the parameters. */
  function CodeAdds(sc: Script): Params {
    var all: Params := map["2fa_supported" := Str("1"), "code" := Str(sc.code)];
    if Contains(ChallengeDoc(sc), "validation_type") && ChallengeDoc(sc).fields["validation_type"] == Str("2fa_sms")
    then all["force_sms" := Str("1")] else all
  }

  function ChallengeDoc(sc: Script): Json {
    match ChallengeOf(sc)
    case Raw(Some(doc)) => doc
    case _ => Null
  }

  /** The parameter maps that a login posts, all of them and no other. */
  lemma LoginPostsExact(u: User, p: Params, sc: Script)
    ensures LoginSpec(u, p, sc).posts
            == [p]
               + (if AsksCaptcha(sc.first) then [p + CaptchaAdds(sc)] else [])
               + (if Challenged(sc) then [p + CaptchaAdds(sc) + CodeAdds(sc)] else [])
  {
    hide AfterErrorSpec, CaptchaParams, TakeIdentity, CodeParams, CaptchaAdds, CodeAdds;
    var u1 := u.(authorized := false);
    AddsNothing(p, sc);
    if AsksCaptcha(sc.first) {
      var p1 := CaptchaParams(p, StrAt(sc.first.doc.value, CAPTCHA_SID).value, sc.captchaKey);
      CaptchaParamsAre(p, sc);
      if sc.second.Raw? && sc.second.doc.Some? {
        AfterErrorPosts(u1, p1, [p, p1], sc, sc.second);
      }
    } else if OtherError(sc.first) {
      AfterErrorPosts(u1, p, [p], sc, sc.first);
    }
  }

  lemma AddsNothing(p: Params, sc: Script)
    ensures !AsksCaptcha(sc.first) ==> p + CaptchaAdds(sc) == p
  {
  }

  lemma CaptchaParamsAre(p: Params, sc: Script)
    requires AsksCaptcha(sc.first)
    ensures CaptchaParams(p, StrAt(sc.first.doc.value, CAPTCHA_SID).value, sc.captchaKey) == p + CaptchaAdds(sc)
  {
  }

  lemma AfterErrorPosts(u: User, p: Params, posts: seq<Params>, sc: Script, h: Reply)
    requires h == ChallengeOf(sc) && h.Raw? && h.doc.Some?
    ensures AfterErrorSpec(u, p, posts, h.doc.value, sc).posts
            == posts + if Challenge(h) then [p + CodeAdds(sc)] else []
  {
    var sms := StrAt(h.doc.value, VALIDATION_TYPE) == Some(SMS);
    assert Challenge(h) ==> CodeParams(p, sms, sc.code) == p + CodeAdds(sc) by {
      if Challenge(h) {
        CodeParamsAre(p, sc);
      }
    }
    hide CodeParams, CodeAdds, TakeIdentity;
  }

  lemma CodeParamsAre(p: Params, sc: Script)
    requires Challenge(ChallengeOf(sc))
    ensures CodeParams(p, StrAt(ChallengeDoc(sc), VALIDATION_TYPE) == Some(SMS), sc.code) == p + CodeAdds(sc)
  {
    AddedNames();
  }

  /** Every entry of `a` stands in `b`. */
  predicate Extends(a: Params, b: Params) {
    forall k :: k in a ==> k in b && b[k] == a[k]
  }

  /** The names the login adds to the parameters are new. */
  predicate PlainParams(p: Params) {
    {CAPTCHA_SID, CAPTCHA_KEY, SUPPORTED, FORCE_SMS, CODE} !! p.Keys
  }

  lemma CodeParamsExtend(p: Params, sms: bool, code: Bytes)
    requires {SUPPORTED, FORCE_SMS, CODE} !! p.Keys
    ensures Extends(p, CodeParams(p, sms, code))
  {
    assert SUPPORTED !in p && FORCE_SMS !in p && CODE !in p;
  }

  lemma CaptchaParamsExtend(p: Params, sid: Bytes, key: Bytes)
    requires PlainParams(p)
    ensures Extends(p, CaptchaParams(p, sid, key))
    ensures {SUPPORTED, FORCE_SMS, CODE} !! CaptchaParams(p, sid, key).Keys
  {
    assert CAPTCHA_SID !in p && CAPTCHA_KEY !in p;
    assert SUPPORTED !in p && FORCE_SMS !in p && CODE !in p;
    assert CAPTCHA_SID[0] == 'c' && CAPTCHA_KEY[0] == 'c';
    assert SUPPORTED[0] == '2' && FORCE_SMS[0] == 'f';
    assert |CODE| == 4 && |CAPTCHA_SID| == 11 && |CAPTCHA_KEY| == 11;
    var q := CaptchaParams(p, sid, key);
    assert q.Keys == p.Keys + {CAPTCHA_SID, CAPTCHA_KEY};
  }

  /** The names the login adds are different. */
  lemma AddedNames()
    ensures CAPTCHA_SID != CAPTCHA_KEY && SUPPORTED != FORCE_SMS && SUPPORTED != CODE && FORCE_SMS != CODE
    ensures FORCE_SMS != CAPTCHA_SID && FORCE_SMS != CAPTCHA_KEY
  {
    assert CAPTCHA_SID[8] == 's' && CAPTCHA_KEY[8] == 'k';
    assert |SUPPORTED| == 13 && |FORCE_SMS| == 9 && |CODE| == 4 && |CAPTCHA_SID| == 11 && |CAPTCHA_KEY| == 11;
  }

  /** The reply that carries the challenge. */
  function ChallengeOf(sc: Script): Reply {
    if AsksCaptcha(sc.first) then sc.second else sc.first
  }

  /** `q` carries the code, and asks for an SMS as told. */
  predicate CarriesCode(q: Params, sms: bool, code: Bytes) {
    && SUPPORTED in q && q[SUPPORTED] == Str(ONE)
    && CODE in q && q[CODE] == Str(code)
    && (FORCE_SMS in q <==> sms)
  }

  lemma CodeParamsCarry(p: Params, sms: bool, code: Bytes)
    requires FORCE_SMS !in p
    ensures CarriesCode(CodeParams(p, sms, code), sms, code)
  {
    AddedNames();
  }

  /** After a recognised challenge the last POST carries the code. */
  lemma ChallengePosts(u: User, p: Params, posts: seq<Params>, h: Reply, sc: Script)
    requires Challenge(h)
    ensures AfterErrorSpec(u, p, posts, h.doc.value, sc).posts
            == posts + [CodeParams(p, StrAt(h.doc.value, VALIDATION_TYPE) == Some(SMS), sc.code)]
  {
    hide CodeParams, TakeIdentity;
  }

  lemma CaptchaNoSms(p: Params, sid: Bytes, key: Bytes)
    requires PlainParams(p)
    ensures FORCE_SMS !in CaptchaParams(p, sid, key) && FORCE_SMS !in p
  {
    CaptchaParamsExtend(p, sid, key);
    PlainCode(p);
    assert FORCE_SMS in {SUPPORTED, FORCE_SMS, CODE};
  }

  /** Where the flow of a login goes after its first reply. */
  lemma LoginRoute(u: User, p: Params, sc: Script)
    ensures AsksCaptcha(sc.first) ==>
              var p1 := CaptchaParams(p, StrAt(sc.first.doc.value, CAPTCHA_SID).value, sc.captchaKey);
              LoginSpec(u, p, sc).posts == if sc.second.Raw? && sc.second.doc.Some?
                then AfterErrorSpec(u.(authorized := false), p1, [p, p1], sc.second.doc.value, sc).posts
                else [p, p1]
    ensures OtherError(sc.first) ==>
              LoginSpec(u, p, sc) == AfterErrorSpec(u.(authorized := false), p, [p], sc.first.doc.value, sc)
  {
    hide AfterErrorSpec, CaptchaParams, TakeIdentity;
  }

  /**
   What the last POST carries after a challenge, direct or behind a captcha: the typed code, and a
   forced SMS exactly for the SMS challenge.
   */
  lemma RetryContent(u: User, p: Params, sc: Script)
    requires PlainParams(p) && Challenged(sc)
    ensures var posts := LoginSpec(u, p, sc).posts;
            && |posts| == (if AsksCaptcha(sc.first) then 3 else 2)
            && CarriesCode(posts[|posts| - 1],
                           StrAt(ChallengeOf(sc).doc.value, VALIDATION_TYPE) == Some(SMS), sc.code)
  {
    hide LoginSpec, AfterErrorSpec, CaptchaParams, CodeParams, PlainParams, CarriesCode;
    var u1, sms := u.(authorized := false), StrAt(ChallengeOf(sc).doc.value, VALIDATION_TYPE) == Some(SMS);
    LoginRoute(u, p, sc);
    if AsksCaptcha(sc.first) {
      var sid := StrAt(sc.first.doc.value, CAPTCHA_SID).value;
      var p1 := CaptchaParams(p, sid, sc.captchaKey);
      CaptchaNoSms(p, sid, sc.captchaKey);
      ChallengePosts(u1, p1, [p, p1], sc.second, sc);
      CodeParamsCarry(p1, sms, sc.code);
    } else {
      CaptchaNoSms(p, [], []);
      ChallengePosts(u1, p, [p], sc.first, sc);
      CodeParamsCarry(p, sms, sc.code);
    }
  }

  /** The second POST after a captcha carries the captcha's id and the typed text, and the rest as before. */
  lemma CaptchaContent(u: User, p: Params, sc: Script)
    requires AsksCaptcha(sc.first)
    ensures var posts := LoginSpec(u, p, sc).posts;
            && |posts| >= 2
            && CAPTCHA_SID in posts[1] && posts[1][CAPTCHA_SID] == sc.first.doc.value.fields[CAPTCHA_SID]
            && CAPTCHA_KEY in posts[1] && posts[1][CAPTCHA_KEY] == Str(sc.captchaKey)
            && posts[1] - {CAPTCHA_SID, CAPTCHA_KEY} == p - {CAPTCHA_SID, CAPTCHA_KEY}
  {
    hide LoginSpec, AfterErrorSpec;
    AddedNames();
    LoginRoute(u, p, sc);
    if sc.second.Raw? && sc.second.doc.Some? {
      var p1 := CaptchaParams(p, StrAt(sc.first.doc.value, CAPTCHA_SID).value, sc.captchaKey);
      PostsKept(u.(authorized := false), p1, [p, p1], sc.second.doc.value, sc);
    }
  }

  lemma PostsKept(u: User, p: Params, posts: seq<Params>, r: Json, sc: Script)
    ensures posts <= AfterErrorSpec(u, p, posts, r, sc).posts
  {
    hide CodeParams, TakeIdentity;
  }

  /** The second factor adds at most one POST, with more parameters than the last. */
  lemma SecondFactorPosts(u: User, p: Params, posts: seq<Params>, r: Json, sc: Script)
    requires {SUPPORTED, FORCE_SMS, CODE} !! p.Keys
    ensures var all := AfterErrorSpec(u, p, posts, r, sc).posts;
            all == posts || (exists q :: all == posts + [q] && Extends(p, q))
  {
    hide Extends, CodeParams, TakeIdentity;
    CodeParamsExtend(p, true, sc.code);
    CodeParamsExtend(p, false, sc.code);
  }

  /** At most three POSTs, the first with the given parameters and each later one extending the last. */
  lemma LoginPosts(u: User, p: Params, sc: Script)
    requires PlainParams(p)
    ensures var posts := LoginSpec(u, p, sc).posts;
            && 1 <= |posts| <= 3 && posts[0] == p
            && (|posts| == 3 ==> AsksCaptcha(sc.first))
            && forall i :: 0 <= i < |posts| - 1 ==> Extends(posts[i], posts[i + 1])
  {
    hide Extends, CaptchaParams, PlainParams, TakeIdentity, AfterErrorSpec;
    var u1 := u.(authorized := false);
    if AsksCaptcha(sc.first) {
      var p1 := CaptchaParams(p, StrAt(sc.first.doc.value, CAPTCHA_SID).value, sc.captchaKey);
      CaptchaParamsExtend(p, StrAt(sc.first.doc.value, CAPTCHA_SID).value, sc.captchaKey);
      if sc.second.Raw? && sc.second.doc.Some? {
        SecondFactorPosts(u1, p1, [p, p1], sc.second.doc.value, sc);
      }
    } else if OtherError(sc.first) {
      PlainCode(p);
      SecondFactorPosts(u1, p, [p], sc.first.doc.value, sc);
    }
  }

  lemma PlainCode(p: Params)
    requires PlainParams(p)
    ensures {SUPPORTED, FORCE_SMS, CODE} !! p.Keys
  {
  }

  // ----- identity

  /** The reply whose token and user id a login reads. */
  function Source(sc: Script): Option<Json> {
    if sc.first.Raw? && sc.first.doc.Some? && !Contains(sc.first.doc.value, ERROR) then sc.first.doc
    else if Challenged(sc) && sc.third.Raw? && sc.third.doc.Some? && !Contains(sc.third.doc.value, ERROR)
    then sc.third.doc
    else None
  }

  /**
   What a login leaves behind: the pair of its source reply; a source with a token and no readable user
   id leaves the new token beside the old id, and the client not authorised.
   */
  lemma LoginIdentity(u: User, p: Params, sc: Script)
    ensures var u1 := LoginSpec(u, p, sc).user;
            match Source(sc)
            case None => u1 == u.(authorized := false)
            case Some(r) =>
              match (StrAt(r, ACCESS_TOKEN), Int64At(r, USER_ID))
              case (None, _) => u1 == u.(authorized := false)
              case (Some(token), None) => u1 == User(token, u.userId, false)
              case (Some(token), Some(id)) => u1 == User(token, Print(id), true)
  {
  }

  /**
   What `auth(token)` leaves behind: the new pair on success, an empty one after an error reply, and the
   old one, not authorised, after anything else that gets past the argument check.
   */
  lemma TokenIdentity(u: User, token: Bytes, h: Reply)
    requires token != []
    ensures var u1 := TokenSpec(u, token, h).0;
            if Granted(TokenCall(token, h)).Some? then
              (u1.token, u1.userId, u1.authorized) == (token, Granted(TokenCall(token, h)).value.1, true)
            else if h.Raw? && h.doc.Some? && Contains(h.doc.value, ERROR) then u1 == FreshUser
            else u1 == u.(authorized := false)
    ensures TokenSpec(u, token, h).1 == Returned(true) <==> Granted(TokenCall(token, h)).Some?
    ensures TokenSpec(u, token, h).1.Raised? <==> h.Failed? || h.doc.None?
  {
  }

  datatype Call =
    | TokenCall(token: Bytes, h: Reply)
    | LoginCall(login: Bytes, password: Bytes, p: Params, sc: Script)

  /** The call gets past its argument check. */
  predicate Effective(c: Call) {
    match c
    case TokenCall(token, _) => token != []
    case LoginCall(login, password, _, _) => login != [] && password != []
  }

  function After(u: User, c: Call): User {
    match c
    case TokenCall(token, h) => TokenSpec(u, token, h).0
    case LoginCall(login, password, p, sc) =>
      if login == [] || password == [] then u else LoginSpec(u, p, sc).user
  }

  function Run(u: User, calls: seq<Call>): User {
    if calls == [] then u else After(Run(u, calls[..|calls| - 1]), calls[|calls| - 1])
  }

  /** Token and user id that one call, if it succeeds, sets together. */
  function Granted(c: Call): Option<(Bytes, Bytes)> {
    match c
    case TokenCall(token, h) =>
      if h.Raw? && h.doc.Some? && !Contains(h.doc.value, ERROR) && FirstId(h.doc.value).Some?
      then Some((token, Print(FirstId(h.doc.value).value)))
      else None
    case LoginCall(_, _, _, sc) =>
      if Complete(sc.first) || (Challenged(sc) && Complete(sc.third)) then
        var r := if Complete(sc.first) then sc.first.doc.value else sc.third.doc.value;
        Some((StrAt(r, ACCESS_TOKEN).value, Print(Int64At(r, USER_ID).value)))
      else None
  }

  function LastEffective(calls: seq<Call>): Option<Call> {
    if calls == [] then None
    else
      var c := calls[|calls| - 1];
      if Effective(c) then Some(c) else LastEffective(calls[..|calls| - 1])
  }

  lemma AfterGranted(u: User, c: Call)
    ensures !Effective(c) ==> After(u, c) == u
    ensures Effective(c) && Granted(c).Some? ==>
              After(u, c) == User(Granted(c).value.0, Granted(c).value.1, true)
    ensures Effective(c) && Granted(c).None? ==> !After(u, c).authorized
  {
    if c.LoginCall? {
      LoginOutcome(u, c.p, c.sc);
      LoginIdentity(u, c.p, c.sc);
    }
  }

  /**
   A client is authorised exactly when the last call that got past its argument check succeeded, and
   then its token and its user id are the pair which that one call set, whatever torn pairs failed
   calls left in between.
   */
  lemma {:induction false} AuthorizedIdentity(calls: seq<Call>)
    ensures var u := Run(FreshUser, calls);
            var last := LastEffective(calls);
            && (u.authorized <==> last.Some? && Granted(last.value).Some?)
            && (u.authorized ==> (u.token, u.userId) == Granted(last.value).value)
  {
    hide After, Granted, Effective;
    if calls != [] {
      var front, c := calls[..|calls| - 1], calls[|calls| - 1];
      AuthorizedIdentity(front);
      AfterGranted(Run(FreshUser, front), c);
    }
  }

  // ----- scopes

  /** The text the scope loop builds. */
  function ScopeText(scope: seq<Bytes>): Bytes {
    if scope == [] then []
    else
      var front := ScopeText(scope[..|scope| - 1]);
      (if front != [] then front + [COMMA] else front) + scope[|scope| - 1]
  }

  /** The elements that show in the text: an empty first one does not. */
  function Visible(scope: seq<Bytes>): seq<Bytes> {
    if scope != [] && scope[0] == [] then scope[1..] else scope
  }

  lemma VisibleSnoc(scope: seq<Bytes>)
    requires |scope| > 1
    ensures Visible(scope) == Visible(scope[..|scope| - 1]) + [scope[|scope| - 1]]
  {
    var front, last := scope[..|scope| - 1], scope[|scope| - 1];
    if scope[0] == [] {
      assert scope[1..] == front[1..] + [last];
    } else {
      assert scope == front + [last];
    }
  }

  lemma {:induction false} ScopeTextJoin(scope: seq<Bytes>)
    requires Ascending(scope)
    ensures if Visible(scope) == [] then ScopeText(scope) == []
            else ScopeText(scope) != [] && ScopeText(scope) == Join(Visible(scope), COMMA)
  {
    if scope != [] {
      var front, last := scope[..|scope| - 1], scope[|scope| - 1];
      assert Ascending(front);
      ScopeTextJoin(front);
      if |scope| > 1 {
        assert Less(scope[0], last);
        assert last != [];
        VisibleSnoc(scope);
        if Visible(front) != [] {
          JoinSnoc(Visible(front), last, COMMA);
        } else {
          assert Visible(scope) == [last];
        }
      }
    }
  }

  /** Splitting the scope text gives back the set, an empty scope aside, when no scope holds a comma. */
  lemma ScopeRoundTrip(scope: seq<Bytes>)
    requires Ascending(scope) && Visible(scope) != []
    requires forall s :: s in scope ==> COMMA !in s
    ensures Split(ScopeText(scope), COMMA) == Visible(scope)
  {
    ScopeTextJoin(scope);
    var v := Visible(scope);
    forall i | 0 <= i < |v| ensures COMMA !in v[i] {
      assert v[i] in scope;
    }
    SplitJoin(v, COMMA);
  }

  /** The text does not depend on the order in which scopes were added. */
  lemma ScopeOrderIrrelevant(scope: seq<Bytes>, x: Bytes, y: Bytes)
    requires Ascending(scope)
    ensures ScopeText(Insert(Insert(scope, x), y)) == ScopeText(Insert(Insert(scope, y), x))
  {
    InsertCommutes(scope, x, y);
  }

  // ----- the class

  const CLIENT_ID: Bytes := "client_id"
  const GRANT_TYPE: Bytes := "grant_type"
  const PASSWORD: Bytes := "password"
  const CLIENT_SECRET: Bytes := "client_secret"
  const SCOPE: Bytes := "scope"
  const USERNAME: Bytes := "username"

  /** The parameters of the first login POST. */
  function LoginParams(app: Bytes, secret: Bytes, scope: Bytes, login: Bytes, password: Bytes): (p: Params)
    ensures AllText(p)
  {
    map[CLIENT_ID := Str(app), GRANT_TYPE := Str(PASSWORD), CLIENT_SECRET := Str(secret),
        SCOPE := Str(scope), USERNAME := Str(login), PASSWORD := Str(password)]
  }

  /** None of the login parameters is one that the captcha or the second factor adds. */
  lemma LoginParamsPlain(app: Bytes, secret: Bytes, scope: Bytes, login: Bytes, password: Bytes)
    ensures PlainParams(LoginParams(app, secret, scope, login, password))
  {
    assert |CLIENT_ID| == 9 && |GRANT_TYPE| == 10 && |CLIENT_SECRET| == 13 && |SCOPE| == 5
        && |USERNAME| == 8 && |PASSWORD| == 8;
    assert |CAPTCHA_SID| == 11 && |CAPTCHA_KEY| == 11 && |SUPPORTED| == 13 && |FORCE_SMS| == 9 && |CODE| == 4;
    assert SUPPORTED[0] == '2' && CLIENT_SECRET[0] == 'c' && FORCE_SMS[0] == 'f' && CLIENT_ID[0] == 'c';
  }

  lemma PostsText(u: User, p: Params, sc: Script)
    requires AllText(p)
    ensures forall i :: 0 <= i < |LoginSpec(u, p, sc).posts| ==> AllText(LoginSpec(u, p, sc).posts[i])
  {
    LoginPostsExact(u, p, sc);
    hide LoginSpec, Challenged, CodeAdds;
    assert AllText(CaptchaAdds(sc));
    CodeAddsText(sc);
  }

  lemma CodeAddsText(sc: Script)
    ensures AllText(CodeAdds(sc))
  {
    hide ChallengeDoc;
  }

  /** Every request of a login goes to the one place, and the server reads in it what was posted. */
  lemma LoginRequestsContent(u: User, app: Bytes, secret: Bytes, scope: Bytes, login: Bytes, password: Bytes,
                             sc: Script, i: nat, form: bool)
    requires i < |LoginSpec(u, LoginParams(app, secret, scope, login, password), sc).posts|
    ensures var posts := LoginSpec(u, LoginParams(app, secret, scope, login, password), sc).posts;
            var r := LoginRequests(posts)[i];
            && r.Post? && r.host == "oauth.vk.com" && r.target == "/token"
            && AllText(posts[i]) && DecodeQuery(r.body, form) == Texts(posts[i])
  {
    hide LoginSpec, LoginParams, DecodeQuery, QueryOf;
    PostsText(u, LoginParams(app, secret, scope, login, password), sc);
    var posts := LoginSpec(u, LoginParams(app, secret, scope, login, password), sc).posts;
    QueryRoundTrip(posts[i], form);
  }

  /** Where the first login POST goes and what the server reads in it. */
  lemma LoginPostContent(app: Bytes, secret: Bytes, scope: Bytes, login: Bytes, password: Bytes, form: bool)
    ensures var r := LoginPost(LoginParams(app, secret, scope, login, password));
            && r.Post? && r.host == "oauth.vk.com" && r.target == "/token"
            && DecodeQuery(r.body, form)
               == map["client_id" := app, "grant_type" := "password", "client_secret" := secret,
                      "scope" := scope, "username" := login, "password" := password]
  {
    hide DecodeQuery, QueryOf;
    var m := LoginParams(app, secret, scope, login, password);
    QueryRoundTrip(m, form);
    assert Texts(m) == map[CLIENT_ID := app, GRANT_TYPE := PASSWORD, CLIENT_SECRET := secret,
                           SCOPE := scope, USERNAME := login, PASSWORD := password];
  }

  /** Where the users.get POST goes and what the server reads in it. */
  lemma TokenPostContent(token: Bytes, form: bool)
    ensures var r := TokenPost(USERS_GET, UserDefaults(token));
            && r.Post? && r.host == "api.vk.com" && r.target == "/method/users.get"
            && DecodeQuery(r.body, form) == map["access_token" := token, "v" := "5.120"]
  {
    hide DecodeQuery, QueryOf;
    var m := UserDefaults(token);
    QueryRoundTrip(m, form);
    assert Texts(m) == map["access_token" := token, "v" := "5.120"];
  }

  /** The POSTs of a login by this client: at most three, each extending the one before. */
  lemma ClientLoginPosts(u: User, app: Bytes, secret: Bytes, scope: Bytes, login: Bytes, password: Bytes, sc: Script)
    ensures var p := LoginParams(app, secret, scope, login, password);
            var posts := LoginSpec(u, p, sc).posts;
            && 1 <= |posts| <= 3 && posts[0] == p
            && forall i :: 0 <= i < |posts| - 1 ==> Extends(posts[i], posts[i + 1])
  {
    LoginParamsPlain(app, secret, scope, login, password);
    LoginPosts(u, LoginParams(app, secret, scope, login, password), sc);
    hide LoginParams, LoginSpec, Extends, PlainParams;
  }

  ghost function TokenPost(target: Bytes, p: Params): Request {
    Post(API_HOST, target, QueryOf(p).GetOr([]))
  }

  ghost function LoginPost(p: Params): Request {
    Post(OAUTH_HOST, TOKEN_TARGET, QueryOf(p).GetOr([]))
  }

  ghost function LoginRequests(posts: seq<Params>): seq<Request> {
    seq(|posts|, i requires 0 <= i < |posts| => LoginPost(posts[i]))
  }

  /** The POST of `send_request`, or what is thrown before it. */
  ghost function RequestOf(u: User, name: Bytes, params: Json): Result<Request, Fault> {
    if !u.authorized then Err(NotConnected)
    else if name == [] then Err(EmptyArgument)
    else
      match ParamMap(params)
      case None => Err(JsonFault)
      case Some(m) =>
        match QueryOf(FillUser(m, u.token))
        case None => Err(JsonFault)
        case Some(body) => Ok(Post(API_HOST, METHOD_PREFIX + name, body))
  }

  /** What the server reads in a user request: the caller's parameters over the two defaults. */
  lemma RequestContent(u: User, name: Bytes, params: Json, form: bool)
    ensures RequestOf(u, name, params).Ok?
            <==> u.authorized && name != [] && ParamMap(params).Some? && AllText(ParamMap(params).value)
    ensures RequestOf(u, name, params).Err? ==>
              RequestOf(u, name, params).error
              == if !u.authorized then NotConnected else if name == [] then EmptyArgument else JsonFault
    ensures RequestOf(u, name, params).Ok? ==>
              var r := RequestOf(u, name, params).value;
              && r.Post? && r.host == "api.vk.com" && r.target == "/method/" + name
              && DecodeQuery(r.body, form) == Texts(UserDefaults(u.token)) + Texts(ParamMap(params).value)
  {
    if ParamMap(params).Some? {
      UserBodyContent(ParamMap(params).value, u.token, form);
    }
  }

  class UserBase {
    const appId: Bytes
    const appSecret: Bytes
    var token: Bytes
    var userId: Bytes
    var authorized: bool
    /** `m_scope`, in its visiting order. */
    var scope: seq<Bytes>
    var sent: seq<Request>

    function State(): User
      reads this
    {
      User(token, userId, authorized)
    }

    ghost predicate Valid()
      reads this
    {
      Ascending(scope)
    }

    constructor (appId: Bytes, appSecret: Bytes)
      ensures Valid() && State() == FreshUser && scope == [] && sent == []
      ensures this.appId == appId && this.appSecret == appSecret
    {
      this.appId, this.appSecret := appId, appSecret;
      token, userId, authorized := [], [], false;
      scope, sent := [], [];
    }

    /** The constructor of the source, which throws on an empty argument. */
    static method Create(appId: Bytes, appSecret: Bytes) returns (r: Result<UserBase, Fault>)
      ensures r.Ok? <==> appId != [] && appSecret != []
      ensures r.Err? ==> r.error == EmptyArgument
      ensures r.Ok? ==>
                && fresh(r.value) && r.value.Valid() && r.value.State() == FreshUser
                && r.value.appId == appId && r.value.appSecret == appSecret
    {
      if appId == [] || appSecret == [] {
        return Err(EmptyArgument);
      }
      var user := new UserBase(appId, appSecret);
      return Ok(user);
    }

    method AddScope(s: Bytes)
      requires Valid()
      modifies this`scope
      ensures Valid() && Elements(scope) == old(Elements(scope)) + {s}
      ensures scope == Insert(old(scope), s)
    {
      InsertElements(scope, s);
      scope := Insert(scope, s);
    }

    method ClearScope()
      modifies this`scope
      ensures Valid() && Elements(scope) == {}
    {
      scope := [];
    }

    method JoinScope() returns (text: Bytes)
      ensures text == ScopeText(scope)
    {
      text := [];
      for i := 0 to |scope|
        invariant text == ScopeText(scope[..i])
      {
        assert scope[..i + 1][..i] == scope[..i];
        if text != [] {
          text := text + [COMMA];
        }
        text := text + scope[i];
      }
      assert scope[..|scope|] == scope;
    }

    method PostLogin(params: Params)
      modifies this`sent
      ensures sent == old(sent) + [LoginPost(params)]
    {
      var body := ParamsToQuery(params);
      sent := sent + [Post(OAUTH_HOST, TOKEN_TARGET, body.GetOr([]))];
    }

    /** `auth(access_token)`. */
    method AuthToken(accessToken: Bytes, reply: Reply) returns (r: AuthResult)
      modifies this`token, this`userId, this`authorized, this`sent
      ensures (State(), r) == TokenSpec(old(State()), accessToken, reply)
      ensures sent == old(sent) + if accessToken == [] then [] else [TokenPost(USERS_GET, UserDefaults(accessToken))]
    {
      if accessToken == [] {
        return Raised(EmptyArgument);
      }
      authorized := false;
      var body := ParamsToQuery(UserDefaults(accessToken));
      sent := sent + [Post(API_HOST, USERS_GET, body.GetOr([]))];
      if reply.Failed? {
        return Raised(NetworkFault(reply.msg));
      }
      if reply.doc == None {
        return Raised(JsonFault);
      }
      var response := reply.doc.value;
      if !Contains(response, ERROR) {
        if Contains(response, RESPONSE) && response.fields[RESPONSE].Arr? && response.fields[RESPONSE].items != [] {
          var id := Int64At(response.fields[RESPONSE].items[0], ID);
          if id == None {
            return Returned(authorized);
          }
          userId := Print(id.value);
          token := accessToken;
          authorized := true;
        }
      } else {
        userId := [];
        token := [];
        authorized := false;
      }
      return Returned(authorized);
    }

    /** Writes the token, then the user id; `false` when an access throws. */
    method ReadIdentity(r: Json) returns (ok: bool)
      modifies this`token, this`userId
      ensures (State(), ok) == TakeIdentity(old(State()), r)
    {
      var t := StrAt(r, ACCESS_TOKEN);
      if t == None {
        return false;
      }
      token := t.value;
      var id := Int64At(r, USER_ID);
      if id == None {
        return false;
      }
      userId := Print(id.value);
      return true;
    }

    /** `handle_2fa`; `None` is an exception that the caller catches. */
    method Handle2fa(params: Params, errorResponse: Json, sc: Script, ghost posts: seq<Params>)
      returns (r: Result<bool, Fault>)
      requires !authorized
      modifies this`token, this`userId, this`sent
      ensures var end := SecondFactorSpec(old(State()), params, posts, errorResponse, sc);
              && r == (match end.result case Returned(ok) => Ok(ok) case Raised(fault) => Err(fault))
              && State() == end.user.(authorized := false)
              && (end.user.authorized <==> end.result == Returned(true))
              && posts <= end.posts
              && sent == old(sent) + LoginRequests(end.posts[|posts|..])
    {
      var kind := StrAt(errorResponse, VALIDATION_TYPE);
      if kind == None {
        return Ok(false);
      }
      if kind.value != SMS && kind.value != APP {
        return Ok(false);
      }
      var all := params[SUPPORTED := Str(ONE)];
      if kind.value == SMS {
        all := all[FORCE_SMS := Str(ONE)];
      }
      all := all[CODE := Str(sc.code)];
      assert (posts + [all])[|posts|..] == [all];
      assert LoginRequests([all]) == [LoginPost(all)];
      PostLogin(all);
      if sc.third.Failed? {
        return Err(NetworkFault(sc.third.msg));
      }
      if sc.third.doc == None || Contains(sc.third.doc.value, ERROR) {
        return Ok(false);
      }
      var ok := ReadIdentity(sc.third.doc.value);
      return Ok(ok);
    }

    /** `send_request`: the caller gets exactly the document of the reply. */
    method SendRequest(name: Bytes, params: Json, reply: Reply) returns (r: Result<Json, Fault>)
      modifies this`sent
      ensures match RequestOf(old(State()), name, params)
              case Err(fault) => r == Err(fault) && sent == old(sent)
              case Ok(request) => r == Parsed(reply) && sent == old(sent) + [request]
      ensures r.Ok? <==> RequestOf(old(State()), name, params).Ok? && reply.Raw? && reply.doc.Some?
      ensures r.Ok? ==> reply == Raw(Some(r.value))
    {
      if !authorized {
        return Err(NotConnected);
      }
      if name == [] {
        return Err(EmptyArgument);
      }
      if !params.Obj? && !params.Null? {
        return Err(JsonFault);
      }
      var m := if params.Obj? then params.fields else map[];
      var body := ParamsToQuery(FillUser(m, token));
      if body == None {
        return Err(JsonFault);
      }
      sent := sent + [Post(API_HOST, METHOD_PREFIX + name, body.value)];
      return Parsed(reply);
    }

    /** `auth(login, password)`. */
    method AuthLogin(login: Bytes, password: Bytes, sc: Script) returns (r: AuthResult)
      modifies this`token, this`userId, this`authorized, this`sent
      ensures login == [] || password == [] ==>
                r == Raised(EmptyArgument) && State() == old(State()) && sent == old(sent)
      ensures login != [] && password != [] ==>
                var p := LoginParams(appId, appSecret, ScopeText(scope), login, password);
                var end := LoginSpec(old(State()), p, sc);
                State() == end.user && r == end.result && sent == old(sent) + LoginRequests(end.posts)
    {
      hide LoginParams, CaptchaParams, LoginPost, SecondFactorSpec, TakeIdentity;
      if login == [] || password == [] {
        return Raised(EmptyArgument);
      }
      authorized := false;
      var scopeText := JoinScope();
      var params := LoginParams(appId, appSecret, scopeText, login, password);
      ghost var p0 := params;
      ghost var posts := [p0];
      assert LoginRequests(posts) == [LoginPost(params)];
      PostLogin(params);
      if sc.first.Failed? {
        return Raised(NetworkFault(sc.first.msg));
      }
      if sc.first.doc == None {
        return Returned(authorized);
      }
      var response := sc.first.doc.value;
      if Contains(response, ERROR) {
        var err := GetStr(response.fields[ERROR]);
        if err == None {
          return Returned(authorized);
        }
        if err.value == NEED_CAPTCHA {
          if StrAt(response, CAPTCHA_IMG) == None || StrAt(response, CAPTCHA_SID) == None {
            return Returned(authorized);
          }
          params := CaptchaParams(params, StrAt(response, CAPTCHA_SID).value, sc.captchaKey);
          posts := [p0, params];
          assert LoginRequests(posts) == [LoginPost(p0), LoginPost(params)];
          PostLogin(params);
          if sc.second.Failed? {
            return Raised(NetworkFault(sc.second.msg));
          }
          if sc.second.doc == None {
            return Returned(authorized);
          }
          response := sc.second.doc.value;
        }
        if Contains(response, VALIDATION_TYPE) {
          var ok := Handle2fa(params, response, sc, posts);
          ghost var end := SecondFactorSpec(old(State()).(authorized := false), params, posts, response, sc);
          LoginRequestsConcat(end.posts, |posts|);
          assert end.posts[..|posts|] == posts;
          if ok.Err? {
            return Raised(ok.error);
          }
          authorized := ok.value;
          return Returned(authorized);
        }
      } else {
        authorized := ReadIdentity(response);
      }
      return Returned(authorized);
    }
  }

  lemma LoginRequestsConcat(posts: seq<Params>, n: nat)
    requires n <= |posts|
    ensures LoginRequests(posts) == LoginRequests(posts[..n]) + LoginRequests(posts[n..])
  {
  }
}
