/**
 `BotBase` of src/BotBase.cpp: authorisation, the waiting loop and the requests, as a class whose
 methods are tied to functions on the value of its fields, and what holds after any sequence of calls.
 The replies, and what the loop reads from the interrupt flag, are inputs.
 */
module BotClient {
  import opened ByteStrings
  import opened HostPath
  import opened Http
  import opened JsonValues
  import opened LongPoll
  import opened Query

  const GET_SERVER: Bytes := "groups.getLongPollServer"

  datatype Bot = Bot(token: Bytes, authorized: bool, session: Session)

  const FreshBot: Bot := Bot([], false, Session([], [], []))

  // ----- the calls as functions

  /** `auth(token)` when the server answers `h`. */
  function AuthSpec(b: Bot, token: Bytes, h: Reply): (Bot, Option<Fault>) {
    if token == [] then (b, Some(EmptyArgument))
    else
      var kept := b.authorized && token == b.token;
      var (s, fault) := TakeServer(b.session, h);
      (Bot(token, kept || fault == None, s), fault)
  }

  function ReconnectSpec(b: Bot, h: Reply): (Bot, Option<Fault>) {
    AuthSpec(b.(authorized := false), b.token, h)
  }

  /** `wait_for_event(ec)`; `None` while the call has not ended. */
  function WaitSpec(b: Bot, rs: seq<Round>): (Bot, Option<Outcome>) {
    if !b.authorized then (b, Some(Threw(NotConnected)))
    else
      match PollFold(b.session, rs)
      case Waiting(s) => (b.(session := s), None)
      case Ended(s, out, _) => (b.(session := s), Some(out))
  }

  ghost function ServerPost(token: Bytes, group: Bytes): Request {
    Post(API_HOST, METHOD_PREFIX + GET_SERVER, QueryOf(BotDefaults(token, group)).GetOr([]))
  }

  /** Where a getLongPollServer request goes and what the server reads in it. */
  lemma ServerPostContent(token: Bytes, group: Bytes, form: bool)
    ensures var r := ServerPost(token, group);
            && r.Post? && r.host == "api.vk.com" && r.target == "/method/" + "groups.getLongPollServer"
            && DecodeQuery(r.body, form)
               == map["access_token" := token, "group_id" := group, "v" := "5.120"]
  {
    hide DecodeQuery, QueryOf;
    var m := BotDefaults(token, group);
    QueryRoundTrip(m, form);
    assert Texts(m) == map["access_token" := token, "group_id" := group, "v" := "5.120"];
  }

  ghost function AuthRequests(token: Bytes, group: Bytes): seq<Request> {
    if token == [] then [] else [ServerPost(token, group)]
  }

  /** `auth` sends one POST, that of the new token, and only for a token that is not empty. */
  lemma AuthSends(token: Bytes, group: Bytes)
    ensures token == [] ==> AuthRequests(token, group) == []
    ensures token != [] ==> AuthRequests(token, group) == [ServerPost(token, group)]
  {
    hide ServerPost;
  }

  /**
   `auth` returns normally exactly when its token is not empty and the reply brings a complete session;
   each exception has its one cause.
   */
  lemma AuthOutcome(b: Bot, token: Bytes, h: Reply, msg: Bytes)
    ensures var fault := AuthSpec(b, token, h).1;
            && (fault == None <==> token != [] && Depth(h) == 3)
            && (fault == Some(EmptyArgument) <==> token == [])
            && (fault == Some(NetworkFault(msg)) <==> token != [] && h == Failed(msg))
            && (fault == Some(AuthFailed)
                <==> token != [] && h.Raw? && h.doc.Some? && Contains(h.doc.value, "error"))
            && (fault == Some(JsonFault)
                <==> token != [] && h.Raw? && (h.doc.None? || !Contains(h.doc.value, "error")) && Depth(h) != 3)
  {
    TakeServerEffect(b.session, h);
    TakeServerFaults(b.session, h, msg);
    hide TakeServer, Depth;
  }

  /** The same for `reconnect`, about the token the bot has. */
  lemma ReconnectOutcome(b: Bot, h: Reply, msg: Bytes)
    ensures var fault := ReconnectSpec(b, h).1;
            && (fault == None <==> b.token != [] && Depth(h) == 3)
            && (fault == Some(EmptyArgument) <==> b.token == [])
            && (fault == Some(NetworkFault(msg)) <==> b.token != [] && h == Failed(msg))
            && (fault == Some(AuthFailed)
                <==> b.token != [] && h.Raw? && h.doc.Some? && Contains(h.doc.value, "error"))
            && (fault == Some(JsonFault)
                <==> b.token != [] && h.Raw? && (h.doc.None? || !Contains(h.doc.value, "error")) && Depth(h) != 3)
  {
    AuthOutcome(b.(authorized := false), b.token, h, msg);
    hide AuthSpec, Depth;
  }

  lemma PassConnected(s: Session, r: Round)
    ensures OnePass(s, r) != Done(OnePass(s, r).s, Threw(NotConnected))
  {
    ThrowsExactlyWhen(s, r, NotConnected);
    TakeServerFaults(s, r.refresh, []);
    hide OnePass, TakeServer, Refreshes;
  }

  lemma {:induction false} FoldConnected(s: Session, rs: seq<Round>)
    ensures PollFold(s, rs).Ended? ==> PollFold(s, rs).out != Threw(NotConnected)
    decreases |rs|
  {
    hide OnePass;
    if rs != [] {
      PassConnected(s, rs[0]);
      if OnePass(s, rs[0]).Loop? {
        FoldConnected(OnePass(s, rs[0]).s, rs[1..]);
      }
    }
  }

  /** An unauthorised call, and no other, throws NotConnected; it sends nothing and changes nothing. */
  lemma WaitNeedsAuth(b: Bot, group: Bytes, wait: Bytes, rs: seq<Round>)
    ensures WaitSpec(b, rs).1 == Some(Threw(NotConnected)) <==> !b.authorized
    ensures !b.authorized ==> WaitSpec(b, rs).0 == b && WaitRequests(b, group, wait, rs) == []
    ensures b.authorized ==>
              WaitRequests(b, group, wait, rs) == PollRequests(b.session, wait, ServerPost(b.token, group), rs)
  {
    FoldConnected(b.session, rs);
    hide PollFold, ServerPost;
  }

  ghost function WaitRequests(b: Bot, group: Bytes, wait: Bytes, rs: seq<Round>): seq<Request> {
    if !b.authorized then [] else PollRequests(b.session, wait, ServerPost(b.token, group), rs)
  }

  /** The POST of `send_request`, or what is thrown before it. */
  ghost function RequestOf(b: Bot, group: Bytes, name: Bytes, params: Json): Result<Request, Fault> {
    if !b.authorized then Err(NotConnected)
    else if name == [] then Err(EmptyArgument)
    else
      match ParamMap(params)
      case None => Err(JsonFault)
      case Some(m) =>
        match QueryOf(FillBot(m, b.token, group))
        case None => Err(JsonFault)
        case Some(body) => Ok(Post(API_HOST, METHOD_PREFIX + name, body))
  }

  /**
   What the server reads in a request: the method, and the caller's parameters over the defaults.  A
   request goes out exactly when the bot is authorised, the method is named and all values are text;
   otherwise the first of these that fails decides what is thrown.
   */
  lemma RequestContent(b: Bot, group: Bytes, name: Bytes, params: Json, form: bool)
    ensures RequestOf(b, group, name, params).Ok?
            <==> b.authorized && name != [] && ParamMap(params).Some? && AllText(ParamMap(params).value)
    ensures RequestOf(b, group, name, params).Err? ==>
              RequestOf(b, group, name, params).error
              == if !b.authorized then NotConnected else if name == [] then EmptyArgument else JsonFault
    ensures RequestOf(b, group, name, params).Ok? ==>
              var r := RequestOf(b, group, name, params).value;
              && r.Post? && r.host == "api.vk.com" && r.target == "/method/" + name
              && DecodeQuery(r.body, form)
                 == Texts(BotDefaults(b.token, group)) + Texts(ParamMap(params).value)
  {
    if ParamMap(params).Some? {
      BotBodyContent(ParamMap(params).value, b.token, group, form);
    }
  }

  // ----- the passes of a waiting call as the client plays them

  /** One pass: what the flag checks read, and what the network does in the GET and the refresh. */
  datatype Turn = Turn(top: bool, get: Exchange, recheck: bool, refresh: Exchange)

  /** The pass that a turn is, given m_cancelled at its start. */
  function RoundOf(cancelled: bool, t: Turn): Round {
    Round(t.top, ReplyTo(cancelled, t.get), t.recheck, ReplyTo(CancelledAfter(cancelled, t.get), t.refresh))
  }

  predicate CancelledAfterTurn(cancelled: bool, t: Turn) {
    if t.top then cancelled
    else
      var c := CancelledAfter(cancelled, t.get);
      if Refreshes(RoundOf(cancelled, t)) then CancelledAfter(c, t.refresh) else c
  }

  predicate CancelledAfterTurns(cancelled: bool, ts: seq<Turn>) {
    if ts == [] then cancelled
    else CancelledAfterTurn(CancelledAfterTurns(cancelled, ts[..|ts| - 1]), ts[|ts| - 1])
  }

  function RoundsOf(cancelled: bool, ts: seq<Turn>): (rs: seq<Round>)
    ensures |rs| == |ts|
  {
    if ts == [] then []
    else
      var front := ts[..|ts| - 1];
      RoundsOf(cancelled, front) + [RoundOf(CancelledAfterTurns(cancelled, front), ts[|ts| - 1])]
  }

  /** The cancel flag after some turns is set exactly when it was before or somebody cancelled one of their requests. */
  lemma {:induction false} CancelledMeaning(cancelled: bool, ts: seq<Turn>)
    ensures CancelledAfterTurns(cancelled, ts)
            <==> cancelled || exists i :: 0 <= i < |ts| && CancelsTurn(RoundsOf(cancelled, ts)[i], ts[i])
  {
    hide Refreshes;
    if ts != [] {
      var front, n := ts[..|ts| - 1], |ts| - 1;
      CancelledMeaning(cancelled, front);
      var rs := RoundsOf(cancelled, ts);
      assert rs[..n] == RoundsOf(cancelled, front);
      assert forall i :: 0 <= i < n ==> ts[i] == front[i] && rs[i] == RoundsOf(cancelled, front)[i];
      assert CancelsTurn(rs[n], ts[n]) || !CancelsTurn(rs[n], ts[n]);
    }
  }

  /** A cancel comes while the GET or the refresh of the pass talks. */
  predicate CancelsTurn(r: Round, t: Turn) {
    && !r.top
    && ((t.get.Talk? && t.get.cancelledMeanwhile) || (Refreshes(r) && t.refresh.Talk? && t.refresh.cancelledMeanwhile))
  }

  lemma {:induction false} RoundsPrefix(cancelled: bool, ts: seq<Turn>, n: nat)
    requires n <= |ts|
    ensures RoundsOf(cancelled, ts)[..n] == RoundsOf(cancelled, ts[..n])
    decreases |ts|
  {
    hide RoundOf, CancelledAfterTurns;
    if n < |ts| {
      RoundsPrefix(cancelled, ts[..|ts| - 1], n);
      assert ts[..|ts| - 1][..n] == ts[..n];
    } else {
      assert ts[..n] == ts;
    }
  }

  lemma NoTurns(cancelled: bool, ts: seq<Turn>)
    ensures RoundsOf(cancelled, ts[..0]) == [] && CancelledAfterTurns(cancelled, ts[..0]) == cancelled
  {
  }

  lemma RoundsNext(cancelled: bool, ts: seq<Turn>, n: nat)
    requires n < |ts|
    ensures RoundsOf(cancelled, ts[..n + 1])
            == RoundsOf(cancelled, ts[..n]) + [RoundOf(CancelledAfterTurns(cancelled, ts[..n]), ts[n])]
    ensures CancelledAfterTurns(cancelled, ts[..n + 1])
            == CancelledAfterTurn(CancelledAfterTurns(cancelled, ts[..n]), ts[n])
  {
    hide RoundOf, CancelledAfterTurn;
    assert ts[..n + 1][..n] == ts[..n];
  }

  /** After a cancel every GET is refused, until somebody resets it. */
  lemma {:induction false} RefusedTurns(ts: seq<Turn>)
    ensures CancelledAfterTurns(true, ts)
    ensures forall i :: 0 <= i < |ts| ==> RoundsOf(true, ts)[i].got == Failed(CANCELED)
  {
    hide Refreshes;
    if ts != [] {
      RefusedTurns(ts[..|ts| - 1]);
    }
  }

  /** Before any cancel, every sequence of passes is one that the network can play. */
  lemma {:induction false} EveryRoundArises(rs: seq<Round>) returns (ts: seq<Turn>)
    ensures RoundsOf(false, ts) == rs && !CancelledAfterTurns(false, ts)
    decreases |rs|
  {
    hide Refreshes;
    if rs == [] {
      ts := [];
    } else {
      var front := EveryRoundArises(rs[..|rs| - 1]);
      var r := rs[|rs| - 1];
      ts := front + [Turn(r.top, Talk(false, r.got), r.recheck, Talk(false, r.refresh))];
      assert ts[..|ts| - 1] == front;
    }
  }

  /** A call that ended within a prefix of the passes ended the same way on all of them. */
  lemma {:induction false} EndedPrefix(s: Session, wait: Bytes, post: Request, rs: seq<Round>, n: nat)
    requires n <= |rs| && PollFold(s, rs[..n]).Ended?
    ensures PollFold(s, rs) == PollFold(s, rs[..n])
    ensures PollRequests(s, wait, post, rs) == PollRequests(s, wait, post, rs[..n])
    decreases n
  {
    hide OnePass, PassRequests;
    if n > 0 {
      assert rs[..n][0] == rs[0] && rs[..n][1..] == rs[1..][..n - 1];
      if OnePass(s, rs[0]).Loop? {
        EndedPrefix(OnePass(s, rs[0]).s, wait, post, rs[1..], n - 1);
      }
    }
  }

  // ----- the class

  class BotBase {
    const groupId: Bytes
    const timeWait: Bytes
    var token: Bytes
    var authorized: bool
    var key: Bytes
    var server: Bytes
    var ts: Bytes
    /** `m_interrupted`; what the waiting loop reads of it is an input, since other threads write it. */
    var interrupted: bool
    const http: HttpClient
    /** Every request made, in order. */
    var sent: seq<Request>

    function State(): Bot
      reads this
    {
      Bot(token, authorized, Session(key, server, ts))
    }

    constructor (groupId: Bytes, timeWait: Bytes)
      ensures State() == FreshBot && sent == []
      ensures this.groupId == groupId && this.timeWait == timeWait
      ensures !interrupted && fresh(http) && http.Idle() && !http.cancelled
    {
      this.groupId := groupId;
      this.timeWait := timeWait;
      token, authorized := [], false;
      key, server, ts := [], [], [];
      interrupted := false;
      http := new HttpClient();
      sent := [];
    }

    /** `interrupt()`: both flags, and the socket that is registered, if any. */
    method Interrupt()
      requires http.active.Some? ==> http.live == http.active
      modifies this`interrupted, http`cancelled, http`hits
      ensures interrupted && http.cancelled
      ensures http.hits == old(http.hits) + if http.active.Some? then [http.active.value] else []
    {
      interrupted := true;
      http.Cancel();
    }

    method ResetInterrupt()
      modifies this`interrupted, http`cancelled
      ensures !interrupted && !http.cancelled
    {
      interrupted := false;
      http.ResetCancel();
    }

    /** Hands one request to the HTTP client. */
    method Perform(request: Request, x: Exchange) returns (reply: Reply)
      requires http.Idle()
      modifies this`sent, http
      ensures http.Idle() && http.cancelled == CancelledAfter(old(http.cancelled), x)
      ensures reply == ReplyTo(old(http.cancelled), x) && sent == old(sent) + [request]
    {
      sent := sent + [request];
      reply := http.Execute(x);
    }

    method PostServer(x: Exchange) returns (reply: Reply)
      requires http.Idle()
      modifies this`sent, http
      ensures http.Idle() && http.cancelled == CancelledAfter(old(http.cancelled), x)
      ensures reply == ReplyTo(old(http.cancelled), x) && sent == old(sent) + [ServerPost(token, groupId)]
    {
      var body := ParamsToQuery(BotDefaults(token, groupId));
      QueryRoundTrip(BotDefaults(token, groupId), false);
      reply := Perform(Post(API_HOST, METHOD_PREFIX + GET_SERVER, body.GetOr([])), x);
    }

    /**
     `auth`: the three fields are assigned one after the other, and any access may throw.  Between an
     `interrupt()` and the `reset_interrupt()` after it, the request is refused.
     */
    method Auth(accessToken: Bytes, x: Exchange) returns (fault: Option<Fault>)
      requires http.Idle()
      modifies this`token, this`authorized, this`key, this`server, this`ts, this`sent, http
      ensures http.Idle()
      ensures (State(), fault) == AuthSpec(old(State()), accessToken, ReplyTo(old(http.cancelled), x))
      ensures http.cancelled == if accessToken == [] then old(http.cancelled)
                                else CancelledAfter(old(http.cancelled), x)
      ensures sent == old(sent) + AuthRequests(accessToken, groupId)
      ensures old(http.cancelled) && accessToken != [] ==>
                fault == Some(NetworkFault(CANCELED)) && State().session == old(State().session)
    {
      if accessToken == [] {
        return Some(EmptyArgument);
      }
      if accessToken != token {
        authorized := false;
      }
      token := accessToken;
      var reply := PostServer(x);
      match reply {
        case Failed(msg) => return Some(NetworkFault(msg));
        case Raw(None) => return Some(JsonFault);
        case Raw(Some(response)) =>
          if Contains(response, ERROR) {
            return Some(AuthFailed);
          }
          var r := At(response, RESPONSE);
          if r == None {
            return Some(JsonFault);
          }
          var v := StrAt(r.value, KEY_FIELD);
          if v == None {
            return Some(JsonFault);
          }
          key := v.value;
          v := StrAt(r.value, SERVER_FIELD);
          if v == None {
            return Some(JsonFault);
          }
          server := v.value;
          v := StrAt(r.value, TS_FIELD);
          if v == None {
            return Some(JsonFault);
          }
          ts := v.value;
      }
      authorized := true;
      fault := None;
    }

    /** `reconnect`; refused, it leaves the bot unauthorised. */
    method Reconnect(x: Exchange) returns (fault: Option<Fault>)
      requires http.Idle()
      modifies this`token, this`authorized, this`key, this`server, this`ts, this`sent, http
      ensures http.Idle()
      ensures (State(), fault) == ReconnectSpec(old(State()), ReplyTo(old(http.cancelled), x))
      ensures http.cancelled == if old(token) == [] then old(http.cancelled)
                                else CancelledAfter(old(http.cancelled), x)
      ensures sent == old(sent) + AuthRequests(old(token), groupId)
      ensures old(http.cancelled) ==> !authorized && fault.Some? && State().session == old(State().session)
    {
      authorized := false;
      fault := Auth(token, x);
    }

    /** `refresh_long_poll_server`. */
    method RefreshLongPollServer(x: Exchange) returns (fault: Option<Fault>)
      requires http.Idle()
      modifies this`key, this`server, this`ts, this`sent, http
      ensures http.Idle() && http.cancelled == CancelledAfter(old(http.cancelled), x)
      ensures (State().session, fault) == TakeServer(old(State().session), ReplyTo(old(http.cancelled), x))
      ensures sent == old(sent) + [ServerPost(token, groupId)]
    {
      var reply := PostServer(x);
      match reply {
        case Failed(msg) => return Some(NetworkFault(msg));
        case Raw(None) => return Some(JsonFault);
        case Raw(Some(response)) =>
          if Contains(response, ERROR) {
            return Some(AuthFailed);
          }
          var r := At(response, RESPONSE);
          if r == None {
            return Some(JsonFault);
          }
          var v := StrAt(r.value, KEY_FIELD);
          if v == None {
            return Some(JsonFault);
          }
          key := v.value;
          v := StrAt(r.value, SERVER_FIELD);
          if v == None {
            return Some(JsonFault);
          }
          server := v.value;
          v := StrAt(r.value, TS_FIELD);
          if v == None {
            return Some(JsonFault);
          }
          ts := v.value;
      }
      fault := None;
    }

    /** src/BotBase.cpp:216-252 for one body; `(None, false)` is `continue` without a refresh. */
    method HandleBody(parsed: Option<Json>) returns (out: Option<Outcome>, refresh: bool)
      modifies this`ts
      ensures match Handle(old(State().session), parsed)
              case Again(s) => State().session == s && out == None && !refresh
              case NeedRefresh => State().session == old(State().session) && out == None && refresh
              case Stop(s, o) => State().session == s && out == Some(o) && !refresh
    {
      out, refresh := None, false;
      if parsed == None {
        return Some(Threw(JsonFault)), false;
      }
      var response := parsed.value;
      if Contains(response, FAILED) {
        var code := GetInt32(response.fields[FAILED]);
        if code == None {
          return Some(Threw(JsonFault)), false;
        }
        if code.value == 1 {
          return;
        } else if code.value == 2 || code.value == 3 {
          return None, true;
        } else {
          return Some(UnknownCode), false;
        }
      }
      if Contains(response, TS_FIELD) {
        var v := GetStr(response.fields[TS_FIELD]);
        if v == None {
          return Some(Threw(JsonFault)), false;
        }
        ts := v.value;
      }
      if !Contains(response, UPDATES) || !response.fields[UPDATES].Arr? || response.fields[UPDATES].items == [] {
        return;
      }
      var update := response.fields[UPDATES].items[0];
      var kind := StrAt(update, TYPE);
      if kind == None {
        return Some(Threw(JsonFault)), false;
      }
      return Some(Delivered(Event(kind.value, update))), false;
    }

    /** One pass of the `while (true)` loop. */
    method OneTurn(t: Turn) returns (out: Option<Outcome>)
      requires http.Idle()
      modifies this`key, this`server, this`ts, this`sent, http
      ensures http.Idle() && http.cancelled == CancelledAfterTurn(old(http.cancelled), t)
      ensures match OnePass(old(State().session), RoundOf(old(http.cancelled), t))
              case Loop(s) => State().session == s && out == None
              case Done(s, o) => State().session == s && out == Some(o)
      ensures sent == old(sent)
                      + PassRequests(old(State().session), timeWait, ServerPost(token, groupId),
                                     RoundOf(old(http.cancelled), t))
    {
      hide Handle, SaysAborted, TakeServer;
      ghost var r := RoundOf(http.cancelled, t);
      RefreshesEffect(State().session, r);
      if t.top {
        return Some(Aborted);
      }
      var query := PollQuery(key, ts, timeWait);
      var (host, path) := ServerHostPath(server);
      var got := Perform(Get(host, path + (QUESTION + query)), t.get);
      var refresh := false;
      match got {
        case Failed(msg) =>
          if SaysAborted(msg) || t.recheck {
            return Some(Aborted);
          }
          refresh := true;
        case Raw(parsed) =>
          if t.recheck {
            return Some(Aborted);
          }
          out, refresh := HandleBody(parsed);
          if out != None {
            return;
          }
      }
      if refresh {
        var fault := RefreshLongPollServer(t.refresh);
        if fault != None {
          return Some(Threw(fault.value));
        }
      }
      out := None;
    }

    /** `wait_for_event(ec)` over the turns `turns`; it has not ended when they run out. */
    method WaitForEvent(turns: seq<Turn>) returns (out: Option<Outcome>)
      requires http.Idle()
      modifies this`key, this`server, this`ts, this`sent, http
      ensures http.Idle()
      ensures var rs := RoundsOf(old(http.cancelled), turns);
              && (State(), out) == WaitSpec(old(State()), rs)
              && sent == old(sent) + WaitRequests(old(State()), groupId, timeWait, rs)
              && http.cancelled
                 == CancelledAfterTurns(old(http.cancelled),
                                        turns[..if authorized then Used(old(State().session), rs) else 0])
    {
      hide OnePass, PassRequests, ServerPost, RoundOf, RoundsOf, CancelledAfterTurn, CancelledAfterTurns, ReplyTo;
      if !authorized {
        NoTurns(http.cancelled, turns);
        return Some(Threw(NotConnected));
      }
      ghost var s0, post, c0 := State().session, ServerPost(token, groupId), http.cancelled;
      var i := 0;
      NoTurns(c0, turns);
      while i < |turns|
        invariant 0 <= i <= |turns| && http.Idle()
        invariant PollFold(s0, RoundsOf(c0, turns[..i])) == Waiting(State().session)
        invariant sent == old(sent) + PollRequests(s0, timeWait, post, RoundsOf(c0, turns[..i]))
        invariant http.cancelled == CancelledAfterTurns(c0, turns[..i])
      {
        ghost var rs, r := RoundsOf(c0, turns[..i]), RoundOf(http.cancelled, turns[i]);
        RoundsNext(c0, turns, i);
        PollFoldSnoc(s0, rs, r);
        PollRequestsSnoc(s0, timeWait, post, rs, r);
        out := OneTurn(turns[i]);
        i := i + 1;
        if out != None {
          RoundsPrefix(c0, turns, i);
          EndedPrefix(s0, timeWait, post, RoundsOf(c0, turns), i);
          assert Used(s0, RoundsOf(c0, turns)) == i;
          return;
        }
      }
      assert turns[..i] == turns;
      out := None;
    }

    /** `wait_for_event()`: an abort becomes an exception. */
    method WaitForEventOrThrow(turns: seq<Turn>) returns (out: Option<Outcome>)
      requires http.Idle()
      modifies this`key, this`server, this`ts, this`sent, http
      ensures http.Idle()
      ensures var rs := RoundsOf(old(http.cancelled), turns);
              var (b, o) := WaitSpec(old(State()), rs);
              && State() == b
              && out == (if o == Some(Aborted) then Some(Threw(Interrupted)) else o)
              && sent == old(sent) + WaitRequests(old(State()), groupId, timeWait, rs)
    {
      out := WaitForEvent(turns);
      if out == Some(Aborted) {
        out := Some(Threw(Interrupted));
      }
    }

    method Prepare(name: Bytes, params: Json) returns (r: Result<Request, Fault>)
      ensures r == RequestOf(State(), groupId, name, params)
    {
      if !authorized {
        return Err(NotConnected);
      }
      if name == [] {
        return Err(EmptyArgument);
      }
      if !params.Obj? && !params.Null? {
        return Err(JsonFault);
      }
      var m := if params.Obj? then params.fields else map[];
      var body := ParamsToQuery(FillBot(m, token, groupId));
      if body == None {
        return Err(JsonFault);
      }
      return Ok(Post(API_HOST, METHOD_PREFIX + name, body.value));
    }

    /** `send_request`: the caller gets exactly the document of the reply. */
    method SendRequest(name: Bytes, params: Json, x: Exchange) returns (r: Result<Json, Fault>)
      requires http.Idle()
      modifies this`sent, http
      ensures http.Idle()
      ensures match RequestOf(old(State()), groupId, name, params)
              case Err(fault) => r == Err(fault) && sent == old(sent) && http.cancelled == old(http.cancelled)
              case Ok(request) =>
                && r == Parsed(ReplyTo(old(http.cancelled), x)) && sent == old(sent) + [request]
                && http.cancelled == CancelledAfter(old(http.cancelled), x)
      ensures old(http.cancelled) && RequestOf(old(State()), groupId, name, params).Ok? ==>
                r == Err(NetworkFault(CANCELED))
      ensures r.Ok? <==> RequestOf(old(State()), groupId, name, params).Ok? && !old(http.cancelled)
                         && x.Talk? && x.reply.Raw? && x.reply.doc.Some?
      ensures r.Ok? ==> x.reply == Raw(Some(r.value))
    {
      var request := Prepare(name, params);
      if request.Err? {
        return Err(request.error);
      }
      var reply := Perform(request.value, x);
      return Parsed(reply);
    }

    /**
     `send_request_async`: the job holds the finished request, so what it sends is fixed by the state
     at the call and equals what `SendRequest` would have sent then.
     */
    method SendRequestAsync(name: Bytes, params: Json) returns (job: Result<Request, Fault>)
      ensures job == RequestOf(State(), groupId, name, params)
    {
      job := Prepare(name, params);
    }
  }
}
