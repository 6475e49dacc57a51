/**
 The Long Poll session of src/BotBase.cpp as values: what one reply does to (key, server, ts), what
 one pass of the loop of `wait_for_event` does, and the fold of such passes.
 */
module LongPoll {
  import opened ByteStrings
  import opened HostPath
  import opened Http
  import opened JsonValues

  const ERROR: Bytes := "error"
  const RESPONSE: Bytes := "response"
  const KEY_FIELD: Bytes := "key"
  const SERVER_FIELD: Bytes := "server"
  const TS_FIELD: Bytes := "ts"
  const FAILED: Bytes := "failed"
  const UPDATES: Bytes := "updates"
  const TYPE: Bytes := "type"

  datatype Session = Session(key: Bytes, server: Bytes, ts: Bytes)

  /** What a call throws. */
  datatype Fault =
    | NetworkFault(msg: Bytes)
    | JsonFault
    | AuthFailed
    | NotConnected
    | EmptyArgument
    | Interrupted

  /** What a waiting call returns: the name of the event's type, and the update. */
  datatype Event = Event(kind: Bytes, update: Json)

  /** How `wait_for_event(ec)` ends; only `Aborted` sets `ec`. */
  datatype Outcome =
    | Delivered(event: Event)
    | UnknownCode
    | Aborted
    | Threw(fault: Fault)

  /** The document of a reply, or what reading it throws. */
  function Parsed(h: Reply): Result<Json, Fault> {
    match h
    case Failed(msg) => Err(NetworkFault(msg))
    case Raw(None) => Err(JsonFault)
    case Raw(Some(doc)) => Ok(doc)
  }

  /** The caller gets exactly the document of a reply; a failed exchange and an unreadable body throw. */
  lemma ParsedMeaning(h: Reply, doc: Json, msg: Bytes)
    ensures Parsed(h) == Ok(doc) <==> h == Raw(Some(doc))
    ensures Parsed(h) == Err(NetworkFault(msg)) <==> h == Failed(msg)
    ensures Parsed(h) == Err(JsonFault) <==> h == Raw(None)
    ensures Parsed(h).Err? ==> Parsed(h).error.NetworkFault? || Parsed(h).error.JsonFault?
  {
  }

  // ----- getLongPollServer replies

  /** The object under "response" of a reply that is not an error. */
  function ServerObject(h: Reply): Option<Json> {
    if h.Failed? || h.doc.None? || Contains(h.doc.value, ERROR) then None
    else At(h.doc.value, RESPONSE)
  }

  /** The statements from src/BotBase.cpp:108-111 and 717-720: assigned one by one until one throws. */
  function TakeServer(s: Session, h: Reply): (Session, Option<Fault>) {
    match h
    case Failed(msg) => (s, Some(NetworkFault(msg)))
    case Raw(None) => (s, Some(JsonFault))
    case Raw(Some(doc)) =>
      if Contains(doc, ERROR) then (s, Some(AuthFailed))
      else
        match At(doc, RESPONSE)
        case None => (s, Some(JsonFault))
        case Some(r) =>
          match StrAt(r, KEY_FIELD)
          case None => (s, Some(JsonFault))
          case Some(key) =>
            var s1 := s.(key := key);
            match StrAt(r, SERVER_FIELD)
            case None => (s1, Some(JsonFault))
            case Some(server) =>
              var s2 := s1.(server := server);
              match StrAt(r, TS_FIELD)
              case None => (s2, Some(JsonFault))
              case Some(ts) => (s2.(ts := ts), None)
  }

  /** How many of key, server and ts a reply assigns. */
  function Depth(h: Reply): (d: nat)
    ensures d <= 3
  {
    match ServerObject(h)
    case None => 0
    case Some(r) =>
      if StrAt(r, KEY_FIELD).None? then 0
      else if StrAt(r, SERVER_FIELD).None? then 1
      else if StrAt(r, TS_FIELD).None? then 2
      else 3
  }

  /** A reply that is an error, or carries the three texts. */
  predicate WellFormed(h: Reply) {
    Depth(h) == 0 || Depth(h) == 3
  }

  function Text(h: Reply, field: Bytes): Bytes {
    match ServerObject(h)
    case None => []
    case Some(r) => StrAt(r, field).GetOr([])
  }

  /** What a reply leaves behind, by depth. */
  lemma TakeServerEffect(s: Session, h: Reply)
    ensures TakeServer(s, h).0 == Session(
                                    if Depth(h) >= 1 then Text(h, KEY_FIELD) else s.key,
                                    if Depth(h) >= 2 then Text(h, SERVER_FIELD) else s.server,
                                    if Depth(h) >= 3 then Text(h, TS_FIELD) else s.ts)
    ensures TakeServer(s, h).1 == None <==> Depth(h) == 3
  {
  }

  /** The reply is no error and gives `text` for the field of its response. */
  predicate Gives(h: Reply, field: Bytes, text: Bytes) {
    && h.Raw? && h.doc.Some? && h.doc.value.Obj?
    && var doc := h.doc.value.fields;
       && "error" !in doc && "response" in doc && doc["response"].Obj?
       && field in doc["response"].fields && doc["response"].fields[field] == Str(text)
  }

  /** Depth and texts of a reply, on its document. */
  lemma DepthMeaning(h: Reply, key: Bytes, server: Bytes, ts: Bytes)
    ensures Depth(h) >= 1 && Text(h, KEY_FIELD) == key <==> Gives(h, "key", key)
    ensures Depth(h) >= 2 && Text(h, KEY_FIELD) == key && Text(h, SERVER_FIELD) == server
            <==> Gives(h, "key", key) && Gives(h, "server", server)
    ensures Depth(h) == 3 && Text(h, KEY_FIELD) == key && Text(h, SERVER_FIELD) == server && Text(h, TS_FIELD) == ts
            <==> Gives(h, "key", key) && Gives(h, "server", server) && Gives(h, "ts", ts)
  {
  }

  /** What reading a getLongPollServer reply throws. */
  lemma TakeServerFaults(s: Session, h: Reply, msg: Bytes)
    ensures TakeServer(s, h).1 == Some(NetworkFault(msg)) <==> h == Failed(msg)
    ensures TakeServer(s, h).1 == Some(AuthFailed) <==> h.Raw? && h.doc.Some? && Contains(h.doc.value, "error")
    ensures TakeServer(s, h).1 == Some(JsonFault)
            <==> h.Raw? && (h.doc.None? || !Contains(h.doc.value, "error")) && Depth(h) != 3
    ensures TakeServer(s, h).1.Some? ==>
              var fault := TakeServer(s, h).1.value;
              fault.NetworkFault? || fault.AuthFailed? || fault.JsonFault?
  {
  }

  // ----- poll replies

  datatype Next = Again(s: Session) | NeedRefresh | Stop(s: Session, out: Outcome)

  /** The entries of "updates", none when it is missing or no array. */
  function Updates(doc: Json): seq<Json> {
    match At(doc, UPDATES)
    case Some(Arr(items)) => items
    case _ => []
  }

  /** src/BotBase.cpp:216-252, with the two refreshing codes left to the caller. */
  function Handle(s: Session, parsed: Option<Json>): Next {
    match parsed
    case None => Stop(s, Threw(JsonFault))
    case Some(doc) =>
      if Contains(doc, FAILED) then
        match GetInt32(doc.fields[FAILED])
        case None => Stop(s, Threw(JsonFault))
        case Some(code) =>
          if code == 1 then Again(s)
          else if code == 2 || code == 3 then NeedRefresh
          else Stop(s, UnknownCode)
      else if Contains(doc, TS_FIELD) && GetStr(doc.fields[TS_FIELD]).None? then Stop(s, Threw(JsonFault))
      else
        var s1 := if Contains(doc, TS_FIELD) then s.(ts := doc.fields[TS_FIELD].s) else s;
        if Updates(doc) == [] then Again(s1)
        else
          match StrAt(Updates(doc)[0], TYPE)
          case None => Stop(s1, Threw(JsonFault))
          case Some(kind) => Stop(s1, Delivered(Event(kind, Updates(doc)[0])))
  }

  // ----- the loop

  /**
   One pass of the loop: the interrupt flag as line 156 reads it, the end of the GET, the flag as line
   190 or 211 reads it, and the end of the refresh POST if there is one.
   */
  datatype Round = Round(top: bool, got: Reply, recheck: bool, refresh: Reply)

  datatype Pass = Loop(s: Session) | Done(s: Session, out: Outcome)

  /** The pass comes to the refresh POST. */
  predicate Refreshes(r: Round) {
    && !r.top && !r.recheck
    && match r.got
       case Failed(msg) => !SaysAborted(msg)
       case Raw(parsed) => Handle(Session([], [], []), parsed).NeedRefresh?
  }

  function AfterRefresh(s: Session, h: Reply): Pass {
    match TakeServer(s, h)
    case (s1, None) => Loop(s1)
    case (s1, Some(fault)) => Done(s1, Threw(fault))
  }

  function OnePass(s: Session, r: Round): Pass {
    if r.top then Done(s, Aborted)
    else
      match r.got
      case Failed(msg) =>
        if SaysAborted(msg) || r.recheck then Done(s, Aborted) else AfterRefresh(s, r.refresh)
      case Raw(parsed) =>
        if r.recheck then Done(s, Aborted)
        else
          match Handle(s, parsed)
          case Again(s1) => Loop(s1)
          case NeedRefresh => AfterRefresh(s, r.refresh)
          case Stop(s1, out) => Done(s1, out)
  }

  /** Whether a reply asks for a refresh does not depend on the session. */
  lemma RefreshesEffect(s: Session, r: Round)
    ensures Refreshes(r) ==> OnePass(s, r) == AfterRefresh(s, r.refresh)
    ensures Refreshes(r) <==> !r.top && !r.recheck
                              && (r.got.Failed? ==> !SaysAborted(r.got.msg))
                              && (r.got.Raw? ==> Handle(s, r.got.doc).NeedRefresh?)
  {
  }

  /** The body of a pass that gets past the flag checks. */
  function Heard(r: Round): Option<Json> {
    if r.top || r.recheck || r.got.Failed? then None else r.got.doc
  }

  /** The "failed" code of a body; `None` if there is none or it is no number. */
  function FailedCode(doc: Json): Option<int> {
    match At(doc, FAILED)
    case None => None
    case Some(v) => GetInt32(v)
  }

  /** The pass is answered in time but brings nothing to return. */
  predicate NothingNew(doc: Json) {
    && !Contains(doc, FAILED) && Updates(doc) == []
    && (Contains(doc, TS_FIELD) ==> StrAt(doc, TS_FIELD).Some?)
  }

  /**
   Exactly when the loop goes round again: on failed=1, on an answer without updates, and on failed=2,
   failed=3 or a network error that is no abort if the refresh brings a complete session.
   */
  lemma LoopsExactlyWhen(s: Session, r: Round)
    ensures OnePass(s, r).Loop? <==>
            || (Heard(r).Some? && FailedCode(Heard(r).value) == Some(1))
            || (Heard(r).Some? && NothingNew(Heard(r).value))
            || (Heard(r).Some? && FailedCode(Heard(r).value) in {Some(2), Some(3)} && Depth(r.refresh) == 3)
            || (!r.top && !r.recheck && r.got.Failed? && !SaysAborted(r.got.msg) && Depth(r.refresh) == 3)
  {
    TakeServerEffect(s, r.refresh);
  }

  /** Exactly when the call ends with each outcome that is no exception. */
  lemma EndsExactlyWhen(s: Session, r: Round)
    ensures OnePass(s, r) == Done(s, Aborted)
            <==> r.top || r.recheck || (r.got.Failed? && SaysAborted(r.got.msg))
    ensures OnePass(s, r) == Done(s, UnknownCode)
            <==> Heard(r).Some? && FailedCode(Heard(r).value).Some?
                 && FailedCode(Heard(r).value) !in {Some(1), Some(2), Some(3)}
  {
    hide TakeServer;
  }

  /** Code and updates of a body, on the body itself. */
  lemma BodyMeaning(doc: Json, code: int, items: seq<Json>)
    ensures FailedCode(doc) == Some(code)
            <==> doc.Obj? && "failed" in doc.fields && GetInt32(doc.fields["failed"]) == Some(code)
    ensures items != [] ==>
              (Updates(doc) == items <==> doc.Obj? && "updates" in doc.fields && doc.fields["updates"] == Arr(items))
  {
  }

  /**
   Exactly when a pass hands an event to the caller: the body has no "failed", its ts is readable if it
   has one, and the event is the first update under the name of its type.
   */
  lemma DeliversExactlyWhen(s: Session, r: Round, event: Event)
    ensures OnePass(s, r).Done? && OnePass(s, r).out == Delivered(event)
            <==>
            && Heard(r).Some?
            && !Contains(Heard(r).value, "failed")
            && (Contains(Heard(r).value, "ts") ==> StrAt(Heard(r).value, "ts").Some?)
            && Updates(Heard(r).value) != []
            && event.update == Updates(Heard(r).value)[0]
            && StrAt(event.update, "type") == Some(event.kind)
  {
    hide TakeServer, Updates;
  }

  /** The body makes an access throw. */
  predicate Unreadable(doc: Json) {
    if Contains(doc, "failed") then FailedCode(doc).None?
    else
      || (Contains(doc, "ts") && StrAt(doc, "ts").None?)
      || (Updates(doc) != [] && StrAt(Updates(doc)[0], "type").None?)
  }

  /** Exactly when a pass throws, and what: what its refresh throws, or the exception of an unreadable body. */
  lemma ThrowsExactlyWhen(s: Session, r: Round, fault: Fault)
    ensures OnePass(s, r).Done? && OnePass(s, r).out == Threw(fault)
            <==>
            || (Refreshes(r) && TakeServer(s, r.refresh).1 == Some(fault))
            || (fault == JsonFault && !r.top && !r.recheck && r.got.Raw?
                && (r.got.doc.None? || Unreadable(r.got.doc.value)))
  {
    RefreshesEffect(s, r);
    hide TakeServer, Updates, SaysAborted;
  }

  /** Exactly when a pass refreshes the session: after failed=2, failed=3 or a network error that is no abort. */
  lemma RefreshesExactlyWhen(r: Round)
    ensures Refreshes(r)
            <==>
            || (Heard(r).Some? && FailedCode(Heard(r).value) in {Some(2), Some(3)})
            || (!r.top && !r.recheck && r.got.Failed? && !SaysAborted(r.got.msg))
  {
    hide Updates, SaysAborted;
  }

  /** How a call over the passes `rs` ends: still waiting, or with an outcome after `used` passes. */
  datatype Poll = Waiting(s: Session) | Ended(s: Session, out: Outcome, used: nat)

  function PollFold(s: Session, rs: seq<Round>): (p: Poll)
    ensures p.Ended? ==> 1 <= p.used <= |rs|
    decreases |rs|
  {
    if rs == [] then Waiting(s)
    else
      match OnePass(s, rs[0])
      case Done(s1, out) => Ended(s1, out, 1)
      case Loop(s1) =>
        match PollFold(s1, rs[1..])
        case Waiting(s2) => Waiting(s2)
        case Ended(s2, out, n) => Ended(s2, out, n + 1)
  }

  /** How many passes a call over `rs` takes. */
  function Used(s: Session, rs: seq<Round>): (n: nat)
    ensures n <= |rs|
  {
    match PollFold(s, rs)
    case Waiting(_) => |rs|
    case Ended(_, _, used) => used
  }

  /** The fold, taken from the end: one more pass after passes that all looped. */
  lemma {:induction false} PollFoldSnoc(s: Session, rs: seq<Round>, r: Round)
    requires PollFold(s, rs).Waiting?
    ensures PollFold(s, rs + [r]) == match OnePass(PollFold(s, rs).s, r)
                                     case Loop(s1) => Waiting(s1)
                                     case Done(s1, out) => Ended(s1, out, |rs| + 1)
    decreases |rs|
  {
    if rs == [] {
      assert (rs + [r])[1..] == [];
    } else {
      assert (rs + [r])[1..] == rs[1..] + [r];
      PollFoldSnoc(OnePass(s, rs[0]).s, rs[1..], r);
    }
  }

  // ----- the requests

  /** The GET of one pass, made of the session at that moment. */
  function PollGet(s: Session, wait: Bytes): Request {
    var (host, path) := ServerHostPath(s.server);
    Get(host, path + (QUESTION + PollQuery(s.key, s.ts, wait)))
  }

  /**
   What the server reads in a poll: behind the first '?' the key, the ts and the wait of the moment,
   exactly when none of them holds an '&' and the path of the server URL no '?'.
   */
  lemma PollGetContent(s: Session, wait: Bytes)
    ensures var (host, path) := ServerHostPath(s.server);
            var target := PollGet(s, wait).target;
            && PollGet(s, wait).Get? && PollGet(s, wait).host == host
            && IndexOf(target, '?') < |target|
            && (target[..IndexOf(target, '?')] == path <==> '?' !in path)
            && (Split(target[IndexOf(target, '?') + 1..], '&')
                == ["key=" + s.key, "ts=" + s.ts, "wait=" + wait, "act=a_check"]
                <==> '?' !in path && '&' !in s.key && '&' !in s.ts && '&' !in wait)
  {
    QueryPartsText(s.key, s.ts, wait);
    hide ServerHostPath, Split, PollQuery, QueryParts;
    var path, q := ServerHostPath(s.server).1, PollQuery(s.key, s.ts, wait);
    var target := path + (QUESTION + q);
    assert target == path + ['?'] + q;
    if '?' in path {
      var i := IndexOf(path, '?');
      assert path[i] == '?';
      assert target[..i] == path[..i];
      IndexOfUnique(target, '?', i);
      JoinSplit(target[i + 1..], AND);
      PollQueryJoin(s.key, s.ts, wait);
      assert |target[i + 1..]| > |q|;
    } else {
      PollQueryRead(s.key, s.ts, wait);
      IndexOfJoin(path, '?', q);
      assert target[..|path|] == path && target[|path| + 1..] == q;
    }
  }

  function PassRequests(s: Session, wait: Bytes, post: Request, r: Round): seq<Request> {
    if r.top then [] else [PollGet(s, wait)] + if Refreshes(r) then [post] else []
  }

  /** What a pass sends: nothing when the first check aborts it, else its GET, and the POST of its refresh. */
  lemma PassSends(s: Session, wait: Bytes, post: Request, r: Round)
    ensures r.top ==> PassRequests(s, wait, post, r) == []
    ensures !r.top && !Refreshes(r) ==> PassRequests(s, wait, post, r) == [PollGet(s, wait)]
    ensures Refreshes(r) ==> PassRequests(s, wait, post, r) == [PollGet(s, wait), post]
  {
    hide PollGet;
  }

  function PollRequests(s: Session, wait: Bytes, post: Request, rs: seq<Round>): seq<Request>
    decreases |rs|
  {
    if rs == [] then []
    else
      PassRequests(s, wait, post, rs[0])
      + match OnePass(s, rs[0])
        case Done(_, _) => []
        case Loop(s1) => PollRequests(s1, wait, post, rs[1..])
  }

  lemma {:induction false} PollRequestsSnoc(s: Session, wait: Bytes, post: Request, rs: seq<Round>, r: Round)
    requires PollFold(s, rs).Waiting?
    ensures PollRequests(s, wait, post, rs + [r])
            == PollRequests(s, wait, post, rs) + PassRequests(PollFold(s, rs).s, wait, post, r)
    decreases |rs|
  {
    if rs == [] {
      assert (rs + [r])[1..] == [];
    } else {
      assert (rs + [r])[1..] == rs[1..] + [r];
      PollRequestsSnoc(OnePass(s, rs[0]).s, wait, post, rs[1..], r);
    }
  }

  /** A pass answered with failed=1. */
  predicate TimedOut(r: Round) {
    && !r.top && !r.recheck && r.got.Raw? && r.got.doc.Some?
    && Contains(r.got.doc.value, FAILED)
    && GetInt32(r.got.doc.value.fields[FAILED]) == Some(1)
  }

  lemma TimedOutPass(s: Session, wait: Bytes, post: Request, r: Round)
    requires TimedOut(r)
    ensures OnePass(s, r) == Loop(s) && PassRequests(s, wait, post, r) == [PollGet(s, wait)]
  {
    hide PollGet;
  }

  /**
   `failed=1` takes no new ts: after `k` such replies in a row the session is unchanged, and the loop
   sends the same GET `k + 1` times if it goes on.
   */
  lemma {:induction false} TimeoutsRepeatGet(s: Session, wait: Bytes, post: Request, rs: seq<Round>, next: Round)
    requires forall i :: 0 <= i < |rs| ==> TimedOut(rs[i])
    requires !next.top
    ensures PollFold(s, rs) == Waiting(s)
    ensures PollRequests(s, wait, post, rs + [next])
            == seq(|rs|, _ => PollGet(s, wait)) + PassRequests(s, wait, post, next)
    ensures PassRequests(s, wait, post, next)[0] == PollGet(s, wait)
  {
    hide OnePass, PollGet, Refreshes;
    if rs == [] {
      assert (rs + [next])[1..] == [];
    } else {
      assert (rs + [next])[1..] == rs[1..] + [next];
      TimedOutPass(s, wait, post, rs[0]);
      TimeoutsRepeatGet(s, wait, post, rs[1..], next);
      assert seq(|rs|, _ => PollGet(s, wait))
          == [PollGet(s, wait)] + seq(|rs| - 1, _ => PollGet(s, wait));
    }
  }

  // ----- everything that touches the session, in order

  /** A getLongPollServer reply taken by `auth` or `reconnect`, or one pass of a waiting call. */
  datatype Input = ServerReply(h: Reply) | PollPass(r: Round)

  function Step(s: Session, i: Input): Session {
    match i
    case ServerReply(h) => TakeServer(s, h).0
    case PollPass(r) => OnePass(s, r).s
  }

  function SessionAfter(s: Session, inputs: seq<Input>): Session {
    if inputs == [] then s
    else Step(SessionAfter(s, inputs[..|inputs| - 1]), inputs[|inputs| - 1])
  }

  /** The event an input hands to the caller. */
  function EventOf(s: Session, i: Input): Option<Event> {
    match i
    case ServerReply(_) => None
    case PollPass(r) =>
      match OnePass(s, r)
      case Done(_, Delivered(event)) => Some(event)
      case _ => None
  }

  lemma EventOfPass(s: Session, r: Round)
    ensures Step(s, PollPass(r)) == OnePass(s, r).s
    ensures EventOf(s, PollPass(r)) == if OnePass(s, r).Done? && OnePass(s, r).out.Delivered?
                                       then Some(OnePass(s, r).out.event) else None
  {
    hide OnePass;
  }
}
