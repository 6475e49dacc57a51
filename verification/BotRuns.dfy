/**
 What holds of a bot after any sequence of calls, returning or throwing: when it is authorised, which
 token that is about, and that its session and its events are those of the run of replies it took.
 */
module BotRuns {
  import opened BotClient
  import opened ByteStrings
  import opened Delivery
  import opened Generations
  import opened Http
  import opened LongPoll

  datatype Call =
    | AuthCall(token: Bytes, h: Reply)
    | ReconnectCall(h: Reply)
    | WaitCall(rs: seq<Round>)

  function After(b: Bot, c: Call): Bot {
    match c
    case AuthCall(token, h) => AuthSpec(b, token, h).0
    case ReconnectCall(h) => ReconnectSpec(b, h).0
    case WaitCall(rs) => WaitSpec(b, rs).0
  }

  function Run(b: Bot, calls: seq<Call>): Bot {
    if calls == [] then b else After(Run(b, calls[..|calls| - 1]), calls[|calls| - 1])
  }

  // ----- authorisation

  /** The token in force: that of the last `auth` with one. */
  function TokenAfter(calls: seq<Call>): Bytes {
    if calls == [] then []
    else
      var c := calls[|calls| - 1];
      if c.AuthCall? && c.token != [] then c.token else TokenAfter(calls[..|calls| - 1])
  }

  /** Call `i` obtained a full session for the non-empty token in force. */
  predicate Grants(calls: seq<Call>, i: nat)
    requires i < |calls|
  {
    && !calls[i].WaitCall?
    && Depth(calls[i].h) == 3
    && if calls[i].AuthCall? then calls[i].token != [] else TokenAfter(calls[..i]) != []
  }

  /** Call `j` cannot take away what a call with token `token` obtained. */
  predicate Keeps(calls: seq<Call>, j: nat, token: Bytes)
    requires j < |calls|
  {
    calls[j].WaitCall? || (calls[j].AuthCall? && (calls[j].token == [] || calls[j].token == token))
  }

  predicate KeptFrom(calls: seq<Call>, i: nat, token: Bytes) {
    forall j :: i <= j < |calls| ==> Keeps(calls, j, token)
  }

  predicate EarnedAt(calls: seq<Call>, i: nat) {
    i < |calls| && Grants(calls, i) && KeptFrom(calls, i + 1, TokenAfter(calls[..i + 1]))
  }

  ghost predicate Earned(calls: seq<Call>) {
    exists i: nat :: EarnedAt(calls, i)
  }

  /** While its grant is kept, the token stays the one of the grant, and it is not empty. */
  lemma {:induction false} EarnedToken(calls: seq<Call>, i: nat)
    requires EarnedAt(calls, i)
    ensures TokenAfter(calls) == TokenAfter(calls[..i + 1]) != []
    decreases |calls|
  {
    if i + 1 == |calls| {
      assert calls[..i + 1] == calls;
      assert calls[..|calls| - 1] == calls[..i];
    } else {
      var front := calls[..|calls| - 1];
      EarnedFront(calls, i);
      EarnedToken(front, i);
      assert front[..i + 1] == calls[..i + 1];
      assert Keeps(calls, |calls| - 1, TokenAfter(calls[..i + 1]));
    }
  }

  lemma EarnedFront(calls: seq<Call>, i: nat)
    requires i + 1 < |calls|
    ensures var front, last := calls[..|calls| - 1], |calls| - 1;
            EarnedAt(calls, i) <==> EarnedAt(front, i) && Keeps(calls, last, TokenAfter(calls[..i + 1]))
  {
    var front, token := calls[..|calls| - 1], TokenAfter(calls[..i + 1]);
    assert front[..i] == calls[..i] && front[..i + 1] == calls[..i + 1];
    if KeptFrom(front, i + 1, token) && Keeps(calls, |calls| - 1, token) {
      forall j | i < j < |calls| ensures Keeps(calls, j, token) {
        assert j < |front| ==> Keeps(front, j, token);
      }
    }
    if KeptFrom(calls, i + 1, token) {
      forall j | i < j < |front| ensures Keeps(front, j, token) {
        assert Keeps(calls, j, token);
      }
    }
  }

  lemma EarnedKept(front: seq<Call>, c: Call, i: nat)
    requires i < |front|
    ensures EarnedAt(front + [c], i)
            <==> EarnedAt(front, i) && Keeps(front + [c], |front|, TokenAfter(front))
  {
    var calls := front + [c];
    assert calls[..|calls| - 1] == front;
    assert front[..i + 1] == calls[..i + 1];
    EarnedFront(calls, i);
    if EarnedAt(front, i) {
      EarnedToken(front, i);
    }
  }

  /** What one more call does to `Earned`. */
  lemma EarnedSnoc(front: seq<Call>, c: Call)
    ensures var calls := front + [c];
            Earned(calls) <==>
            || Grants(calls, |front|)
            || (Earned(front) && Keeps(calls, |front|, TokenAfter(front)))
  {
    hide Grants, Keeps, EarnedAt, TokenAfter;
    var calls := front + [c];
    if Earned(calls) {
      var i: nat :| EarnedAt(calls, i);
      EarnedNow(front, c, i);
      if i < |front| {
        EarnedKept(front, c, i);
      }
    }
    EarnedNow(front, c, |front|);
    if Earned(front) && Keeps(calls, |front|, TokenAfter(front)) {
      var i: nat :| EarnedAt(front, i);
      EarnedInside(front, i);
      EarnedKept(front, c, i);
    }
  }

  lemma EarnedInside(calls: seq<Call>, i: nat)
    requires EarnedAt(calls, i)
    ensures i < |calls|
  {
  }

  lemma EarnedNow(front: seq<Call>, c: Call, i: nat)
    ensures EarnedAt(front + [c], i) ==> i <= |front|
    ensures i == |front| ==> (EarnedAt(front + [c], i) <==> Grants(front + [c], i))
  {
    hide Grants;
  }

  lemma AfterEffect(b: Bot, c: Call)
    ensures var b' := After(b, c);
            match c
            case WaitCall(_) => b'.token == b.token && b'.authorized == b.authorized
            case AuthCall(token, h) =>
              if token == [] then b' == b
              else b'.token == token
                   && b'.authorized == (Depth(h) == 3 || (b.authorized && token == b.token))
            case ReconnectCall(h) =>
              b'.token == b.token && b'.authorized == (b.token != [] && Depth(h) == 3)
  {
    if !c.WaitCall? {
      TakeServerEffect(b.session, c.h);
    }
  }

  /**
   A bot is authorised exactly when some earlier `auth` or `reconnect` obtained a full session for the
   token in force and nothing since took it back; that token is then not empty.
   */
  lemma {:induction false} AuthorizedIffEarned(calls: seq<Call>)
    ensures Run(FreshBot, calls).authorized <==> Earned(calls)
    ensures Run(FreshBot, calls).token == TokenAfter(calls)
    ensures Run(FreshBot, calls).authorized ==> TokenAfter(calls) != []
  {
    hide After, Depth;
    if calls != [] {
      var front, c := calls[..|calls| - 1], calls[|calls| - 1];
      AuthorizedIffEarned(front);
      AfterEffect(Run(FreshBot, front), c);
      assert calls == front + [c];
      EarnedSnoc(front, c);
    }
    if Earned(calls) {
      var i: nat :| EarnedAt(calls, i);
      EarnedToken(calls, i);
    }
  }

  // ----- while the client refuses every request

  /** Every request of the call is refused, as after `interrupt()` and before `reset_interrupt()`. */
  predicate Refused(c: Call) {
    match c
    case WaitCall(rs) => forall i :: 0 <= i < |rs| ==> rs[i].got == Failed(CANCELED)
    case _ => c.h == Failed(CANCELED)
  }

  lemma RefusedEffect(b: Bot, c: Call)
    requires Refused(c)
    ensures After(b, c).session == b.session && Returned(b, c) == []
    ensures After(b, c).authorized <==> b.authorized && Keeps([c], 0, b.token)
    ensures After(b, c).authorized ==> After(b, c).token == b.token
  {
    if c.WaitCall? {
      RefusalSaysAborted([]);
      assert [] + CANCELED == CANCELED;
      hide SaysAborted;
    }
  }

  /**
   While every request is refused nothing is delivered, the session stays, and no call authorises: the
   bot stays authorised exactly until its first `reconnect`, or `auth` with another token.
   */
  lemma {:induction false} RefusedCalls(b: Bot, calls: seq<Call>)
    requires forall i :: 0 <= i < |calls| ==> Refused(calls[i])
    ensures Run(b, calls).session == b.session && RunReturned(b, calls) == []
    ensures Run(b, calls).authorized <==> b.authorized && KeptFrom(calls, 0, b.token)
    ensures Run(b, calls).authorized ==> Run(b, calls).token == b.token
  {
    hide After, Refused, Returned, Keeps;
    if calls != [] {
      var front, c := calls[..|calls| - 1], calls[|calls| - 1];
      RefusedCalls(b, front);
      RefusedEffect(Run(b, front), c);
      KeptFromSnoc(front, c, b.token);
      assert calls == front + [c];
    }
  }

  lemma KeptFromSnoc(front: seq<Call>, c: Call, token: Bytes)
    ensures KeptFrom(front + [c], 0, token) <==> KeptFrom(front, 0, token) && Keeps([c], 0, token)
  {
    var calls := front + [c];
    assert Keeps(calls, |front|, token) <==> Keeps([c], 0, token);
    assert forall j :: 0 <= j < |front| ==> (Keeps(calls, j, token) <==> Keeps(front, j, token));
  }

  // ----- the run of replies

  function Passes(rs: seq<Round>): (r: seq<Input>)
    ensures |r| == |rs|
  {
    seq(|rs|, i requires 0 <= i < |rs| => PollPass(rs[i]))
  }

  /** The replies a call takes into the session. */
  function InputsOf(b: Bot, c: Call): seq<Input> {
    match c
    case AuthCall(token, h) => if token == [] then [] else [ServerReply(h)]
    case ReconnectCall(h) => if b.token == [] then [] else [ServerReply(h)]
    case WaitCall(rs) =>
      if !b.authorized then []
      else
        Passes(rs[..Used(b.session, rs)])
  }

  function RunInputs(b: Bot, calls: seq<Call>): seq<Input> {
    if calls == [] then []
    else
      var front := calls[..|calls| - 1];
      RunInputs(b, front) + InputsOf(Run(b, front), calls[|calls| - 1])
  }

  /** The event a call returns. */
  function Returned(b: Bot, c: Call): seq<Event> {
    if !c.WaitCall? then []
    else
      match WaitSpec(b, c.rs).1
      case Some(Delivered(event)) => [event]
      case _ => []
  }

  function RunReturned(b: Bot, calls: seq<Call>): seq<Event> {
    if calls == [] then []
    else
      var front := calls[..|calls| - 1];
      RunReturned(b, front) + Returned(Run(b, front), calls[|calls| - 1])
  }

  lemma {:induction false} AfterConcat(s: Session, a: seq<Input>, b: seq<Input>)
    ensures SessionAfter(s, a + b) == SessionAfter(SessionAfter(s, a), b)
    ensures Events(s, a + b) == Events(s, a) + Events(SessionAfter(s, a), b)
    decreases |b|
  {
    hide Step, EventOf;
    if b == [] {
      assert a + b == a;
    } else {
      var front, last := b[..|b| - 1], b[|b| - 1];
      AfterConcat(s, a, front);
      assert (a + b)[..|a + b| - 1] == a + front;
      assert SessionAfter(s, a + b) == Step(SessionAfter(s, a + front), last);
    }
  }

  lemma AfterOne(s: Session, i: Input)
    ensures SessionAfter(s, [i]) == Step(s, i)
    ensures Events(s, [i]) == match EventOf(s, i)
                              case None => []
                              case Some(event) => [event]
  {
    hide Step, EventOf;
    assert [i][..0] == [];
    assert SessionAfter(s, []) == s;
  }

  function PollEvents(p: Poll): seq<Event> {
    if p.Ended? && p.out.Delivered? then [p.out.event] else []
  }

  lemma PassesCons(rs: seq<Round>, used: nat)
    requires 1 <= used <= |rs|
    ensures Passes(rs[..used]) == [PollPass(rs[0])] + Passes(rs[1..][..used - 1])
    ensures Passes(rs[..1]) == [PollPass(rs[0])]
  {
  }

  /** The run of `inputs` from `s` has the session and the event of `p`. */
  predicate Matches(s: Session, inputs: seq<Input>, p: Poll) {
    SessionAfter(s, inputs) == p.s && Events(s, inputs) == PollEvents(p)
  }

  lemma MatchesCons(s: Session, r: Round, inputs: seq<Input>, p: Poll, all: Poll)
    requires OnePass(s, r).Loop? && Matches(OnePass(s, r).s, inputs, p)
    requires all.s == p.s && PollEvents(all) == PollEvents(p)
    ensures Matches(s, [PollPass(r)] + inputs, all)
  {
    AfterOne(s, PollPass(r));
    EventOfPass(s, r);
    hide Step, EventOf, OnePass, SessionAfter, Events;
    AfterConcat(s, [PollPass(r)], inputs);
  }

  lemma MatchesOne(s: Session, r: Round, all: Poll)
    requires OnePass(s, r).Done? && all == Ended(OnePass(s, r).s, OnePass(s, r).out, 1)
    ensures Matches(s, [PollPass(r)], all)
  {
    AfterOne(s, PollPass(r));
    EventOfPass(s, r);
    hide Step, EventOf, OnePass, SessionAfter, Events;
  }

  lemma NoPasses(s: Session)
    ensures Used(s, []) == 0 && Matches(s, Passes([][..0]), PollFold(s, []))
  {
    assert Passes([][..0]) == [];
  }

  lemma FoldCons(s: Session, rs: seq<Round>)
    requires rs != []
    ensures OnePass(s, rs[0]).Done? ==>
              PollFold(s, rs) == Ended(OnePass(s, rs[0]).s, OnePass(s, rs[0]).out, 1) && Used(s, rs) == 1
    ensures OnePass(s, rs[0]).Loop? ==>
              var s1 := OnePass(s, rs[0]).s;
              && PollFold(s, rs).s == PollFold(s1, rs[1..]).s
              && PollEvents(PollFold(s, rs)) == PollEvents(PollFold(s1, rs[1..]))
              && Used(s, rs) == Used(s1, rs[1..]) + 1
  {
    hide OnePass;
  }

  /** The fold of a waiting call is the run of its passes. */
  lemma {:induction false} PollIsRun(s: Session, rs: seq<Round>)
    ensures Matches(s, Passes(rs[..Used(s, rs)]), PollFold(s, rs))
    decreases |rs|
  {
    hide OnePass, Matches, Passes, PollFold, Used, PollEvents;
    if rs == [] {
      NoPasses(s);
    } else {
      FoldCons(s, rs);
      PassesCons(rs, 1);
      if OnePass(s, rs[0]).Done? {
        MatchesOne(s, rs[0], PollFold(s, rs));
      } else {
        var s1 := OnePass(s, rs[0]).s;
        PollIsRun(s1, rs[1..]);
        PassesCons(rs, Used(s, rs));
        MatchesCons(s, rs[0], Passes(rs[1..][..Used(s1, rs[1..])]), PollFold(s1, rs[1..]), PollFold(s, rs));
      }
    }
  }

  lemma CallIsRun(b: Bot, c: Call)
    ensures SessionAfter(b.session, InputsOf(b, c)) == After(b, c).session
    ensures Events(b.session, InputsOf(b, c)) == Returned(b, c)
  {
    if c.WaitCall? {
      hide Step, EventOf, OnePass;
      PollIsRun(b.session, c.rs);
      assert c.rs[..|c.rs|] == c.rs;
    } else {
      AfterOne(b.session, ServerReply(c.h));
      ServerReplyQuiet(b.session, c.h);
    }
  }

  /**
   Session and returned events of a run of calls are those of its replies, so the results about
   replies (order, loss, generations) are results about `auth`, `reconnect` and `wait_for_event`.
   */
  lemma {:induction false} CallsAreRun(b: Bot, calls: seq<Call>)
    ensures Run(b, calls).session == SessionAfter(b.session, RunInputs(b, calls))
    ensures RunReturned(b, calls) == Events(b.session, RunInputs(b, calls))
  {
    hide After, Step, EventOf, InputsOf, Returned;
    if calls != [] {
      var front, c := calls[..|calls| - 1], calls[|calls| - 1];
      CallsAreRun(b, front);
      CallIsRun(Run(b, front), c);
      AfterConcat(b.session, RunInputs(b, front), InputsOf(Run(b, front), c));
    }
  }

  /** Key, server and ts after any sequence of calls are those of their generations. */
  lemma CallsOrigin(b: Bot, calls: seq<Call>)
    ensures Origin(b.session, RunInputs(b, calls), Run(b, calls).session)
    ensures var hs := Attempts(RunInputs(b, calls));
            Generation(hs, 1) >= Generation(hs, 2) >= Generation(hs, 3)
  {
    hide SessionAfter, RunInputs, Run, Origin, Attempts, Generation;
    CallsAreRun(b, calls);
    SessionOrigin(b.session, RunInputs(b, calls));
  }

  /**
   Against an honest server, the events returned by any sequence of calls sit at strictly increasing
   positions of its log; none is lost exactly when the run is lossless.
   */
  lemma CallsDeliver(sv: Server, b: Bot, calls: seq<Call>)
    requires HonestRun(sv, b.session, RunInputs(b, calls))
    ensures var ms := Moves(sv, b.session, RunInputs(b, calls));
            var ps := Heads(ms);
            && Increasing(ps) && AtPositions(sv.log, RunReturned(b, calls), ps)
            && (Covered(ms, sv.at(b.session.ts), sv.at(Run(b, calls).session.ts))
                <==> LosslessRun(sv, b.session, RunInputs(b, calls)))
  {
    hide Moves, Events, Heads, SessionAfter, HonestRun, RunInputs, RunReturned, LosslessRun, Covered, Run;
    CallsAreRun(b, calls);
    DeliveredInOrder(sv, b.session, RunInputs(b, calls));
    NothingLostIff(sv, b.session, RunInputs(b, calls));
  }
}
