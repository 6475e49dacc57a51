/**
 Executions from the initial state.  Every sequential call is one of them, and the exceptions to "an
 interrupted call aborts" are real: after `interrupt()` has returned, a waiting call still returns its
 event, or throws.
 */
module Executions {
  import opened ByteStrings
  import opened Http
  import opened Interleaving
  import opened InterruptSafety
  import opened JsonValues
  import opened LongPoll

  /** The last state of an execution. */
  function Last(ss: seq<State>): State
    requires ss != []
  {
    ss[|ss| - 1]
  }

  lemma RunSnoc(ss: seq<State>, acts: seq<Action>, a: Action)
    requires Run(ss, acts) && Enabled(Last(ss), a)
    ensures Run(ss + [Apply(Last(ss), a)], acts + [a])
  {
    hide Apply, Enabled;
    var (ts, bs) := (ss + [Apply(Last(ss), a)], acts + [a]);
    forall i | 0 <= i < |bs| ensures Enabled(ts[i], bs[i]) && ts[i + 1] == Apply(ts[i], bs[i]) {
      if i < |acts| {
        assert ts[i] == ss[i] && ts[i + 1] == ss[i + 1] && bs[i] == acts[i];
      }
    }
  }

  /** An execution goes on with steps of the worker alone. */
  lemma {:induction false} RunWork(ss: seq<State>, acts: seq<Action>, tail: seq<State>, es: seq<Env>)
    returns (ts: seq<State>, bs: seq<Action>)
    requires Run(ss, acts) && WorksThrough(tail, es) && tail[0] == Last(ss)
    ensures Run(ts, bs) && ts[0] == ss[0] && Last(ts) == Last(tail)
    decreases |es|
  {
    hide Apply, Enabled;
    ts, bs := ss, acts;
    if es != [] {
      var a := Work(es[0]);
      RunSnoc(ss, acts, a);
      assert Enabled(tail[0], Work(es[0])) && tail[1] == Apply(tail[0], Work(es[0]));
      forall i | 0 <= i < |es| - 1
        ensures Enabled(tail[1..][i], Work(es[1..][i])) && tail[1..][i + 1] == Apply(tail[1..][i], Work(es[1..][i]))
      {
        assert Enabled(tail[i + 1], Work(es[i + 1]));
      }
      ts, bs := RunWork(ss + [tail[1]], acts + [a], tail[1..], es[1..]);
    }
  }

  /** The next step of the worker, when nothing comes from outside. */
  const Quiet: Action := Work(Env(None, NoReply))

  lemma OneStep(ss: seq<State>, acts: seq<Action>, a: Action) returns (ts: seq<State>, bs: seq<Action>)
    requires Run(ss, acts) && Enabled(Last(ss), a)
    ensures Run(ts, bs) && ts[0] == ss[0] && Last(ts) == Apply(Last(ss), a)
  {
    hide Apply, Enabled;
    RunSnoc(ss, acts, a);
    ts, bs := ss + [Apply(Last(ss), a)], acts + [a];
  }

  /** A request that is ready goes through `execute` as the network plays it. */
  lemma RequestRuns(ss: seq<State>, acts: seq<Action>, p: Purpose, x: Exchange)
    returns (ts: seq<State>, bs: seq<Action>)
    requires Run(ss, acts) && Last(ss).pc == Ready(p) && Last(ss).mutex == Free
    ensures Run(ts, bs) && ts[0] == ss[0]
    ensures var s := Last(ss);
            Last(ts) == s.(pc := Back(p, ReplyTo(s.cancelled, x)), started := s.started + 1)
  {
    hide ExchangeResult, ExecStep, WorksThrough, Handle, Inputs, SaysAborted, TakeServer, AfterRefresh;
    var s := Last(ss);
    SocketSafe(ss, acts, |acts|);
    ts, bs := OneStep(ss, acts, Quiet);
    assert Last(ts) == s.(pc := Exec(p, s.started, Load), started := s.started + 1);
    var tail := AloneIsExecute(Last(ts), p, s.started, x);
    ts, bs := RunWork(ts, bs, tail, Inputs(x, s.cancelled));
  }

  /**
   A request from outside `wait_for_event`, undisturbed: that of `auth` and `reconnect` takes its reply into
   the session, any other leaves the session alone.
   */
  lemma WholeRequest(ss: seq<State>, acts: seq<Action>, server: bool, x: Exchange)
    returns (ts: seq<State>, bs: seq<Action>)
    requires Run(ss, acts) && Last(ss).pc == Outside && Last(ss).mutex == Free
    ensures Run(ts, bs) && ts[0] == ss[0]
    ensures var (s, h) := (Last(ss), ReplyTo(Last(ss).cancelled, x));
            Last(ts) == if server then
              s.(session := TakeServer(s.session, h).0, history := s.history + [ServerReply(h)],
                 started := s.started + 1)
            else s.(started := s.started + 1)
  {
    hide ReplyTo, ExecStep, Handle, SaysAborted, TakeServer, AfterRefresh;
    var p := if server then Server else Other;
    ts, bs := OneStep(ss, acts, Request(server));
    assert Last(ts) == Last(ss).(pc := Ready(p));
    ts, bs := RequestRuns(ts, bs, p, x);
    ts, bs := OneStep(ts, bs, Quiet);
  }

  /** The worker is about to begin a pass, and nobody has interrupted or cancelled. */
  predicate AtRest(s: State) {
    s.pc == Top && !s.interrupted && !s.cancelled && s.mutex == Free && s.ctls == map[]
  }

  /** The state is where the pass leads. */
  predicate PassDone(s: State, next: Pass) {
    && s.session == next.s
    && match next
       case Loop(_) => AtRest(s)
       case Done(_, out) => s.pc == Finish(out)
  }

  /** The GET of a pass, from its first check to its end. */
  lemma GetRuns(ss: seq<State>, acts: seq<Action>, x: Exchange) returns (ts: seq<State>, bs: seq<Action>)
    requires Run(ss, acts) && AtRest(Last(ss))
    ensures Run(ts, bs) && ts[0] == ss[0]
    ensures Last(ts) == Last(ss).(pc := Back(Poll, ExchangeResult(x)), started := Last(ss).started + 1)
  {
    hide ExchangeResult, ExecStep, Handle, SaysAborted, TakeServer, AfterRefresh;
    ts, bs := OneStep(ss, acts, Quiet);
    assert Last(ts) == Last(ss).(pc := Ready(Poll));
    ts, bs := RequestRuns(ts, bs, Poll, x);
  }

  /** A refresh that is due, from its POST to the end of the pass. */
  lemma RefreshRuns(ss: seq<State>, acts: seq<Action>, got: Reply, h: Reply) returns (ts: seq<State>, bs: seq<Action>)
    requires Run(ss, acts) && Last(ss).pc == Ready(Refresh(got)) && AtRest(Last(ss).(pc := Top))
    ensures Run(ts, bs) && ts[0] == ss[0] && PassDone(Last(ts), AfterRefresh(Last(ss).session, h))
  {
    hide ExecStep, Handle, SaysAborted, TakeServer, AfterRefresh;
    ts, bs := RequestRuns(ss, acts, Refresh(got), Talk(false, h));
    assert Last(ts).pc == Back(Refresh(got), h);
    ts, bs := OneStep(ts, bs, Quiet);
  }

  /** Every pass is one that the steps can take; a check that reads `true` has an `interrupt()` before it. */
  lemma PassRuns(ss: seq<State>, acts: seq<Action>, r: Round) returns (ts: seq<State>, bs: seq<Action>)
    requires Run(ss, acts) && AtRest(Last(ss))
    ensures Run(ts, bs) && ts[0] == ss[0] && PassDone(Last(ts), OnePass(Last(ss).session, r))
  {
    hide ExecStep, Handle, SaysAborted, TakeServer, AfterRefresh;
    if r.top {
      ts, bs := OneStep(ss, acts, Interrupt(0));
      ts, bs := OneStep(ts, bs, Quiet);
      return;
    }
    ts, bs := GetRuns(ss, acts, Talk(false, r.got));
    if r.recheck {
      ts, bs := OneStep(ts, bs, Interrupt(0));
    }
    ts, bs := OneStep(ts, bs, Quiet);
    if Last(ts).pc.Handling? {
      ts, bs := OneStep(ts, bs, Quiet);
    }
    if Last(ts).pc.Ready? {
      ts, bs := RefreshRuns(ts, bs, r.got, r.refresh);
    }
  }

  /** The state is where the call stands after its passes. */
  predicate CallStands(s: State, p: LongPoll.Poll) {
    && s.session == p.s
    && match p
       case Waiting(_) => AtRest(s)
       case Ended(_, out, _) => s.pc == Finish(out)
  }

  lemma {:induction false} PassesRun(ss: seq<State>, acts: seq<Action>, rs: seq<Round>)
    returns (ts: seq<State>, bs: seq<Action>)
    requires Run(ss, acts) && AtRest(Last(ss))
    ensures Run(ts, bs) && ts[0] == ss[0] && CallStands(Last(ts), PollFold(Last(ss).session, rs))
    decreases |rs|
  {
    hide OnePass, AtRest;
    ts, bs := ss, acts;
    if rs != [] {
      ts, bs := PassRuns(ss, acts, rs[0]);
      if OnePass(Last(ss).session, rs[0]).Loop? {
        ts, bs := PassesRun(ts, bs, rs[1..]);
      }
    }
  }

  /**
   Every sequential call is an execution: whatever its replies and whatever its checks read, some schedule
   of the steps leads to the outcome and the session of the fold.
   */
  lemma EveryCallArises(s0: State, rs: seq<Round>) returns (ss: seq<State>, acts: seq<Action>)
    requires Init(s0)
    ensures Run(ss, acts) && ss[0] == s0 && CallStands(Last(ss), PollFold(s0.session, rs))
  {
    ss, acts := OneStep([s0], [], Wait);
    ss, acts := PassesRun(ss, acts, rs);
  }

  /** Every exchange can be the GET of a first pass, with nobody about to interrupt. */
  lemma FirstGet(s0: State, x: Exchange) returns (ss: seq<State>, acts: seq<Action>)
    requires Init(s0)
    ensures Run(ss, acts) && ss[0] == s0
    ensures Last(ss) == s0.(pc := Back(Poll, ExchangeResult(x)), started := 1)
  {
    hide ExchangeResult;
    ss, acts := OneStep([s0], [], Wait);
    assert Last(ss) == s0.(pc := Top);
    ss, acts := GetRuns(ss, acts, x);
  }

  /** A whole `interrupt()` while nothing is registered and no other controller is about. */
  lemma WholeInterrupt(ss: seq<State>, acts: seq<Action>) returns (ts: seq<State>, bs: seq<Action>)
    requires Run(ss, acts) && Last(ss).ctls == map[] && Last(ss).mutex == Free
    ensures Run(ts, bs) && ts[0] == ss[0]
    ensures Last(ts) == Last(ss).(interrupted := true, cancelled := true)
  {
    var s := Last(ss);
    var s1 := s.(interrupted := true, ctls := map[0 := CancelStore]);
    var s2 := s1.(cancelled := true, ctls := map[0 := CancelLock]);
    var s3 := s2.(mutex := ByCtl(0), ctls := map[0 := CancelRead]);
    var s4 := s3.(ctls := map[0 := CancelUse(s.active)]);
    var s5 := s4.(mutex := Free, ctls := map[]);
    assert Apply(s, Interrupt(0)) == s1;
    RunSnoc(ss, acts, Interrupt(0));
    assert s1.ctls[0 := CancelLock] == s2.ctls && s2.ctls[0 := CancelRead] == s3.ctls;
    assert s3.ctls[0 := CancelUse(s.active)] == s4.ctls && s4.ctls - {0} == s5.ctls;
    var c := Control(0);
    RunSnoc(ss + [s1], acts + [Interrupt(0)], c);
    RunSnoc(ss + [s1] + [s2], acts + [Interrupt(0)] + [c], c);
    RunSnoc(ss + [s1] + [s2] + [s3], acts + [Interrupt(0)] + [c] + [c], c);
    RunSnoc(ss + [s1] + [s2] + [s3] + [s4], acts + [Interrupt(0)] + [c] + [c] + [c], c);
    ts, bs := ss + [s1] + [s2] + [s3] + [s4] + [s5], acts + [Interrupt(0)] + [c] + [c] + [c] + [c];
  }

  /**
   Every first answer that brings an event can be returned although `interrupt()` has returned before:
   the re-check had already passed.
   */
  lemma LateEvent(s0: State, doc: Json) returns (ss: seq<State>, acts: seq<Action>, i: nat)
    requires Init(s0)
    requires Handle(s0.session, Some(doc)).Stop? && Handle(s0.session, Some(doc)).out.Delivered?
    ensures StaysInterrupted(ss, acts, i, |acts|) && ss[0] == s0
    ensures ss[i].cancelled && ss[i].ctls == map[] && ss[i].pc == Handling(Some(doc))
    ensures Last(ss).pc == Finish(Handle(s0.session, Some(doc)).out)
  {
    hide Handle, TakeServer, AfterRefresh, SaysAborted, ExecStep;
    ss, acts := FirstGet(s0, Talk(false, Raw(Some(doc))));
    ss, acts := OneStep(ss, acts, Quiet);
    assert Last(ss) == s0.(pc := Handling(Some(doc)), started := 1);
    ss, acts := WholeInterrupt(ss, acts);
    i := |acts|;
    RunSnoc(ss, acts, Quiet);
    ss, acts := ss + [Apply(Last(ss), Quiet)], acts + [Quiet];
  }

  /**
   Every network error that does not say "aborted" or "cancel" can be followed by an interrupt that
   ends the call with the exception of its refused refresh.
   */
  lemma LateRefusal(s0: State, msg: Bytes) returns (ss: seq<State>, acts: seq<Action>, i: nat)
    requires Init(s0) && !SaysAborted(msg)
    ensures StaysInterrupted(ss, acts, i, |acts|) && ss[0] == s0
    ensures ss[i].cancelled && ss[i].ctls == map[] && ss[i].pc == Ready(Refresh(Failed(msg)))
    ensures Last(ss).pc == Finish(Threw(NetworkFault(CANCELED)))
  {
    hide Handle, SaysAborted;
    var p := Refresh(Failed(msg));
    ss, acts := FirstGet(s0, Talk(false, Failed(msg)));
    ss, acts := OneStep(ss, acts, Quiet);
    assert Last(ss) == s0.(pc := Ready(p), started := 1);
    ss, acts := WholeInterrupt(ss, acts);
    i := |acts|;
    var s := Last(ss);
    RunSnoc(ss, acts, Quiet);
    assert Apply(s, Quiet) == s.(pc := Exec(p, 1, Load), started := 2);
    ss, acts := ss + [s.(pc := Exec(p, 1, Load), started := 2)], acts + [Quiet];
    RunSnoc(ss, acts, Quiet);
    ss, acts := ss + [s.(pc := Back(p, Failed(CANCELED)), started := 2)], acts + [Quiet];
    RunSnoc(ss, acts, Quiet);
    ss, acts := ss + [Apply(Last(ss), Quiet)], acts + [Quiet];
  }
}
