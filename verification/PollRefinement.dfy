/**
 Every interleaving is one of the sequential runs: the worker's session, its outcomes and the events it
 returns are those of the passes and replies it took, so the results about order and loss hold under
 any interruption.
 */
module PollRefinement {
  import opened ByteStrings
  import opened Delivery
  import opened Http
  import opened Interleaving
  import opened LongPoll

  /** The GET that led to the refresh in progress does ask for one. */
  predicate RefreshDue(got: Reply) {
    Refreshes(Round(false, got, false, NoReply))
  }

  function PurposeOf(pc: Pc): Purpose {
    match pc
    case Ready(p) => p
    case Exec(p, _, _) => p
    case Back(p, _) => p
    case _ => Poll
  }

  predicate InCall(pc: Pc) {
    !pc.Outside? && !pc.Finish? && !PurposeOf(pc).Server? && !PurposeOf(pc).Other?
  }

  /** The current call agrees with the fold of its passes. */
  ghost predicate CallAgrees(s: State) {
    && (s.pc.Finish? ==> PollFold(s.start, s.rounds) == Ended(s.session, s.pc.out, |s.rounds|))
    && (InCall(s.pc) ==> PollFold(s.start, s.rounds) == Waiting(s.session))
    && (InCall(s.pc) && PurposeOf(s.pc).Refresh? ==> RefreshDue(PurposeOf(s.pc).got))
  }

  /** The execution agrees with the run of what it took. */
  ghost predicate RunAgrees(s: State) {
    s.session == SessionAfter(s.origin, s.history) && s.returned == Events(s.origin, s.history)
  }

  ghost predicate Refines(s: State) {
    CallAgrees(s) && RunAgrees(s)
  }

  /** The pass that the worker's next step ends, if it ends one. */
  function EndedPass(s: State): Option<Round> {
    match s.pc
    case Top => if s.interrupted then Some(Round(true, NoReply, true, NoReply)) else None
    case Back(Poll, Failed(msg)) =>
      if SaysAborted(msg) || s.interrupted then Some(Round(false, Failed(msg), s.interrupted, NoReply)) else None
    case Back(Poll, Raw(parsed)) => if s.interrupted then Some(Round(false, Raw(parsed), true, NoReply)) else None
    case Handling(parsed) =>
      if Handle(s.session, parsed).NeedRefresh? then None else Some(Round(false, Raw(parsed), false, NoReply))
    case Back(Refresh(got), h) => Some(Round(false, got, false, h))
    case _ => None
  }

  /** Whether a pass refreshes does not depend on the answer to the refresh. */
  lemma RefreshNotRead(got: Reply, h: Reply)
    ensures Refreshes(Round(false, got, false, h)) <==> RefreshDue(got)
  {
  }

  /** A step that ends a pass goes where one pass of the loop goes. */
  lemma PassEnds(s: State, e: Env)
    requires s.pc != Outside && !s.pc.Exec? && EndedPass(s).Some?
    requires s.pc.Back? && s.pc.p.Refresh? ==> RefreshDue(s.pc.p.got)
    ensures var r := EndedPass(s).value;
            LoopStep(s, e) == EndPass(s, OnePass(s.session, r), r)
  {
    if s.pc.Back? && s.pc.p.Refresh? {
      var r := EndedPass(s).value;
      RefreshNotRead(s.pc.p.got, s.pc.h);
      RefreshesEffect(s.session, r);
      hide OnePass, TakeServer, AfterRefresh;
    } else {
      hide TakeServer, AfterRefresh, SaysAborted;
    }
  }

  lemma EndPassAgrees(s: State, r: Round)
    requires Refines(s) && PollFold(s.start, s.rounds) == Waiting(s.session)
    ensures Refines(EndPass(s, OnePass(s.session, r), r))
  {
    EventOfPass(s.session, r);
    PollFoldSnoc(s.start, s.rounds, r);
    AfterSnoc(s.origin, s.history, PollPass(r));
    hide OnePass, PollFold, SessionAfter, Events, EventOf, Step;
  }

  lemma AfterSnoc(s: Session, front: seq<Input>, i: Input)
    ensures SessionAfter(s, front + [i]) == Step(SessionAfter(s, front), i)
    ensures Events(s, front + [i])
            == Events(s, front) + match EventOf(SessionAfter(s, front), i)
                                  case None => []
                                  case Some(event) => [event]
  {
    hide Step, EventOf;
    assert (front + [i])[..|front + [i]| - 1] == front;
  }

  /** A step that neither ends a pass nor takes a reply from outside the loop. */
  lemma QuietStep(s: State, e: Env)
    requires s.pc != Outside && !s.pc.Exec? && EndedPass(s).None? && !(s.pc.Back? && s.pc.p.Server?)
    ensures var s' := LoopStep(s, e);
            && s'.session == s.session && s'.start == s.start && s'.rounds == s.rounds
            && s'.origin == s.origin && s'.history == s.history && s'.returned == s.returned
            && !s'.pc.Finish?
            && (InCall(s'.pc) ==> InCall(s.pc))
            && (InCall(s'.pc) && PurposeOf(s'.pc).Refresh? ==>
                  PurposeOf(s.pc) == PurposeOf(s'.pc) || RefreshDue(PurposeOf(s'.pc).got))
  {
    if s.pc.Handling? {
      RefreshesEffect(s.session, Round(false, Raw(s.pc.parsed), false, NoReply));
      hide OnePass, Handle;
    } else {
      hide OnePass, Handle, TakeServer, AfterRefresh;
    }
  }

  lemma ServerAgrees(s: State, e: Env)
    requires Refines(s) && s.pc.Back? && s.pc.p.Server?
    ensures Refines(LoopStep(s, e))
  {
    AfterSnoc(s.origin, s.history, ServerReply(s.pc.h));
    ServerReplyQuiet(s.session, s.pc.h);
    hide PollFold, SessionAfter, Events, EventOf, TakeServer;
  }

  lemma LoopAgrees(s: State, e: Env)
    requires Refines(s) && s.pc != Outside && !s.pc.Exec?
    ensures Refines(LoopStep(s, e))
  {
    hide PollFold, OnePass, RunAgrees, RefreshDue, LoopStep, EndedPass;
    if s.pc.Back? && s.pc.p.Server? {
      ServerAgrees(s, e);
    } else if EndedPass(s).Some? {
      EndsInCall(s);
      PassEnds(s, e);
      EndPassAgrees(s, EndedPass(s).value);
    } else {
      QuietStep(s, e);
      SameRun(s, LoopStep(s, e));
    }
  }

  lemma EndsInCall(s: State)
    requires s.pc != Outside && !s.pc.Exec? && EndedPass(s).Some?
    ensures InCall(s.pc)
  {
    hide Handle, SaysAborted;
  }

  lemma SameRun(s: State, s': State)
    requires RunAgrees(s) && s'.session == s.session
    requires s'.origin == s.origin && s'.history == s.history && s'.returned == s.returned
    ensures RunAgrees(s')
  {
    hide SessionAfter, Events;
  }

  /** Inside `execute` the loop's state does not change. */
  lemma ExecKeeps(s: State, e: Env)
    requires s.pc.Exec?
    ensures var s' := ExecStep(s, e);
            && (s'.pc.Exec? || s'.pc.Back?) && PurposeOf(s'.pc) == s.pc.p
            && s'.session == s.session && s'.start == s.start && s'.rounds == s.rounds
            && s'.origin == s.origin && s'.history == s.history && s'.returned == s.returned
  {
  }

  lemma StepRefines(s: State, a: Action)
    requires Refines(s) && Enabled(s, a)
    ensures Refines(Apply(s, a))
  {
    if a.Work? {
      if s.pc.Exec? {
        ExecKeeps(s, a.e);
        SameRun(s, ExecStep(s, a.e));
      } else {
        LoopAgrees(s, a.e);
      }
      hide PollFold, RefreshDue, ExecStep, LoopStep, RunAgrees;
    } else {
      SameRun(s, Apply(s, a));
      hide RefreshDue, ExecStep, LoopStep, RunAgrees;
    }
  }

  lemma FirstRefines(s: State)
    requires Init(s)
    ensures Refines(s)
  {
  }

  /**
   In every state of every execution: a call that has its outcome has the outcome and the session of the
   fold of its passes, a call under way has the session of the fold so far, and session and returned
   events are those of everything taken since the start.
   */
  lemma {:induction false} EveryRunRefines(ss: seq<State>, acts: seq<Action>, n: nat)
    requires Run(ss, acts) && n < |ss|
    ensures Refines(ss[n]) && ss[n].origin == ss[0].session
  {
    hide Refines, Apply;
    if n > 0 {
      EveryRunRefines(ss, acts, n - 1);
      StepRefines(ss[n - 1], acts[n - 1]);
      OriginKept(ss[n - 1], acts[n - 1]);
    } else {
      FirstRefines(ss[0]);
    }
  }

  lemma OriginKept(s: State, a: Action)
    requires Enabled(s, a)
    ensures Apply(s, a).origin == s.origin
  {
    hide Handle, TakeServer, AfterRefresh, SaysAborted;
  }

  /**
   Order and loss under any interleaving: against an honest server the events returned so far are the
   log entries at strictly increasing positions, and none is missing exactly when everything taken into
   the session was lossless; interrupts and cancels neither repeat nor reorder an event.
   */
  lemma EveryRunDelivers(sv: Delivery.Server, ss: seq<State>, acts: seq<Action>, n: nat)
    requires Run(ss, acts) && n < |ss| && HonestRun(sv, ss[0].session, ss[n].history)
    ensures var ms := Moves(sv, ss[0].session, ss[n].history);
            && Increasing(Heads(ms)) && AtPositions(sv.log, ss[n].returned, Heads(ms))
            && (Covered(ms, sv.at(ss[0].session.ts), sv.at(ss[n].session.ts))
                <==> LosslessRun(sv, ss[0].session, ss[n].history))
  {
    hide Moves, Events, Heads, SessionAfter, HonestRun, LosslessRun, Covered, Increasing, AtPositions, CallAgrees;
    EveryRunRefines(ss, acts, n);
    DeliveredInOrder(sv, ss[0].session, ss[n].history);
    NothingLostIff(sv, ss[0].session, ss[n].history);
  }
}
