/**
 What `interrupt()` guarantees under every interleaving.  Below, `i` is the state right after a store
 of `true` to m_interrupted (or any later state while it stays set) and no `reset_interrupt()` begins
 in between.
 */
module InterruptSafety {
  import opened ByteStrings
  import opened Http
  import opened Interleaving
  import opened LongPoll

  /** From state `i` to state `j` the interrupt flag is set and nobody begins to reset it. */
  ghost predicate StaysInterrupted(ss: seq<State>, acts: seq<Action>, i: nat, j: nat) {
    && Run(ss, acts) && i <= j < |ss| && ss[i].interrupted
    && forall k :: i <= k < j ==> !acts[k].Reset?
  }

  lemma {:induction false} FlagStays(ss: seq<State>, acts: seq<Action>, i: nat, j: nat)
    requires StaysInterrupted(ss, acts, i, j)
    ensures ss[j].interrupted
    decreases j
  {
    hide Apply;
    if i < j {
      FlagStays(ss, acts, i, j - 1);
      FlagStep(ss[j - 1], acts[j - 1]);
    }
  }

  /** Only `interrupt()` and `reset_interrupt()` write the flag, each at its first step. */
  lemma FlagStep(s: State, a: Action)
    requires Enabled(s, a)
    ensures Apply(s, a).interrupted == if a.Interrupt? then true else if a.Reset? then false else s.interrupted
  {
    hide Handle, TakeServer, AfterRefresh, SaysAborted;
  }

  // ----- requests

  /** The step enters `execute` for a request of the waiting call. */
  predicate StartsRequest(s: State, a: Action) {
    a.Work? && s.pc.Ready? && (s.pc.p.Poll? || s.pc.p.Refresh?)
  }

  function Starts(ss: seq<State>, acts: seq<Action>, i: nat, j: nat): nat
    requires i <= j < |ss| && j <= |acts|
    decreases j
  {
    if i == j then 0
    else Starts(ss, acts, i, j - 1) + if StartsRequest(ss[j - 1], acts[j - 1]) then 1 else 0
  }

  /** Requests the waiting call may still start once the flag is set. */
  function Budget(pc: Pc): nat {
    if pc.Handling? || (pc.Ready? && (pc.p.Poll? || pc.p.Refresh?)) then 1 else 0
  }

  lemma BudgetStep(s: State, a: Action)
    requires Enabled(s, a) && s.interrupted
    ensures Budget(Apply(s, a).pc) + (if StartsRequest(s, a) then 1 else 0) <= Budget(s.pc)
  {
    if a.Work? && s.pc.Exec? {
      BudgetExec(s, a.e);
    } else if a.Work? {
      BudgetLoop(s, a.e);
    }
    hide LoopStep, ExecStep, Budget;
  }

  lemma BudgetExec(s: State, e: Env)
    requires s.pc.Exec?
    ensures Budget(ExecStep(s, e).pc) == 0
  {
  }

  lemma BudgetLoop(s: State, e: Env)
    requires s.pc != Outside && !s.pc.Exec? && s.interrupted
    ensures Budget(LoopStep(s, e).pc) + (if StartsRequest(s, Work(e)) then 1 else 0) <= Budget(s.pc)
  {
    hide Handle, TakeServer, AfterRefresh, SaysAborted;
  }

  /**
   Once the flag is set, waiting calls start at most one more request, a GET that was already decided
   or the refresh of a reply already accepted; none at all from every other point.
   */
  lemma {:induction false} AtMostOneMoreRequest(ss: seq<State>, acts: seq<Action>, i: nat, j: nat)
    requires StaysInterrupted(ss, acts, i, j)
    ensures Starts(ss, acts, i, j) + Budget(ss[j].pc) <= Budget(ss[i].pc) <= 1
    decreases j
  {
    hide Apply;
    if i < j {
      AtMostOneMoreRequest(ss, acts, i, j - 1);
      FlagStays(ss, acts, i, j - 1);
      BudgetStep(ss[j - 1], acts[j - 1]);
    }
  }

  // ----- outcomes

  predicate InRefresh(pc: Pc) {
    (pc.Ready? || pc.Exec? || pc.Back?) && pc.p.Refresh?
  }

  /**
   How the call at `s'` can stand after the call at `s` was interrupted: a reply is looked into, and an
   event or an unknown code returned, only if the re-check had already passed at `s`; a refresh runs,
   and an exception comes out, only if the call was past the re-check or refreshing at `s`.
   */
  predicate Explained(s: State, s': State) {
    && (s'.pc.Handling? ==> s'.pc == s.pc && s'.session == s.session)
    && (InRefresh(s'.pc) ==> InRefresh(s.pc) || s.pc.Handling?)
    && (s'.pc.Finish? ==>
          || s'.pc.out.Aborted?
          || s'.pc == s.pc
          || (s'.pc.out.Threw? && (InRefresh(s.pc) || s.pc.Handling?))
          || (s.pc.Handling? && Handle(s.session, s.pc.parsed).Stop?
              && Handle(s.session, s.pc.parsed).out == s'.pc.out))
  }

  lemma ExplainedStep(s: State, mid: State, a: Action)
    requires Explained(s, mid) && mid.interrupted && Enabled(mid, a)
    ensures Explained(s, Apply(mid, a))
  {
    if a.Work? && !mid.pc.Exec? {
      hide Handle, TakeServer, AfterRefresh, SaysAborted, ExecStep;
    } else {
      hide Handle, LoopStep;
    }
  }

  /**
   After the flag is set, a call that ends with an event, or with an unknown "failed" code, had read
   the flag as clear after its GET before the store, and returns what that very reply holds.  A call
   that was at its first check or in its GET ends aborted and in no other way.
   */
  lemma {:induction false} EventOnlyIfChecked(ss: seq<State>, acts: seq<Action>, i: nat, j: nat)
    requires StaysInterrupted(ss, acts, i, j)
    ensures Explained(ss[i], ss[j])
    ensures ss[j].pc.Finish? && !ss[i].pc.Finish? && !ss[i].pc.Handling? && !InRefresh(ss[i].pc)
            ==> ss[j].pc.out.Aborted?
    decreases j
  {
    hide Apply, Explained;
    if i < j {
      EventOnlyIfChecked(ss, acts, i, j - 1);
      FlagStays(ss, acts, i, j - 1);
      ExplainedStep(ss[i], ss[j - 1], acts[j - 1]);
    } else {
      ExplainedSelf(ss[i]);
    }
    ExplainedMeaning(ss[i], ss[j]);
  }

  lemma ExplainedSelf(s: State)
    ensures Explained(s, s)
  {
  }

  lemma ExplainedMeaning(s: State, s': State)
    requires Explained(s, s')
    ensures s'.pc.Finish? && !s.pc.Finish? && !s.pc.Handling? && !InRefresh(s.pc) ==> s'.pc.out.Aborted?
  {
  }

  // ----- the exact outcome

  /** How a refresh that ends with `h` ends an interrupted call: the next check aborts, or it threw. */
  function AfterRefreshVerdict(session: Session, h: Reply): Outcome {
    match AfterRefresh(session, h)
    case Loop(_) => Aborted
    case Done(_, out) => out
  }

  /** How a call that stands at `pc` ends once it is interrupted, if its refresh POST ends with `h`. */
  function Verdict(pc: Pc, session: Session, h: Reply): Outcome {
    if InRefresh(pc) then AfterRefreshVerdict(session, h)
    else
      match pc
      case Finish(out) => out
      case Handling(parsed) =>
        (match Handle(session, parsed)
         case Again(_) => Aborted
         case NeedRefresh => AfterRefreshVerdict(session, h)
         case Stop(_, out) => out)
      case _ => Aborted
  }

  /** The states belong to one call, and its refresh POST, if it ends among them, ends with `h`. */
  ghost predicate SameCall(ss: seq<State>, i: nat, j: nat, h: Reply) {
    && i <= j < |ss|
    && forall k :: i <= k <= j ==>
         ss[k].pc != Outside && (ss[k].pc.Back? && ss[k].pc.p.Refresh? ==> ss[k].pc.h == h)
  }

  lemma VerdictExec(s: State, e: Env, h: Reply)
    requires s.pc.Exec?
    ensures Verdict(ExecStep(s, e).pc, ExecStep(s, e).session, h) == Verdict(s.pc, s.session, h)
  {
    hide AfterRefreshVerdict;
  }

  lemma VerdictLoop(s: State, e: Env, h: Reply)
    requires s.pc != Outside && !s.pc.Exec? && s.interrupted && LoopStep(s, e).pc != Outside
    requires s.pc.Back? && s.pc.p.Refresh? ==> s.pc.h == h
    ensures Verdict(LoopStep(s, e).pc, LoopStep(s, e).session, h) == Verdict(s.pc, s.session, h)
  {
    hide Handle, TakeServer, AfterRefresh, SaysAborted;
  }

  lemma VerdictStep(s: State, a: Action, h: Reply)
    requires Enabled(s, a) && s.interrupted && s.pc != Outside && Apply(s, a).pc != Outside
    requires s.pc.Back? && s.pc.p.Refresh? ==> s.pc.h == h
    ensures Verdict(Apply(s, a).pc, Apply(s, a).session, h) == Verdict(s.pc, s.session, h)
  {
    if a.Work? && s.pc.Exec? {
      VerdictExec(s, a.e, h);
    } else if a.Work? {
      VerdictLoop(s, a.e, h);
    }
    hide LoopStep, ExecStep, Verdict;
  }

  /**
   The outcome of an interrupted call is settled by where it stands, the session it has, and the end of
   its refresh POST if it comes to one; no schedule changes it.
   */
  lemma {:induction false} ExactOutcome(ss: seq<State>, acts: seq<Action>, i: nat, j: nat, h: Reply)
    requires StaysInterrupted(ss, acts, i, j) && SameCall(ss, i, j, h)
    ensures Verdict(ss[j].pc, ss[j].session, h) == Verdict(ss[i].pc, ss[i].session, h)
    ensures ss[j].pc.Finish? ==> ss[j].pc.out == Verdict(ss[i].pc, ss[i].session, h)
    decreases j
  {
    hide Apply, Verdict;
    if i < j {
      ExactOutcome(ss, acts, i, j - 1, h);
      FlagStays(ss, acts, i, j - 1);
      assert ss[j] == Apply(ss[j - 1], acts[j - 1]) && ss[j].pc != Outside;
      VerdictStep(ss[j - 1], acts[j - 1], h);
    }
    VerdictOfFinish(ss[j].pc, ss[j].session, h);
  }

  lemma VerdictOfFinish(pc: Pc, session: Session, h: Reply)
    ensures pc.Finish? ==> Verdict(pc, session, h) == pc.out
  {
  }

  /**
   The point of a call from which an interrupt makes it end aborted: its first check, its GET, a
   refresh that brings a complete session, and an accepted reply that makes the loop go round again.
   */
  predicate AbortsFrom(pc: Pc, h: Reply) {
    if InRefresh(pc) then Depth(h) == 3
    else
      match pc
      case Finish(out) => out.Aborted?
      case Handling(None) => false
      case Handling(Some(doc)) =>
        || FailedCode(doc) == Some(1)
        || NothingNew(doc)
        || (FailedCode(doc) in {Some(2), Some(3)} && Depth(h) == 3)
      case _ => true
  }

  lemma VerdictAborts(pc: Pc, session: Session, h: Reply)
    ensures Verdict(pc, session, h).Aborted? <==> AbortsFrom(pc, h)
  {
    TakeServerEffect(session, h);
    if pc.Handling? {
      var r := Round(false, Raw(pc.parsed), false, h);
      LoopsExactlyWhen(session, r);
      EndsExactlyWhen(session, r);
    }
    hide TakeServer, Depth, FailedCode, NothingNew;
  }

  /** Exactly when an interrupted call ends with `operation_aborted`. */
  lemma AbortedIff(ss: seq<State>, acts: seq<Action>, i: nat, j: nat, h: Reply)
    requires StaysInterrupted(ss, acts, i, j) && SameCall(ss, i, j, h) && ss[j].pc.Finish?
    ensures ss[j].pc.out.Aborted? <==> AbortsFrom(ss[i].pc, h)
  {
    hide Verdict, AbortsFrom;
    ExactOutcome(ss, acts, i, j, h);
    VerdictAborts(ss[i].pc, ss[i].session, h);
  }

  /** The refresh is due or started and has not loaded m_cancelled, or it was refused. */
  predicate RefreshToRefuse(pc: Pc, session: Session) {
    match pc
    case Handling(parsed) => Handle(session, parsed).NeedRefresh?
    case Ready(p) => p.Refresh?
    case Exec(p, _, ph) => p.Refresh? && ph.Load?
    case Back(p, h) => p.Refresh? && h == Failed(CANCELED)
    case Finish(out) => out == Threw(NetworkFault(CANCELED))
    case _ => false
  }

  lemma RefusalStep(s: State, a: Action)
    requires Enabled(s, a) && s.cancelled && RefreshToRefuse(s.pc, s.session)
    ensures Apply(s, a).pc == Outside || RefreshToRefuse(Apply(s, a).pc, Apply(s, a).session)
  {
    hide Handle, SaysAborted;
  }

  /**
   A call whose refresh has not loaded m_cancelled when `cancel()` stores to it cannot end aborted: the
   refresh is refused, and the refusal comes out of `wait_for_event` as an exception.
   */
  lemma {:induction false} RefusedRefreshThrows(ss: seq<State>, acts: seq<Action>, i: nat, j: nat)
    requires Run(ss, acts) && i <= j < |ss|
    requires forall k :: i <= k < j ==> ss[k].cancelled && ss[k].pc != Outside
    requires RefreshToRefuse(ss[i].pc, ss[i].session)
    ensures ss[j].pc == Outside || RefreshToRefuse(ss[j].pc, ss[j].session)
    ensures ss[j].pc.Finish? ==> ss[j].pc.out == Threw(NetworkFault(CANCELED))
    decreases j
  {
    hide Apply, Handle;
    if i < j {
      RefusedRefreshThrows(ss, acts, i, j - 1);
      RefusalStep(ss[j - 1], acts[j - 1]);
    }
  }

  // ----- steps to the end

  function PhaseRank(ph: Phase): nat {
    match ph
    case Load => 8
    case Resolve => 7
    case Opened => 6
    case Register => 5
    case Talking => 4
    case Leaving(_) => 3
    case Clear(_) => 2
    case Closing(_) => 1
  }

  function PurposeRank(p: Purpose): nat {
    match p
    case Poll => 1
    case Refresh(_) => 2
    case Server => 0
    case Other => 0
  }

  /** Worker steps that are left at most until the call has its outcome, once the flag is set. */
  function Rank(pc: Pc): (r: nat)
    ensures r <= 12
  {
    match pc
    case Outside => 0
    case Finish(_) => 0
    case Top => 1
    case Back(p, _) => PurposeRank(p)
    case Exec(p, _, ph) => PurposeRank(p) + PhaseRank(ph)
    case Ready(p) => PurposeRank(p) + 9
    case Handling(_) => 12
  }

  lemma RankStep(s: State, a: Action)
    requires Enabled(s, a) && s.interrupted && s.pc != Outside && Apply(s, a).pc != Outside
    ensures Rank(Apply(s, a).pc) + (if a.Work? then 1 else 0) <= Rank(s.pc)
  {
    if a.Work? && s.pc.Exec? {
      RankExec(s, a.e);
    } else if a.Work? {
      RankLoop(s, a.e);
    }
    hide LoopStep, ExecStep, Rank;
  }

  lemma RankExec(s: State, e: Env)
    requires s.pc.Exec?
    ensures Rank(ExecStep(s, e).pc) + 1 <= Rank(s.pc)
  {
  }

  lemma RankLoop(s: State, e: Env)
    requires s.pc != Outside && !s.pc.Exec? && s.interrupted && LoopStep(s, e).pc != Outside
    ensures Rank(LoopStep(s, e).pc) + 1 <= Rank(s.pc)
  {
    hide Handle, TakeServer, AfterRefresh, SaysAborted;
  }

  function WorkSteps(acts: seq<Action>, i: nat, j: nat): nat
    requires i <= j <= |acts|
    decreases j
  {
    if i == j then 0 else WorkSteps(acts, i, j - 1) + if acts[j - 1].Work? then 1 else 0
  }

  /**
   An interrupted call ends: as long as it is inside, the worker has taken at most twelve steps since
   the flag was set, one of which may be the wait for the network.
   */
  lemma {:induction false} EndsWithinTwelveSteps(ss: seq<State>, acts: seq<Action>, i: nat, j: nat)
    requires StaysInterrupted(ss, acts, i, j)
    requires forall k :: i <= k <= j ==> ss[k].pc != Outside
    ensures WorkSteps(acts, i, j) + Rank(ss[j].pc) <= Rank(ss[i].pc) <= 12
    decreases j
  {
    hide Apply;
    if i < j {
      EndsWithinTwelveSteps(ss, acts, i, j - 1);
      FlagStays(ss, acts, i, j - 1);
      assert ss[j] == Apply(ss[j - 1], acts[j - 1]) && ss[j].pc != Outside;
      RankStep(ss[j - 1], acts[j - 1]);
    }
  }
}
