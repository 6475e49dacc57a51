/**
 One thread in `wait_for_event` (or in another request of the same client) and any number of threads
 in `interrupt()` and `reset_interrupt()`, as a machine that takes one atomic step at a time.  The
 steps are the loads and stores of the two flags, the operations on the mutex, the registered pointer
 and the stream, and the sequential code between them (src/BotBase.cpp:129-137, 146-254 and
 src/HttpClient.cpp:24-35, 73-148).  The client is taken to be authorised.
 */
module Interleaving {
  import opened ByteStrings
  import opened Http
  import opened JsonValues
  import opened LongPoll

  /**
   Why `execute` runs: the GET of a pass, its refresh POST (after that end of the GET), or from outside
   `wait_for_event` the getLongPollServer POST of `auth` and `reconnect`, or any other request.
   */
  datatype Purpose = Poll | Refresh(got: Reply) | Server | Other

  /** Where `execute` stands. */
  datatype Phase =
    | Load               // about to load m_cancelled
    | Resolve            // resolving the host; no stream yet
    | Opened             // the stream exists; about to lock the mutex
    | Register           // holds the mutex; about to store the pointer and unlock
    | Talking            // connect, handshake, write, read
    | Leaving(h: Reply)  // about to run the guard: lock the mutex
    | Clear(h: Reply)    // holds the mutex; about to clear the pointer and unlock
    | Closing(h: Reply)  // the stream is about to be destroyed

  datatype Pc =
    | Outside
    | Top
    | Ready(p: Purpose)
    | Exec(p: Purpose, id: nat, ph: Phase)
    | Back(p: Purpose, h: Reply)
    | Handling(parsed: Option<Json>)
    | Finish(out: Outcome)

  /** Where a controller stands after its store to m_interrupted. */
  datatype Ctl =
    | CancelStore
    | CancelLock
    | CancelRead
    | CancelUse(p: Option<nat>)
    | ResetStore

  datatype Owner = Free | ByWorker | ByCtl(t: nat)

  datatype State = State(
    pc: Pc,
    session: Session,
    interrupted: bool,
    cancelled: bool,
    mutex: Owner,
    active: Option<nat>,
    live: Option<nat>,
    started: nat,
    ctls: map<nat, Ctl>,
    // history of the current call: the session it began with and its finished passes
    start: Session,
    rounds: seq<Round>,
    // history of the execution: its first session, what was taken into it, the events returned
    origin: Session,
    history: seq<Input>,
    returned: seq<Event>)

  /** What a worker step takes from outside: a failure, or the end of the talk. */
  datatype Env = Env(fail: Option<Bytes>, reply: Reply)

  datatype Action =
    | Wait
    | Request(server: bool)
    | Work(e: Env)
    | Interrupt(t: nat)
    | Reset(t: nat)
    | Control(t: nat)

  ghost predicate Init(s: State) {
    && s.pc == Outside && !s.interrupted && !s.cancelled && s.mutex == Free
    && s.active == None && s.live == None && s.started == 0 && s.ctls == map[]
    && s.rounds == [] && s.start == s.session
    && s.origin == s.session && s.history == [] && s.returned == []
  }

  /** The worker is about to lock the mutex. */
  predicate WantsMutex(pc: Pc, e: Env) {
    pc.Exec? && ((pc.ph.Opened? && e.fail == None) || pc.ph.Leaving?)
  }

  predicate Enabled(s: State, a: Action) {
    match a
    case Wait => s.pc == Outside
    case Request(_) => s.pc == Outside
    case Work(e) => s.pc != Outside && (WantsMutex(s.pc, e) ==> s.mutex == Free)
    case Interrupt(t) => t !in s.ctls
    case Reset(t) => t !in s.ctls
    case Control(t) => t in s.ctls && (s.ctls[t] == CancelLock ==> s.mutex == Free)
  }

  const NoReply: Reply := Raw(None)

  /** One step of `execute`. */
  function ExecStep(s: State, e: Env): State
    requires s.pc.Exec?
  {
    var (p, id) := (s.pc.p, s.pc.id);
    match s.pc.ph
    case Load => if s.cancelled then s.(pc := Back(p, Failed(CANCELED))) else s.(pc := Exec(p, id, Resolve))
    case Resolve =>
      if e.fail.Some? then s.(pc := Back(p, Failed(e.fail.value)))
      else s.(pc := Exec(p, id, Opened), live := Some(id))
    case Opened =>
      if e.fail.Some? then s.(pc := Back(p, Failed(e.fail.value)), live := None)
      else s.(pc := Exec(p, id, Register), mutex := ByWorker)
    case Register => s.(pc := Exec(p, id, Talking), active := Some(id), mutex := Free)
    case Talking => s.(pc := Exec(p, id, Leaving(e.reply)))
    case Leaving(h) => s.(pc := Exec(p, id, Clear(h)), mutex := ByWorker)
    case Clear(h) => s.(pc := Exec(p, id, Closing(h)), active := None, mutex := Free)
    case Closing(h) => s.(pc := Back(p, h), live := None)
  }

  /** The pass is over: the next check comes, or the call has its outcome. */
  function EndPass(s: State, next: Pass, r: Round): State {
    var pc := if next.Loop? then Top else Finish(next.out);
    s.(pc := pc, session := next.s, rounds := s.rounds + [r],
       history := s.history + [PollPass(r)],
       returned := s.returned + if next.Done? && next.out.Delivered? then [next.out.event] else [])
  }

  /** One step of the code of `wait_for_event` around the requests. */
  function LoopStep(s: State, e: Env): State
    requires s.pc != Outside && !s.pc.Exec?
  {
    match s.pc
    case Top =>
      if s.interrupted then EndPass(s, Done(s.session, Aborted), Round(true, NoReply, true, NoReply))
      else s.(pc := Ready(Poll))
    case Ready(p) => s.(pc := Exec(p, s.started, Load), started := s.started + 1)
    case Back(Poll, Failed(msg)) =>
      if SaysAborted(msg) || s.interrupted then
        EndPass(s, Done(s.session, Aborted), Round(false, Failed(msg), s.interrupted, NoReply))
      else s.(pc := Ready(Refresh(Failed(msg))))
    case Back(Poll, Raw(parsed)) =>
      if s.interrupted then
        EndPass(s, Done(s.session, Aborted), Round(false, Raw(parsed), true, NoReply))
      else s.(pc := Handling(parsed))
    case Handling(parsed) =>
      (match Handle(s.session, parsed)
       case Again(s1) => EndPass(s, Loop(s1), Round(false, Raw(parsed), false, NoReply))
       case NeedRefresh => s.(pc := Ready(Refresh(Raw(parsed))))
       case Stop(s1, out) => EndPass(s, Done(s1, out), Round(false, Raw(parsed), false, NoReply)))
    case Back(Refresh(got), h) => EndPass(s, AfterRefresh(s.session, h), Round(false, got, false, h))
    case Back(Server, h) =>
      s.(pc := Outside, session := TakeServer(s.session, h).0, history := s.history + [ServerReply(h)])
    case Back(Other, _) => s.(pc := Outside)
    case Finish(_) => s.(pc := Outside)
  }

  /** The next step of controller `t`. */
  function ControlStep(s: State, t: nat): State
    requires t in s.ctls
  {
    match s.ctls[t]
    case CancelStore => s.(cancelled := true, ctls := s.ctls[t := CancelLock])
    case CancelLock => s.(mutex := ByCtl(t), ctls := s.ctls[t := CancelRead])
    case CancelRead => s.(ctls := s.ctls[t := CancelUse(s.active)])
    case CancelUse(_) => s.(mutex := Free, ctls := s.ctls - {t})
    case ResetStore => s.(cancelled := false, ctls := s.ctls - {t})
  }

  function Apply(s: State, a: Action): State
    requires Enabled(s, a)
  {
    match a
    case Wait => s.(pc := Top, start := s.session, rounds := [])
    case Request(server) => s.(pc := Ready(if server then Server else Other))
    case Work(e) => if s.pc.Exec? then ExecStep(s, e) else LoopStep(s, e)
    case Interrupt(t) => s.(interrupted := true, ctls := s.ctls[t := CancelStore])
    case Reset(t) => s.(interrupted := false, ctls := s.ctls[t := ResetStore])
    case Control(t) => ControlStep(s, t)
  }

  /** `ss` are the states of an execution whose steps are `acts`. */
  ghost predicate Run(ss: seq<State>, acts: seq<Action>) {
    && |ss| == |acts| + 1
    && Init(ss[0])
    && forall i :: 0 <= i < |acts| ==> Enabled(ss[i], acts[i]) && ss[i + 1] == Apply(ss[i], acts[i])
  }

  // ----- the socket

  predicate HasStream(pc: Pc) {
    pc.Exec? && !pc.ph.Load? && !pc.ph.Resolve?
  }

  predicate Registered(pc: Pc) {
    pc.Exec? && (pc.ph.Talking? || pc.ph.Leaving? || pc.ph.Clear?)
  }

  predicate InCritical(c: Ctl) {
    c.CancelRead? || c.CancelUse?
  }

  /** Who holds the mutex is the thread whose program counter says so. */
  ghost predicate MutexInv(s: State) {
    && (s.mutex == ByWorker <==> s.pc.Exec? && (s.pc.ph.Register? || s.pc.ph.Clear?))
    && (s.mutex.ByCtl? ==> s.mutex.t in s.ctls && InCritical(s.ctls[s.mutex.t]))
    && (forall t :: t in s.ctls && InCritical(s.ctls[t]) ==> s.mutex == ByCtl(t))
  }

  /** The registered pointer and the stream belong to the current request. */
  ghost predicate SocketInv(s: State) {
    && MutexInv(s)
    && s.live == (if HasStream(s.pc) then Some(s.pc.id) else None)
    && s.active == (if Registered(s.pc) then Some(s.pc.id) else None)
    && (s.pc.Exec? ==> s.pc.id < s.started)
    && (forall t :: t in s.ctls && s.ctls[t].CancelUse? ==> s.ctls[t].p == s.active)
  }

  lemma SocketWork(s: State, e: Env)
    requires SocketInv(s) && Enabled(s, Work(e))
    ensures SocketInv(Apply(s, Work(e)))
  {
    if !s.pc.Exec? {
      LoopStepQuiet(s, e);
      hide LoopStep;
    }
  }

  /** Outside `execute` the worker leaves the mutex, the pointer and the stream alone. */
  lemma LoopStepQuiet(s: State, e: Env)
    requires s.pc != Outside && !s.pc.Exec?
    ensures var s' := LoopStep(s, e);
            && s'.ctls == s.ctls && s'.mutex == s.mutex && s'.active == s.active && s'.live == s.live
            && (s'.pc.Exec? ==> s'.pc.ph.Load? && s'.pc.id == s.started < s'.started)
            && s.started <= s'.started
  {
    hide Handle, TakeServer, AfterRefresh, SaysAborted;
  }

  lemma SocketControl(s: State, t: nat)
    requires SocketInv(s) && Enabled(s, Control(t))
    ensures SocketInv(Apply(s, Control(t)))
  {
  }

  lemma SocketStep(s: State, a: Action)
    requires SocketInv(s) && Enabled(s, a)
    ensures SocketInv(Apply(s, a))
  {
    match a
    case Work(e) => SocketWork(s, e);
    case Control(t) => SocketControl(s, t);
    case _ =>
  }

  /** In every state of every execution the registration is sound. */
  lemma {:induction false} SocketSafe(ss: seq<State>, acts: seq<Action>, n: nat)
    requires Run(ss, acts) && n < |ss|
    ensures SocketInv(ss[n])
  {
    if n > 0 {
      SocketSafe(ss, acts, n - 1);
      SocketStep(ss[n - 1], acts[n - 1]);
    }
  }

  /**
   A canceller that is about to use a pointer holds the mutex, and the pointer is that of the live
   stream of the current request; no pointer outlives its stream.
   */
  lemma UsedSocketIsLive(ss: seq<State>, acts: seq<Action>, n: nat, t: nat)
    requires Run(ss, acts) && n < |ss|
    requires t in ss[n].ctls && ss[n].ctls[t].CancelUse? && ss[n].ctls[t].p.Some?
    ensures ss[n].mutex == ByCtl(t)
    ensures ss[n].pc.Exec? && ss[n].ctls[t].p == Some(ss[n].pc.id) == ss[n].live == ss[n].active
    ensures forall u :: u in ss[n].ctls && u != t ==> !InCritical(ss[n].ctls[u])
  {
    SocketSafe(ss, acts, n);
  }

  /** No execution is stuck: the worker can step, or a controller that holds the mutex can. */
  lemma NeverStuck(ss: seq<State>, acts: seq<Action>, n: nat, e: Env)
    requires Run(ss, acts) && n < |ss|
    ensures ss[n].pc != Outside ==>
              || Enabled(ss[n], Work(e))
              || (ss[n].mutex.ByCtl? && Enabled(ss[n], Control(ss[n].mutex.t)))
    ensures forall t :: t in ss[n].ctls ==>
              || Enabled(ss[n], Control(t))
              || (ss[n].mutex == ByWorker && Enabled(ss[n], Work(e)))
              || (ss[n].mutex.ByCtl? && Enabled(ss[n], Control(ss[n].mutex.t)))
  {
    SocketSafe(ss, acts, n);
  }

  // ----- alone

  /** What the network does, as the inputs of the worker's steps from the load of the flag on. */
  function Inputs(x: Exchange, cancelled: bool): seq<Env> {
    var quiet := Env(None, NoReply);
    if cancelled then [quiet]
    else
      match x
      case NoAddress(msg) => [quiet, quiet.(fail := Some(msg))]
      case NoServerName(msg) => [quiet, quiet, quiet.(fail := Some(msg))]
      case Talk(_, reply) =>
        var e := quiet.(reply := reply);
        [e, e, e, e, e, e, e, e]
  }

  ghost predicate WorksThrough(ss: seq<State>, es: seq<Env>) {
    && |ss| == |es| + 1
    && forall i :: 0 <= i < |es| ==> Enabled(ss[i], Work(es[i])) && ss[i + 1] == Apply(ss[i], Work(es[i]))
  }

  /**
   With no controller in between, the steps of one request do what the method `Http.HttpClient.Execute`
   does: same end, nothing registered, no stream, and nothing else touched.
   */
  lemma AloneIsExecute(s: State, p: Purpose, id: nat, x: Exchange) returns (ss: seq<State>)
    requires s.pc == Exec(p, id, Load) && s.mutex == Free && s.active == None && s.live == None
    ensures WorksThrough(ss, Inputs(x, s.cancelled)) && ss[0] == s
    ensures ss[|ss| - 1] == s.(pc := Back(p, if s.cancelled then Failed(CANCELED) else ExchangeResult(x)))
  {
    hide Enabled, Apply, Inputs, AloneAt;
    var es := Inputs(x, s.cancelled);
    AloneEnds(s, p, id, x);
    ss := [s];
    for i := 0 to |es|
      invariant |ss| == i + 1 && ss[0] == s
      invariant forall j :: 0 <= j < i ==> Enabled(ss[j], Work(es[j])) && ss[j + 1] == Apply(ss[j], Work(es[j]))
      invariant ss[i] == AloneAt(s, p, id, x, i)
    {
      AloneStep(s, p, id, x, i);
      ss := ss + [AloneAt(s, p, id, x, i + 1)];
    }
  }

  lemma AloneEnds(s: State, p: Purpose, id: nat, x: Exchange)
    requires s.active == None && s.live == None
    ensures var n := |Inputs(x, s.cancelled)|;
            && n > 0 && AloneAt(s, p, id, x, 0) == s
            && AloneAt(s, p, id, x, n)
               == s.(pc := Back(p, if s.cancelled then Failed(CANCELED) else ExchangeResult(x)))
  {
  }

  lemma AloneStep(s: State, p: Purpose, id: nat, x: Exchange, i: nat)
    requires s.pc == Exec(p, id, Load) && s.mutex == Free && s.active == None && s.live == None
    requires i < |Inputs(x, s.cancelled)|
    ensures var (here, a) := (AloneAt(s, p, id, x, i), Work(Inputs(x, s.cancelled)[i]));
            Enabled(here, a) && Apply(here, a) == AloneAt(s, p, id, x, i + 1)
  {
    hide LoopStep;
  }

  /** The state after `i` steps alone. */
  ghost function AloneAt(s: State, p: Purpose, id: nat, x: Exchange, i: nat): State {
    var here := (ph: Phase) => s.(pc := Exec(p, id, ph), live := Some(id));
    if i == 0 then s
    else if s.cancelled then s.(pc := Back(p, Failed(CANCELED)))
    else if i == 1 then s.(pc := Exec(p, id, Resolve))
    else if x.NoAddress? then s.(pc := Back(p, Failed(x.msg)))
    else if i == 2 then here(Opened)
    else if x.NoServerName? then s.(pc := Back(p, Failed(x.msg)))
    else if i == 3 then here(Register).(mutex := ByWorker)
    else if i == 4 then here(Talking).(active := Some(id))
    else if i == 5 then here(Leaving(x.reply)).(active := Some(id))
    else if i == 6 then here(Clear(x.reply)).(active := Some(id), mutex := ByWorker)
    else if i == 7 then here(Closing(x.reply))
    else s.(pc := Back(p, x.reply))
  }
}
