/**
 When a request escapes a `cancel()`, and when the two flags agree: characterisations over the steps
 of an execution.
 */
module CancelWindow {
  import opened ByteStrings
  import opened Http
  import opened Interleaving
  import opened InterruptSafety
  import opened LongPoll

  // ----- the steps that matter

  /** `m_cancelled.store(true)`. */
  predicate StoresCancel(s: State, a: Action) {
    a.Control? && a.t in s.ctls && s.ctls[a.t].CancelStore?
  }

  /** `m_cancelled.store(false)`. */
  predicate ClearsCancel(s: State, a: Action) {
    a.Control? && a.t in s.ctls && s.ctls[a.t].ResetStore?
  }

  /** The critical section of a `cancel()` reads the registered pointer. */
  predicate ReadsPointer(s: State, a: Action) {
    a.Control? && a.t in s.ctls && s.ctls[a.t].CancelRead?
  }

  predicate InPhase(s: State, a: Action, r: nat) {
    a.Work? && s.pc.Exec? && s.pc.id == r
  }

  predicate LoadsFlag(s: State, a: Action, r: nat) {
    InPhase(s, a, r) && s.pc.ph.Load?
  }

  predicate Registers(s: State, a: Action, r: nat) {
    InPhase(s, a, r) && s.pc.ph.Register?
  }

  predicate Unregisters(s: State, a: Action, r: nat) {
    InPhase(s, a, r) && s.pc.ph.Clear?
  }

  // ----- the flag

  ghost predicate StandsSince(ss: seq<State>, acts: seq<Action>, k: nat, n: nat)
    requires n < |ss| && n <= |acts|
  {
    && k < n && StoresCancel(ss[k], acts[k])
    && forall j :: k < j < n ==> !ClearsCancel(ss[j], acts[j])
  }

  /** Some store of `true` has not been cleared before state `n`. */
  ghost predicate Stands(ss: seq<State>, acts: seq<Action>, n: nat)
    requires n < |ss| && n <= |acts|
  {
    exists k: nat :: StandsSince(ss, acts, k, n)
  }

  lemma CancelledStep(s: State, a: Action)
    requires Enabled(s, a)
    ensures Apply(s, a).cancelled
            == if StoresCancel(s, a) then true else if ClearsCancel(s, a) then false else s.cancelled
  {
    hide Handle, TakeServer, AfterRefresh, SaysAborted;
  }

  lemma StandsStep(ss: seq<State>, acts: seq<Action>, n: nat)
    requires 0 < n < |ss| && n <= |acts|
    ensures var (s, a) := (ss[n - 1], acts[n - 1]);
            Stands(ss, acts, n) <==> StoresCancel(s, a) || (Stands(ss, acts, n - 1) && !ClearsCancel(s, a))
  {
    if StoresCancel(ss[n - 1], acts[n - 1]) {
      assert StandsSince(ss, acts, n - 1, n);
    } else if Stands(ss, acts, n) {
      var k: nat :| StandsSince(ss, acts, k, n);
      assert StandsSince(ss, acts, k, n - 1);
    } else if Stands(ss, acts, n - 1) && !ClearsCancel(ss[n - 1], acts[n - 1]) {
      var k: nat :| StandsSince(ss, acts, k, n - 1);
      assert StandsSince(ss, acts, k, n);
    }
  }

  /** The flag is set exactly when some store of `true` stands. */
  lemma {:induction false} FlagHistory(ss: seq<State>, acts: seq<Action>, n: nat)
    requires Run(ss, acts) && n < |ss|
    ensures ss[n].cancelled <==> Stands(ss, acts, n)
  {
    if n > 0 {
      hide Apply;
      FlagHistory(ss, acts, n - 1);
      CancelledStep(ss[n - 1], acts[n - 1]);
      StandsStep(ss, acts, n);
    }
  }

  // ----- the registration

  ghost predicate OpenSince(ss: seq<State>, acts: seq<Action>, g: nat, n: nat, r: nat)
    requires n < |ss| && n <= |acts|
  {
    && g < n && Registers(ss[g], acts[g], r)
    && forall j :: g < j < n ==> !Unregisters(ss[j], acts[j], r)
  }

  /** Request `r` has registered and not yet unregistered before state `n`. */
  ghost predicate Open(ss: seq<State>, acts: seq<Action>, n: nat, r: nat)
    requires n < |ss| && n <= |acts|
  {
    exists g: nat :: OpenSince(ss, acts, g, n, r)
  }

  lemma OpenStep(ss: seq<State>, acts: seq<Action>, n: nat, r: nat)
    requires 0 < n < |ss| && n <= |acts|
    ensures var (s, a) := (ss[n - 1], acts[n - 1]);
            Open(ss, acts, n, r) <==> Registers(s, a, r) || (Open(ss, acts, n - 1, r) && !Unregisters(s, a, r))
  {
    if Registers(ss[n - 1], acts[n - 1], r) {
      assert OpenSince(ss, acts, n - 1, n, r);
    } else if Open(ss, acts, n, r) {
      var g: nat :| OpenSince(ss, acts, g, n, r);
      assert OpenSince(ss, acts, g, n - 1, r);
    } else if Open(ss, acts, n - 1, r) && !Unregisters(ss[n - 1], acts[n - 1], r) {
      var g: nat :| OpenSince(ss, acts, g, n - 1, r);
      assert OpenSince(ss, acts, g, n, r);
    }
  }

  lemma ActiveStep(s: State, a: Action, r: nat)
    requires Enabled(s, a) && SocketInv(s)
    ensures Apply(s, a).active == Some(r)
            <==> Registers(s, a, r) || (s.active == Some(r) && !Unregisters(s, a, r))
  {
    if a.Work? && !s.pc.Exec? {
      LoopStepQuiet(s, a.e);
      hide LoopStep;
    }
  }

  /** The registered pointer is that of request `r` exactly between its two steps. */
  lemma {:induction false} ActiveHistory(ss: seq<State>, acts: seq<Action>, n: nat, r: nat)
    requires Run(ss, acts) && n < |ss|
    ensures ss[n].active == Some(r) <==> Open(ss, acts, n, r)
  {
    if n > 0 {
      hide Apply, SocketInv;
      ActiveHistory(ss, acts, n - 1, r);
      SocketSafe(ss, acts, n - 1);
      ActiveStep(ss[n - 1], acts[n - 1], r);
      OpenStep(ss, acts, n, r);
    }
  }

  /** Request `r` has been started, and is past its registration if it still runs. */
  predicate PastRegister(s: State, r: nat) {
    r < s.started && (s.pc.Exec? && s.pc.id == r ==> Registered(s.pc) || s.pc.ph.Closing?)
  }

  lemma PastRegisterStep(s: State, a: Action, r: nat)
    requires Enabled(s, a) && SocketInv(s) && (PastRegister(s, r) || Registers(s, a, r))
    ensures PastRegister(Apply(s, a), r)
  {
    if a.Work? && !s.pc.Exec? {
      LoopStepQuiet(s, a.e);
      hide LoopStep;
    }
  }

  /** After request `r` has registered it never registers again. */
  lemma {:induction false} RegistersOnce(ss: seq<State>, acts: seq<Action>, g: nat, n: nat, r: nat)
    requires Run(ss, acts) && g < n < |ss| && Registers(ss[g], acts[g], r)
    ensures PastRegister(ss[n], r)
    decreases n
  {
    hide Apply, SocketInv, PastRegister;
    SocketSafe(ss, acts, n - 1);
    if g + 1 < n {
      RegistersOnce(ss, acts, g, n - 1, r);
    }
    PastRegisterStep(ss[n - 1], acts[n - 1], r);
  }

  // ----- the window

  /** Neither refused at its start, at `l`, nor hit by the critical section at `k`. */
  predicate Escapes(ss: seq<State>, r: nat, l: nat, k: nat)
    requires l < |ss| && k < |ss|
  {
    !ss[l].cancelled && ss[k].active != Some(r)
  }

  /**
   The exact window, with any number of cancels and resets about: request `r` escapes the `cancel()`
   that reads the pointer at `k` exactly when no store of `true` stands at its own load of the flag
   and `k` lies outside its registration.  A pointer that is hit is the request's live socket.
   */
  lemma ExactWindow(ss: seq<State>, acts: seq<Action>, r: nat, l: nat, k: nat)
    requires Run(ss, acts) && l < |acts| && k < |acts|
    requires LoadsFlag(ss[l], acts[l], r) && ReadsPointer(ss[k], acts[k])
    ensures Escapes(ss, r, l, k) <==> !Stands(ss, acts, l) && !Open(ss, acts, k, r)
    ensures ss[l].cancelled ==> ss[l + 1].pc == Back(ss[l].pc.p, Failed(CANCELED))
    ensures ss[k].active == Some(r) ==> ss[k + 1].ctls[acts[k].t] == CancelUse(Some(r)) && ss[k].live == Some(r)
  {
    FlagHistory(ss, acts, l);
    ActiveHistory(ss, acts, k, r);
    SocketSafe(ss, acts, k);
  }

  /**
   The same for one `cancel()` alone, with its store at `st` the only one and no reset: a request escapes
   exactly when it loads the flag before `st` and `k` is not inside its registration.
   */
  lemma SoleCancelWindow(ss: seq<State>, acts: seq<Action>, r: nat, l: nat, st: nat, k: nat)
    requires Run(ss, acts) && l < |acts| && st < k < |acts|
    requires LoadsFlag(ss[l], acts[l], r)
    requires StoresCancel(ss[st], acts[st]) && ReadsPointer(ss[k], acts[k])
    requires forall j :: 0 <= j < |acts| ==>
               !ClearsCancel(ss[j], acts[j]) && (StoresCancel(ss[j], acts[j]) ==> j == st)
    ensures Escapes(ss, r, l, k) <==> l < st && !Open(ss, acts, k, r)
    ensures st < l ==> ss[l + 1].pc == Back(ss[l].pc.p, Failed(CANCELED))
  {
    FlagHistory(ss, acts, l);
    ExactWindow(ss, acts, r, l, k);
    assert Stands(ss, acts, l) <==> st < l by {
      if st < l {
        assert StandsSince(ss, acts, st, l);
      }
    }
  }

  /** A request that registers at `g` and unregisters at `u` is registered between the two and at no other time. */
  lemma OpenInterval(ss: seq<State>, acts: seq<Action>, r: nat, g: nat, u: nat, k: nat)
    requires Run(ss, acts) && g < u < |acts| && k < |acts| && ReadsPointer(ss[k], acts[k])
    requires Registers(ss[g], acts[g], r) && Unregisters(ss[u], acts[u], r)
    ensures Open(ss, acts, k, r) <==> g < k < u
  {
    if Open(ss, acts, k, r) {
      var h: nat :| OpenSince(ss, acts, h, k, r);
      if h < g {
        RegistersOnce(ss, acts, h, g, r);
      } else if g < h {
        RegistersOnce(ss, acts, g, h, r);
      }
    } else if g < k < u {
      ActiveHistory(ss, acts, k, r);
      StillOpen(ss, acts, r, g, u, k);
    }
  }

  /** Between the two steps of a request its pointer stays registered. */
  lemma {:induction false} StillOpen(ss: seq<State>, acts: seq<Action>, r: nat, g: nat, u: nat, k: nat)
    requires Run(ss, acts) && g < k <= u < |acts|
    requires Registers(ss[g], acts[g], r) && Unregisters(ss[u], acts[u], r)
    ensures ss[k].active == Some(r)
    decreases u - k
  {
    SocketSafe(ss, acts, k);
    if k < u {
      StillOpen(ss, acts, r, g, u, k + 1);
      ActiveStep(ss[k], acts[k], r);
      if Registers(ss[k], acts[k], r) {
        RegistersOnce(ss, acts, g, k, r);
      }
    }
  }

  // ----- the two flags

  /** No `interrupt()` or `reset_interrupt()` begins while another is under way. */
  ghost predicate OneAtATime(ss: seq<State>, acts: seq<Action>)
    requires Run(ss, acts)
  {
    forall j :: 0 <= j < |acts| && (acts[j].Interrupt? || acts[j].Reset?) ==> ss[j].ctls == map[]
  }

  ghost predicate FlagsInv(s: State) {
    && (forall t, u :: t in s.ctls && u in s.ctls ==> t == u)
    && (s.ctls == map[] ==> s.interrupted == s.cancelled)
    && (forall t :: t in s.ctls ==>
          match s.ctls[t]
          case CancelStore => s.interrupted
          case ResetStore => !s.interrupted
          case _ => s.interrupted && s.cancelled)
  }

  lemma FlagsStep(s: State, a: Action)
    requires FlagsInv(s) && Enabled(s, a)
    requires a.Interrupt? || a.Reset? ==> s.ctls == map[]
    ensures FlagsInv(Apply(s, a))
  {
    if a.Work? {
      hide Handle, TakeServer, AfterRefresh, SaysAborted;
      assert Apply(s, a).ctls == s.ctls;
    }
  }

  /**
   When controllers do not overlap: a set m_cancelled means a set m_interrupted or a reset under way,
   and the flags are equal whenever no controller is under way.
   */
  lemma {:induction false} FlagsAgree(ss: seq<State>, acts: seq<Action>, n: nat)
    requires Run(ss, acts) && OneAtATime(ss, acts) && n < |ss|
    ensures FlagsInv(ss[n])
    ensures ss[n].cancelled ==>
              ss[n].interrupted || exists t :: t in ss[n].ctls && ss[n].ctls[t].ResetStore?
    ensures ss[n].ctls == map[] ==> ss[n].interrupted == ss[n].cancelled
  {
    if n > 0 {
      FlagsAgree(ss, acts, n - 1);
      FlagsStep(ss[n - 1], acts[n - 1]);
    }
    if ss[n].ctls != map[] {
      var t :| t in ss[n].ctls;
    }
  }

  ghost predicate InterruptSince(acts: seq<Action>, k: nat, n: nat)
    requires n <= |acts|
  {
    k < n && acts[k].Interrupt? && forall j :: k < j < n ==> !acts[j].Reset?
  }

  /** Some `interrupt()` has stored to m_interrupted and no `reset_interrupt()` has since. */
  ghost predicate InterruptStands(acts: seq<Action>, n: nat)
    requires n <= |acts|
  {
    exists k: nat :: InterruptSince(acts, k, n)
  }

  lemma InterruptStandsStep(acts: seq<Action>, n: nat)
    requires 0 < n <= |acts|
    ensures InterruptStands(acts, n)
            <==> acts[n - 1].Interrupt? || (InterruptStands(acts, n - 1) && !acts[n - 1].Reset?)
  {
    if acts[n - 1].Interrupt? {
      assert InterruptSince(acts, n - 1, n);
    } else if InterruptStands(acts, n) {
      var k: nat :| InterruptSince(acts, k, n);
      assert InterruptSince(acts, k, n - 1);
    } else if InterruptStands(acts, n - 1) && !acts[n - 1].Reset? {
      var k: nat :| InterruptSince(acts, k, n - 1);
      assert InterruptSince(acts, k, n);
    }
  }

  /**
   Exactly when the flags agree, with overlapping controllers too: the last writers of the two flags
   are of the same kind.
   */
  lemma {:induction false} FlagsEqualIff(ss: seq<State>, acts: seq<Action>, n: nat)
    requires Run(ss, acts) && n < |ss|
    ensures ss[n].interrupted <==> InterruptStands(acts, n)
    ensures ss[n].interrupted == ss[n].cancelled <==> (InterruptStands(acts, n) <==> Stands(ss, acts, n))
  {
    FlagHistory(ss, acts, n);
    if n > 0 {
      hide Apply;
      FlagsEqualIff(ss, acts, n - 1);
      FlagStep(ss[n - 1], acts[n - 1]);
      InterruptStandsStep(acts, n);
    }
  }

  /** The worker looks at the end of request `r`, a GET: the re-check of the interrupt flag. */
  predicate Rechecks(s: State, a: Action, r: nat) {
    a.Work? && s.pc.Back? && s.pc.p.Poll? && s.started == r + 1
  }

  /**
   A GET that escaped goes out, and still its call ends aborted at the re-check exactly when a store of
   some `interrupt()` stands there, or the GET failed with the text of an abort.
   */
  lemma EscapedStillAborts(ss: seq<State>, acts: seq<Action>, r: nat, l: nat, k: nat, j: nat)
    requires Run(ss, acts) && l < j < |acts| && k < |acts|
    requires LoadsFlag(ss[l], acts[l], r) && ss[l].pc.p.Poll? && ReadsPointer(ss[k], acts[k])
    requires Escapes(ss, r, l, k) && Rechecks(ss[j], acts[j], r)
    ensures ss[l + 1].pc == Exec(Poll, r, Resolve)
    ensures ss[j + 1].pc == Finish(Aborted)
            <==> InterruptStands(acts, j) || (ss[j].pc.h.Failed? && SaysAborted(ss[j].pc.h.msg))
  {
    FlagsEqualIff(ss, acts, j);
    hide SaysAborted;
  }

  /**
   The schedule that breaks it: a reset runs whole between the two stores of an interrupt.  All
   controllers have returned, the reset last began, and yet every request is refused.
   */
  lemma OverlapBreaksFlags(s0: State) returns (ss: seq<State>, acts: seq<Action>)
    requires Init(s0)
    ensures Run(ss, acts) && ss[0] == s0
    ensures var s := ss[|acts|]; s.ctls == map[] && s.cancelled && !s.interrupted && s.pc == Outside
  {
    acts := [Interrupt(0), Reset(1), Control(1), Control(0), Control(0), Control(0), Control(0)];
    var s1 := Apply(s0, acts[0]);
    var s2 := Apply(s1, acts[1]);
    var s3 := Apply(s2, acts[2]);
    var s4 := Apply(s3, acts[3]);
    var s5 := Apply(s4, acts[4]);
    var s6 := Apply(s5, acts[5]);
    var s7 := Apply(s6, acts[6]);
    assert s3.ctls == map[0 := CancelStore];
    assert s7.ctls == map[];
    ss := [s0, s1, s2, s3, s4, s5, s6, s7];
  }
}
