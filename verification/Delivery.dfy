/**
 Which events of the server's log reach the caller.  The server is an append-only log of updates and
 `at` reads a ts as a position in it; the log below is the one at the end of the run, so that every
 earlier answer shows a piece of it.
 */
module Delivery {
  import opened ByteStrings
  import opened Http
  import opened JsonValues
  import opened LongPoll

  /** A reading of ts values as log positions, and the log. */
  datatype Server = Server(at: Bytes -> nat, log: seq<Json>)

  /**
   A poll answer about position `at(ts)`: with a ts it shows exactly the log up to the new position,
   and only an answer without updates may leave ts out.
   */
  predicate HonestAnswer(sv: Server, ts: Bytes, doc: Json) {
    && (Updates(doc) != [] ==> Contains(doc, TS_FIELD))
    && (StrAt(doc, TS_FIELD).Some? ==>
          var to := sv.at(StrAt(doc, TS_FIELD).value);
          sv.at(ts) <= to <= |sv.log| && Updates(doc) == sv.log[sv.at(ts)..to])
  }

  /** A getLongPollServer answer never goes back. */
  predicate HonestServer(sv: Server, ts: Bytes, h: Reply) {
    Depth(h) == 3 ==> sv.at(ts) <= sv.at(Text(h, TS_FIELD)) <= |sv.log|
  }

  /** The poll answer that a pass looks into, past the flag checks and the "failed" codes. */
  function Answer(r: Round): Option<Json> {
    if r.top || r.recheck || r.got.Failed? || r.got.doc.None? || Contains(r.got.doc.value, FAILED) then None
    else r.got.doc
  }

  predicate HonestInput(sv: Server, ts: Bytes, i: Input) {
    match i
    case ServerReply(h) => HonestServer(sv, ts, h)
    case PollPass(r) =>
      && (Refreshes(r) ==> HonestServer(sv, ts, r.refresh))
      && (Answer(r).Some? ==> HonestAnswer(sv, ts, Answer(r).value))
  }

  predicate HonestRun(sv: Server, s: Session, inputs: seq<Input>) {
    if inputs == [] then sv.at(s.ts) <= |sv.log|
    else
      var front := inputs[..|inputs| - 1];
      HonestRun(sv, s, front) && HonestInput(sv, SessionAfter(s, front).ts, inputs[|inputs| - 1])
  }

  // ----- what an input does to the position

  /** Why the position moved, if it did. */
  datatype Cause = Head | BadHead | Skip | Still

  /** The stretch `lo..hi` of the log that an input passes. */
  datatype Move = Move(lo: nat, hi: nat, cause: Cause)

  function CauseOf(s: Session, i: Input): Cause {
    match i
    case ServerReply(h) => if Depth(h) == 3 then Skip else Still
    case PollPass(r) =>
      if EventOf(s, i).Some? then Head
      else if Refreshes(r) then (if Depth(r.refresh) == 3 then Skip else Still)
      else if Answer(r).Some? && Updates(Answer(r).value) != [] then BadHead
      else Still
  }

  function MoveOf(sv: Server, s: Session, i: Input): Move {
    Move(sv.at(s.ts), sv.at(Step(s, i).ts), CauseOf(s, i))
  }

  function Moves(sv: Server, s: Session, inputs: seq<Input>): (ms: seq<Move>)
    ensures |ms| == |inputs|
  {
    if inputs == [] then []
    else
      var front := inputs[..|inputs| - 1];
      Moves(sv, s, front) + [MoveOf(sv, SessionAfter(s, front), inputs[|inputs| - 1])]
  }

  /** What the caller gets, in order. */
  function Events(s: Session, inputs: seq<Input>): seq<Event> {
    if inputs == [] then []
    else
      var front := inputs[..|inputs| - 1];
      Events(s, front) + match EventOf(SessionAfter(s, front), inputs[|inputs| - 1])
                         case None => []
                         case Some(event) => [event]
  }

  /** Log positions of the delivered heads. */
  function Heads(ms: seq<Move>): seq<nat> {
    if ms == [] then []
    else
      var m := ms[|ms| - 1];
      Heads(ms[..|ms| - 1]) + if m.cause == Head then [m.lo] else []
  }

  /** Total length of the moves with cause `c`. */
  function Length(ms: seq<Move>, c: Cause): int {
    if ms == [] then 0
    else
      var m := ms[|ms| - 1];
      Length(ms[..|ms| - 1], c) + if m.cause == c then m.hi - m.lo else 0
  }

  // ----- one input

  /** The event is the log entry under the name of the entry's type. */
  predicate Shows(event: Event, entry: Json) {
    event.update == entry && StrAt(entry, "type") == Some(event.kind)
  }

  /** What an honest input can do: a head is the update at the old position and moves past it. */
  ghost predicate FairMove(sv: Server, s: Session, i: Input, m: Move) {
    && m == MoveOf(sv, s, i)
    && m.lo <= m.hi <= |sv.log|
    && (m.cause == Head <==> EventOf(s, i).Some?)
    && (m.cause == Head ==> m.lo < m.hi && Shows(EventOf(s, i).value, sv.log[m.lo]))
    && (m.cause == Still ==> m.lo == m.hi)
  }

  lemma HandleAnswer(s: Session, r: Round)
    requires Answer(r).Some?
    ensures var doc := Answer(r).value;
            && !Refreshes(r)
            && OnePass(s, r).s.ts == StrAt(doc, TS_FIELD).GetOr(s.ts)
            && (EventOf(s, PollPass(r)).Some? ==>
                  Updates(doc) != [] && Shows(EventOf(s, PollPass(r)).value, Updates(doc)[0])
                  && (Contains(doc, TS_FIELD) ==> StrAt(doc, TS_FIELD).Some?))
  {
  }

  lemma NoAnswer(s: Session, r: Round)
    requires Answer(r).None?
    ensures EventOf(s, PollPass(r)).None?
    ensures OnePass(s, r).s == if Refreshes(r) then TakeServer(s, r.refresh).0 else s
  {
    RefreshesEffect(s, r);
  }

  lemma OneFairMove(sv: Server, s: Session, i: Input)
    requires sv.at(s.ts) <= |sv.log| && HonestInput(sv, s.ts, i)
    ensures FairMove(sv, s, i, MoveOf(sv, s, i))
  {
    hide Depth, Text, TakeServer, OnePass, EventOf, Refreshes, StrAt, Updates, Contains;
    match i
    case ServerReply(h) =>
      TakeServerEffect(s, h);
      assert EventOf(s, i).None? by { ServerReplyQuiet(s, h); }
    case PollPass(r) =>
      if Answer(r).Some? {
        HandleAnswer(s, r);
      } else {
        NoAnswer(s, r);
        TakeServerEffect(s, r.refresh);
      }
  }

  lemma ServerReplyQuiet(s: Session, h: Reply)
    ensures EventOf(s, ServerReply(h)).None?
  {
  }

  // ----- lists of moves

  ghost predicate Sane(m: Move) {
    && m.lo <= m.hi
    && (m.cause == Head ==> m.lo < m.hi)
    && (m.cause == Still ==> m.lo == m.hi)
  }

  /** The moves follow each other without a gap from `start` to `end`. */
  ghost predicate Tiled(ms: seq<Move>, start: nat, end: nat) {
    if ms == [] then start == end
    else
      var m := ms[|ms| - 1];
      Sane(m) && m.hi == end && Tiled(ms[..|ms| - 1], start, m.lo)
  }

  predicate Increasing(ps: seq<nat>) {
    forall i, j :: 0 <= i < j < |ps| ==> ps[i] < ps[j]
  }

  lemma {:induction false} HeadsInOrder(ms: seq<Move>, start: nat, end: nat)
    requires Tiled(ms, start, end)
    ensures start <= end && Increasing(Heads(ms))
    ensures forall p :: p in Heads(ms) ==> start <= p < end
  {
    if ms != [] {
      var front, m := ms[..|ms| - 1], ms[|ms| - 1];
      HeadsInOrder(front, start, m.lo);
      assert forall i :: 0 <= i < |Heads(front)| ==> Heads(front)[i] in Heads(front);
    }
  }

  /** Positions passed beyond the heads: the rest of each delivered batch. */
  function Tails(ms: seq<Move>): int {
    if ms == [] then 0
    else
      var m := ms[|ms| - 1];
      Tails(ms[..|ms| - 1]) + if m.cause == Head then m.hi - m.lo - 1 else 0
  }

  lemma {:induction false} MovesAddUp(ms: seq<Move>, start: nat, end: nat)
    requires Tiled(ms, start, end)
    ensures end - start == |Heads(ms)| + Tails(ms) + Length(ms, BadHead) + Length(ms, Skip)
    ensures Tails(ms) >= 0 && Length(ms, BadHead) >= 0 && Length(ms, Skip) >= 0
  {
    if ms != [] {
      MovesAddUp(ms[..|ms| - 1], start, ms[|ms| - 1].lo);
    }
  }

  /** A move passes exactly what it delivers. */
  predicate Exact(m: Move) {
    m.hi - m.lo == if m.cause == Head then 1 else 0
  }

  ghost predicate Covered(ms: seq<Move>, start: nat, end: nat) {
    forall p :: start <= p < end ==> p in Heads(ms)
  }

  /** The last move keeps a cover exactly when it is exact. */
  lemma CoverSnoc(ms: seq<Move>, start: nat, end: nat)
    requires ms != [] && Tiled(ms, start, end)
    ensures Covered(ms, start, end)
            <==> Covered(ms[..|ms| - 1], start, ms[|ms| - 1].lo) && Exact(ms[|ms| - 1])
  {
    var front, m := ms[..|ms| - 1], ms[|ms| - 1];
    HeadsInOrder(front, start, m.lo);
    assert forall p :: p in Heads(ms) <==> p in Heads(front) || (m.cause == Head && p == m.lo);
    if Covered(ms, start, end) {
      assert m.lo < end ==> m.lo in Heads(ms);
      assert m.lo + 1 < end ==> m.lo + 1 in Heads(ms);
      forall p | start <= p < m.lo ensures p in Heads(front) {
        assert p in Heads(ms);
      }
    }
  }

  /** Every position is a delivered head exactly when every move is exact. */
  lemma {:induction false} CoveredIffExact(ms: seq<Move>, start: nat, end: nat)
    requires Tiled(ms, start, end)
    ensures Covered(ms, start, end) <==> forall m :: m in ms ==> Exact(m)
  {
    if ms != [] {
      var front, m := ms[..|ms| - 1], ms[|ms| - 1];
      CoverSnoc(ms, start, end);
      CoveredIffExact(front, start, m.lo);
      assert forall x :: x in ms <==> x in front || x == m;
    }
  }

  // ----- whole runs

  lemma {:induction false} RunTiled(sv: Server, s: Session, inputs: seq<Input>)
    requires HonestRun(sv, s, inputs)
    ensures sv.at(SessionAfter(s, inputs).ts) <= |sv.log|
    ensures Tiled(Moves(sv, s, inputs), sv.at(s.ts), sv.at(SessionAfter(s, inputs).ts))
  {
    hide Step, MoveOf, EventOf, HonestInput;
    if inputs != [] {
      var front, last := inputs[..|inputs| - 1], inputs[|inputs| - 1];
      RunTiled(sv, s, front);
      var mid := SessionAfter(s, front);
      OneFairMove(sv, mid, last);
      MoveEnds(sv, mid, last);
      MovesSnoc(sv, s, inputs);
    }
  }

  lemma MovesSnoc(sv: Server, s: Session, inputs: seq<Input>)
    requires inputs != []
    ensures var ms, front := Moves(sv, s, inputs), inputs[..|inputs| - 1];
            && ms[..|ms| - 1] == Moves(sv, s, front)
            && ms[|ms| - 1] == MoveOf(sv, SessionAfter(s, front), inputs[|inputs| - 1])
  {
    hide MoveOf, SessionAfter;
  }

  /** `es` are the log entries at the positions `ps`, each under the name of its type. */
  predicate AtPositions(log: seq<Json>, es: seq<Event>, ps: seq<nat>) {
    |es| == |ps| && forall i :: 0 <= i < |es| ==> ps[i] < |log| && Shows(es[i], log[ps[i]])
  }

  lemma {:induction false} RunEvents(sv: Server, s: Session, inputs: seq<Input>)
    requires HonestRun(sv, s, inputs)
    ensures AtPositions(sv.log, Events(s, inputs), Heads(Moves(sv, s, inputs)))
  {
    hide Step, MoveOf, EventOf, HonestInput, SessionAfter, Moves;
    if inputs == [] {
      assert Moves(sv, s, inputs) == [];
    } else {
      var front, last := inputs[..|inputs| - 1], inputs[|inputs| - 1];
      RunEvents(sv, s, front);
      RunTiled(sv, s, front);
      OneFairMove(sv, SessionAfter(s, front), last);
      MovesSnoc(sv, s, inputs);
    }
  }

  lemma MoveEnds(sv: Server, s: Session, i: Input)
    ensures MoveOf(sv, s, i).lo == sv.at(s.ts) && MoveOf(sv, s, i).hi == sv.at(Step(s, i).ts)
  {
  }

  /**
   At most once and in order: the events returned over any honest run are the log entries at strictly
   increasing positions, each under the name of its type, between the first and the last ts, whatever
   errors, "failed" codes and refreshes come in between.
   */
  lemma DeliveredInOrder(sv: Server, s: Session, inputs: seq<Input>)
    requires HonestRun(sv, s, inputs)
    ensures var ps := Heads(Moves(sv, s, inputs));
            && Increasing(ps)
            && AtPositions(sv.log, Events(s, inputs), ps)
            && (forall i :: 0 <= i < |ps| ==>
                  sv.at(s.ts) <= ps[i] < sv.at(SessionAfter(s, inputs).ts) <= |sv.log|)
  {
    hide Moves, Events, Heads, SessionAfter, HonestRun;
    RunTiled(sv, s, inputs);
    RunEvents(sv, s, inputs);
    HeadsInOrder(Moves(sv, s, inputs), sv.at(s.ts), sv.at(SessionAfter(s, inputs).ts));
    var ps := Heads(Moves(sv, s, inputs));
    assert forall i :: 0 <= i < |ps| ==> ps[i] in ps;
  }

  /**
   Exact accounting: the distance ts has moved is the number of delivered events, plus the tails of
   their batches, plus the batches whose head could not be read, plus what refreshes jumped over.
   */
  lemma LossAccounting(sv: Server, s: Session, inputs: seq<Input>)
    requires HonestRun(sv, s, inputs)
    ensures var ms := Moves(sv, s, inputs);
            && sv.at(SessionAfter(s, inputs).ts) - sv.at(s.ts)
               == |Events(s, inputs)| + Tails(ms) + Length(ms, BadHead) + Length(ms, Skip)
            && Tails(ms) >= 0 && Length(ms, BadHead) >= 0 && Length(ms, Skip) >= 0
  {
    hide Moves, Events, Heads, SessionAfter, HonestRun, Tails, Length;
    RunTiled(sv, s, inputs);
    RunEvents(sv, s, inputs);
    MovesAddUp(Moves(sv, s, inputs), sv.at(s.ts), sv.at(SessionAfter(s, inputs).ts));
  }

  /**
   What a lossless run needs of one input: a ts taken from getLongPollServer stands where the session
   already was, and a batch that moves ts is a single readable update.
   */
  predicate Lossless(sv: Server, ts: Bytes, i: Input) {
    match i
    case ServerReply(h) => Depth(h) == 3 ==> sv.at(Text(h, TS_FIELD)) == sv.at(ts)
    case PollPass(r) =>
      && (Refreshes(r) && Depth(r.refresh) == 3 ==> sv.at(Text(r.refresh, TS_FIELD)) == sv.at(ts))
      && (Answer(r).Some? && StrAt(Answer(r).value, TS_FIELD).Some? && Updates(Answer(r).value) != [] ==>
            |Updates(Answer(r).value)| == 1 && StrAt(Updates(Answer(r).value)[0], TYPE).Some?)
  }

  lemma AnswerDelivers(s: Session, r: Round)
    requires Answer(r).Some?
    ensures var doc := Answer(r).value;
            EventOf(s, PollPass(r)).Some? <==>
            && (Contains(doc, TS_FIELD) ==> StrAt(doc, TS_FIELD).Some?)
            && Updates(doc) != [] && StrAt(Updates(doc)[0], TYPE).Some?
  {
  }

  lemma LosslessIffExact(sv: Server, s: Session, i: Input)
    requires sv.at(s.ts) <= |sv.log| && HonestInput(sv, s.ts, i)
    ensures Lossless(sv, s.ts, i) <==> Exact(MoveOf(sv, s, i))
  {
    hide Depth, Text, TakeServer, OnePass, EventOf, Refreshes, StrAt, Updates, Contains;
    OneFairMove(sv, s, i);
    match i
    case ServerReply(h) =>
      TakeServerEffect(s, h);
      ServerReplyQuiet(s, h);
    case PollPass(r) =>
      if Answer(r).Some? {
        HandleAnswer(s, r);
        AnswerDelivers(s, r);
      } else {
        NoAnswer(s, r);
        TakeServerEffect(s, r.refresh);
      }
  }

  predicate LosslessRun(sv: Server, s: Session, inputs: seq<Input>) {
    if inputs == [] then true
    else
      var front := inputs[..|inputs| - 1];
      LosslessRun(sv, s, front) && Lossless(sv, SessionAfter(s, front).ts, inputs[|inputs| - 1])
  }

  lemma {:induction false} LosslessRunExact(sv: Server, s: Session, inputs: seq<Input>)
    requires HonestRun(sv, s, inputs)
    ensures LosslessRun(sv, s, inputs) <==> forall m :: m in Moves(sv, s, inputs) ==> Exact(m)
  {
    hide Step, MoveOf, HonestInput, Lossless, Exact;
    if inputs != [] {
      var front, last := inputs[..|inputs| - 1], inputs[|inputs| - 1];
      LosslessRunExact(sv, s, front);
      RunTiled(sv, s, front);
      LosslessIffExact(sv, SessionAfter(s, front), last);
      var ms := Moves(sv, s, inputs);
      assert forall m :: m in ms <==> m in Moves(sv, s, front) || m == MoveOf(sv, SessionAfter(s, front), last);
    }
  }

  /**
   No event is lost exactly when every batch that moved ts was one readable update and every ts from
   getLongPollServer stood at the position already reached.
   */
  lemma NothingLostIff(sv: Server, s: Session, inputs: seq<Input>)
    requires HonestRun(sv, s, inputs)
    ensures Covered(Moves(sv, s, inputs), sv.at(s.ts), sv.at(SessionAfter(s, inputs).ts))
            <==> LosslessRun(sv, s, inputs)
  {
    hide Moves, Heads, SessionAfter, HonestRun, LosslessRun, Exact;
    RunTiled(sv, s, inputs);
    CoveredIffExact(Moves(sv, s, inputs), sv.at(s.ts), sv.at(SessionAfter(s, inputs).ts));
    LosslessRunExact(sv, s, inputs);
  }

  /** Without a ts in the answer the session stays, so the same answer delivers the same event again. */
  lemma MissingTsRepeats(s: Session, r: Round)
    requires EventOf(s, PollPass(r)).Some?
    ensures Answer(r).Some?
    ensures !Contains(Answer(r).value, TS_FIELD) ==>
              Events(s, [PollPass(r), PollPass(r)]) == [EventOf(s, PollPass(r)).value, EventOf(s, PollPass(r)).value]
  {
    var i := PollPass(r);
    assert [i, i][..1] == [i] && [i][..0] == [];
    if !Contains(Answer(r).value, TS_FIELD) {
      assert Step(s, i) == s;
      assert SessionAfter(s, [i]) == s;
      assert Events(s, [i]) == [EventOf(s, i).value];
    }
  }
}
