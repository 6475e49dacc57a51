/**
 Where the parts of a session come from.  The getLongPollServer replies of a run are numbered from 1;
 the generation of a field is the number of the last reply that assigned it.
 */
module Generations {
  import opened ByteStrings
  import opened Http
  import opened JsonValues
  import opened LongPoll

  /** The getLongPollServer reply an input takes, if any. */
  function AttemptOf(i: Input): seq<Reply> {
    match i
    case ServerReply(h) => [h]
    case PollPass(r) => if Refreshes(r) then [r.refresh] else []
  }

  function Attempts(inputs: seq<Input>): seq<Reply> {
    if inputs == [] then []
    else Attempts(inputs[..|inputs| - 1]) + AttemptOf(inputs[|inputs| - 1])
  }

  /** Number of the last reply that assigned at least `depth` fields; 0 if there is none. */
  function Generation(hs: seq<Reply>, depth: nat): (g: nat)
    ensures g <= |hs|
    ensures g > 0 ==> Depth(hs[g - 1]) >= depth
    ensures forall i :: g <= i < |hs| ==> Depth(hs[i]) < depth
  {
    if hs == [] then 0
    else if Depth(hs[|hs| - 1]) >= depth then |hs|
    else Generation(hs[..|hs| - 1], depth)
  }

  lemma GenerationSnoc(hs: seq<Reply>, h: Reply, depth: nat)
    ensures Generation(hs + [h], depth) == if Depth(h) >= depth then |hs| + 1 else Generation(hs, depth)
  {
    assert (hs + [h])[..|hs|] == hs;
  }

  /** The key is never older than the server, nor the server than the base of ts. */
  lemma {:induction false} GenerationOrder(hs: seq<Reply>)
    ensures Generation(hs, 1) >= Generation(hs, 2) >= Generation(hs, 3)
  {
    if hs != [] {
      GenerationOrder(hs[..|hs| - 1]);
    }
  }

  /** All three generations agree exactly when the last reply that gave a key was complete. */
  lemma GenerationsAgree(hs: seq<Reply>)
    ensures Generation(hs, 1) == Generation(hs, 3)
            <==> Generation(hs, 1) == 0 || Depth(hs[Generation(hs, 1) - 1]) == 3
    ensures (forall i :: 0 <= i < |hs| ==> WellFormed(hs[i])) ==> Generation(hs, 1) == Generation(hs, 3)
  {
    hide Depth, Generation;
    GenerationOrder(hs);
    var g := Generation(hs, 1);
    if g > 0 {
      assert Depth(hs[g - 1]) == 3 ==> Generation(hs, 3) > g - 1;
      assert WellFormed(hs[g - 1]) ==> Depth(hs[g - 1]) == 3;
    }
  }

  /** The ts that a poll reply moves the session to. */
  function MovedTo(i: Input): Option<Bytes> {
    match i
    case ServerReply(_) => None
    case PollPass(r) =>
      if r.top || r.recheck || r.got.Failed? || r.got.doc.None? || Contains(r.got.doc.value, FAILED) then None
      else StrAt(r.got.doc.value, TS_FIELD)
  }

  /** The last ts a poll reply carried since the base of ts was assigned. */
  function PolledTs(inputs: seq<Input>): Option<Bytes> {
    if inputs == [] then None
    else
      var last := inputs[|inputs| - 1];
      if MovedTo(last).Some? then MovedTo(last)
      else if AttemptOf(last) != [] && Depth(AttemptOf(last)[0]) == 3 then None
      else PolledTs(inputs[..|inputs| - 1])
  }

  function Field(hs: seq<Reply>, depth: nat, field: Bytes, initial: Bytes): Bytes {
    var g := Generation(hs, depth);
    if g == 0 then initial else Text(hs[g - 1], field)
  }

  lemma FieldSnoc(hs: seq<Reply>, h: Reply, depth: nat, field: Bytes, initial: Bytes)
    ensures Field(hs + [h], depth, field, initial)
            == if Depth(h) >= depth then Text(h, field) else Field(hs, depth, field, initial)
  {
    GenerationSnoc(hs, h, depth);
  }

  lemma StepEffect(s: Session, i: Input)
    ensures AttemptOf(i) == [] ==>
              Step(s, i) == s.(ts := MovedTo(i).GetOr(s.ts))
    ensures AttemptOf(i) != [] ==>
              MovedTo(i).None? && |AttemptOf(i)| == 1 && Step(s, i) == TakeServer(s, AttemptOf(i)[0]).0
  {
    if i.PollPass? {
      RefreshesEffect(s, i.r);
    }
  }

  /** `s` is made of the right parts after `inputs`. */
  predicate Origin(s0: Session, inputs: seq<Input>, s: Session) {
    var hs := Attempts(inputs);
    && s.key == Field(hs, 1, KEY_FIELD, s0.key)
    && s.server == Field(hs, 2, SERVER_FIELD, s0.server)
    && s.ts == PolledTs(inputs).GetOr(Field(hs, 3, TS_FIELD, s0.ts))
  }

  lemma OriginStart(s0: Session)
    ensures Origin(s0, [], s0)
  {
  }

  lemma OriginStep(s0: Session, front: seq<Input>, s: Session, last: Input)
    requires Origin(s0, front, s)
    ensures Origin(s0, front + [last], Step(s, last))
  {
    hide Step, TakeServer, Depth, Text, MovedTo, AttemptOf;
    var inputs := front + [last];
    assert inputs[..|inputs| - 1] == front;
    StepEffect(s, last);
    if AttemptOf(last) == [] {
      assert Attempts(inputs) == Attempts(front);
    } else {
      var h := AttemptOf(last)[0];
      assert Attempts(inputs) == Attempts(front) + [h];
      TakeServerEffect(s, h);
      FieldSnoc(Attempts(front), h, 1, KEY_FIELD, s0.key);
      FieldSnoc(Attempts(front), h, 2, SERVER_FIELD, s0.server);
      FieldSnoc(Attempts(front), h, 3, TS_FIELD, s0.ts);
    }
  }

  /**
   After any run, also with replies that throw between two assignments: the key and the server are
   those of their generation, and ts is that of its generation or one a later poll reply carried.
   */
  lemma {:induction false} SessionOrigin(s0: Session, inputs: seq<Input>)
    ensures Origin(s0, inputs, SessionAfter(s0, inputs))
    ensures Generation(Attempts(inputs), 1) >= Generation(Attempts(inputs), 2) >= Generation(Attempts(inputs), 3)
  {
    hide Step, Origin, Attempts, Generation;
    GenerationOrder(Attempts(inputs));
    if inputs == [] {
      OriginStart(s0);
    } else {
      var front, last := inputs[..|inputs| - 1], inputs[|inputs| - 1];
      SessionOrigin(s0, front);
      OriginStep(s0, front, SessionAfter(s0, front), last);
      assert inputs == front + [last];
    }
  }
}
