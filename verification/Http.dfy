/**
 The HTTP client of src/HttpClient.cpp seen from one thread: the flag check, the registration of the
 socket, the guard that clears it, and the mapping of every failure to a network exception.  What the
 network does is an input.
 */
module Http {
  import opened ByteStrings
  import opened JsonValues

  /** How `execute` ends: a network exception with its text, or a body that may be a document. */
  datatype Reply = Failed(msg: Bytes) | Raw(doc: Option<Json>)

  datatype Request =
    | Get(host: Bytes, target: Bytes)
    | Post(host: Bytes, target: Bytes, body: Bytes)
    | PostMultipart(host: Bytes, target: Bytes, boundary: Bytes, body: Bytes)

  /** One exchange as the network plays it. */
  datatype Exchange =
    | NoAddress(msg: Bytes)
    | NoServerName(msg: Bytes)
    | Talk(cancelledMeanwhile: bool, reply: Reply)

  /** Text of `operation_aborted`. */
  const CANCELED: Bytes := "Operation canceled"
  const ABORTED_WORD: Bytes := "aborted"
  const CANCEL_WORD: Bytes := "cancel"

  /** The text test of `wait_for_event` on a network exception. */
  predicate SaysAborted(msg: Bytes) {
    FindFrom(msg, ABORTED_WORD, 0).Some? || FindFrom(msg, CANCEL_WORD, 0).Some?
  }

  /** The test looks for one of two words anywhere in the text. */
  lemma SaysAbortedMeaning(msg: Bytes)
    ensures SaysAborted(msg) <==> Occurs(msg, "aborted") || Occurs(msg, "cancel")
  {
    if FindFrom(msg, ABORTED_WORD, 0).Some? {
      assert OccursAt(msg, "aborted", FindFrom(msg, ABORTED_WORD, 0).value);
    } else if FindFrom(msg, CANCEL_WORD, 0).Some? {
      assert OccursAt(msg, "cancel", FindFrom(msg, CANCEL_WORD, 0).value);
    }
  }

  /** The exception of a refused request passes the text test, whatever text stands before. */
  lemma RefusalSaysAborted(prefix: Bytes)
    ensures SaysAborted(prefix + CANCELED)
  {
    assert OccursAt(CANCELED, CANCEL_WORD, 10) by {
      assert CANCELED[10..16] == CANCEL_WORD;
    }
    var s := prefix + CANCELED;
    assert s[|prefix| + 10..|prefix| + 16] == CANCELED[10..16];
    assert OccursAt(s, CANCEL_WORD, |prefix| + 10);
  }

  function ExchangeResult(x: Exchange): Reply {
    match x
    case NoAddress(msg) => Failed(msg)
    case NoServerName(msg) => Failed(msg)
    case Talk(_, reply) => reply
  }

  /** What the caller of `execute` gets, given m_cancelled at its start. */
  function ReplyTo(cancelled: bool, x: Exchange): Reply {
    if cancelled then Failed(CANCELED) else ExchangeResult(x)
  }

  /** m_cancelled after `execute`, if nobody resets it. */
  predicate CancelledAfter(cancelled: bool, x: Exchange) {
    cancelled || (x.Talk? && x.cancelledMeanwhile)
  }

  /** `execute` gives a body only if the network did, and throws what set-up or talk threw, or the refusal. */
  lemma ReplyToMeaning(cancelled: bool, x: Exchange, doc: Option<Json>, msg: Bytes)
    ensures ReplyTo(cancelled, x) == Raw(doc) <==> !cancelled && x.Talk? && x.reply == Raw(doc)
    ensures ReplyTo(cancelled, x) == Failed(msg)
            <==> if cancelled then msg == "Operation canceled"
                 else x in {NoAddress(msg), NoServerName(msg), Talk(true, Failed(msg)), Talk(false, Failed(msg))}
  {
  }

  class HttpClient {
    var cancelled: bool
    /** `m_active_socket`, with the request's number for the pointer. */
    var active: Option<nat>
    /** The stream that exists, if any. */
    ghost var live: Option<nat>
    /** Sockets on which `cancel` was called. */
    ghost var hits: seq<nat>
    var started: nat

    /** Between calls no stream exists and none is registered. */
    ghost predicate Idle()
      reads this
    {
      active == None && live == None
    }

    constructor ()
      ensures Idle() && !cancelled && started == 0 && hits == []
    {
      cancelled := false;
      active, live := None, None;
      hits := [];
      started := 0;
    }

    /** `cancel`: a registered socket is alive when it is used. */
    method Cancel()
      requires active.Some? ==> live == active
      modifies this`cancelled, this`hits
      ensures cancelled
      ensures hits == old(hits) + if active.Some? then [active.value] else []
    {
      cancelled := true;
      if active.Some? {
        assert live == active;
        hits := hits + [active.value];
      }
    }

    method ResetCancel()
      modifies this`cancelled
      ensures !cancelled
    {
      cancelled := false;
    }

    /**
     `execute`.  A set flag refuses the request before anything is opened.  The socket is registered
     from the end of the set-up until the guard runs, so a cancel that comes while the request talks
     hits exactly this request's socket; on every exit nothing is registered and no stream is left.
     */
    method Execute(x: Exchange) returns (r: Reply)
      requires Idle()
      modifies this
      ensures Idle() && started == old(started) + 1
      ensures r == ReplyTo(old(cancelled), x)
      ensures hits == old(hits)
                      + if !old(cancelled) && x.Talk? && x.cancelledMeanwhile then [old(started)] else []
      ensures cancelled == CancelledAfter(old(cancelled), x)
    {
      var id := started;
      started := started + 1;
      if cancelled {
        return Failed(CANCELED);
      }
      if x.NoAddress? {
        return Failed(x.msg);
      }
      live := Some(id);
      if x.NoServerName? {
        live := None;
        return Failed(x.msg);
      }
      active := Some(id);
      if x.cancelledMeanwhile {
        Cancel();
      }
      r := x.reply;
      active := None;
      live := None;
    }
  }
}
