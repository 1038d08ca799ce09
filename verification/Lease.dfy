/** The worker's view of one lease, as a value: renewal, cancellation and the log it forms. */
module LeaseSpec {
  import opened Common

  const RENEWAL_DEADLINE: Time := 40.0

  /**
   `cancelledAt` is the instant the cancel event was set. `formed` lists every log chunk ever formed; the first
   `sequence` of them are acknowledged, and the last one is `pending` until it is.
   */
  datatype LeaseState = LeaseState(lastOk: Time, cancelledAt: Option<Time>, sequence: nat,
                                   pending: Option<string>, formed: seq<string>)

  function Opened(requestedAt: Time): LeaseState {
    LeaseState(requestedAt, None, 0, None, [])
  }

  function Cancelled(s: LeaseState, now: Time): LeaseState {
    if s.cancelledAt.Some? then s else s.(cancelledAt := Some(now))
  }

  /** A heartbeat that was started at `started` succeeded. */
  function Renewed(s: LeaseState, started: Time, cancel: bool, now: Time): LeaseState {
    var renewed := s.(lastOk := started);
    if cancel then Cancelled(renewed, now) else renewed
  }

  function DeadlineChecked(s: LeaseState, now: Time): LeaseState {
    if now - s.lastOk >= RENEWAL_DEADLINE then Cancelled(s, now) else s
  }

  function Formed(s: LeaseState, chunk: string): LeaseState {
    s.(pending := Some(chunk), formed := s.formed + [chunk])
  }

  function Delivered(s: LeaseState): LeaseState {
    s.(sequence := s.sequence + 1, pending := None)
  }

  /** Stop and wait: exactly the unacknowledged chunk is pending. */
  ghost predicate StopAndWait(s: LeaseState) {
    && |s.formed| == s.sequence + (if s.pending.Some? then 1 else 0)
    && (s.pending.Some? ==> s.pending.value == s.formed[s.sequence])
  }
}

/** `macqueue/worker.py`, class `Lease`: the fields the lease thread, the watchdog and the runner share. */
module Lease {
  import opened Common
  import opened LeaseSpec

  const EVENT_LIMIT: nat := 60000
  const QUEUE_SIZE: nat := 256
  const CHUNK_ENOUGH: nat := 4096
  const CHUNK_LIMIT: nat := 65536

  datatype Reason = NoReason | ServerCancelled | LeaseLost | RenewalUnavailable | LocalStop

  function LargeRecord(at: string): string {
    "{\"at\":" + at + ",\"event\":\"large_record\",\"detail\":\"see artifact for full record\"}"
  }

  lemma {:induction false} Utf8Bound(s: string)
    ensures |s| <= Utf8(s) <= 4 * |s|
  {
    if s != "" {
      Utf8Bound(s[..|s| - 1]);
    }
  }

  /** What a heartbeat came to: a reply, a refusal below status 500, or no usable answer. */
  datatype HeartbeatAnswer = Renewal(cancel: bool) | Refused | NoAnswer

  class Lease {
    var lastOk: Time
    var cancel: bool
    var reason: Reason
    var events: seq<string>
    var pending: Option<string>
    var sequence: nat
    var nextHeartbeat: Time

    ghost var cancelledAt: Option<Time>
    /** Every event line the bounded queue took, and every chunk formed from them. */
    ghost var accepted: seq<string>
    ghost var formed: seq<string>

    ghost function State(): LeaseState
      reads this
    {
      LeaseState(lastOk, cancelledAt, sequence, pending, formed)
    }

    ghost predicate Valid()
      reads this
    {
      && (cancel <==> cancelledAt.Some?)
      && |events| <= QUEUE_SIZE
      && (forall i :: 0 <= i < |events| ==> 0 < Utf8(events[i]) <= EVENT_LIMIT + 1)
      && StopAndWait(State())
      && (forall i :: 0 <= i < |formed| ==> 0 < Utf8(formed[i]) < CHUNK_LIMIT)
      // Nothing is lost, repeated or reordered between the queue and the chunks.
      && Flatten(formed) + Flatten(events) == Flatten(accepted)
    }

    constructor (requestedAt: Time)
      ensures Valid() && State() == Opened(requestedAt) && events == [] && accepted == []
      ensures lastOk == requestedAt && !cancel && pending.None? && sequence == 0 && nextHeartbeat == 0.0
    {
      lastOk, cancel, reason, cancelledAt := requestedAt, false, NoReason, None;
      events, pending, sequence, nextHeartbeat := [], None, 0, 0.0;
      accepted, formed := [], [];
    }

    method Cancel(why: Reason, now: Time)
      requires Valid()
      modifies this`cancel, this`reason, this`cancelledAt
      ensures Valid() && State() == Cancelled(old(State()), now) && reason == why
    {
      reason := why;
      if !cancel {
        cancelledAt := Some(now);
      }
      cancel := true;
    }

    /** Queue one encoded event line; an oversized record is replaced, and a full queue drops the line. */
    method Event(encoded: string, at: string)
      requires Valid() && Utf8(at) <= 32
      modifies this`events, this`accepted
      ensures Valid() && State() == old(State())
      ensures |old(events)| == 256 ==> events == old(events) && accepted == old(accepted)
      ensures |old(events)| < 256 ==>
                var line := if Utf8(encoded) <= 60000 then encoded
                            else "{\"at\":" + at
                                 + ",\"event\":\"large_record\",\"detail\":\"see artifact for full record\"}";
                events == old(events) + [line + "\n"] && accepted == old(accepted) + [line + "\n"]
    {
      var line := encoded;
      if Utf8(line) > EVENT_LIMIT {
        line := LargeRecord(at);
        LargeRecordIsSmall(at);
      }
      if |events| < QUEUE_SIZE {
        NewlineAdds(line);
        AppendAccepted(formed, events, accepted, line + "\n");
        events := events + [line + "\n"];
        accepted := accepted + [line + "\n"];
      }
    }

    static lemma LargeRecordIsSmall(at: string)
      requires Utf8(at) <= 32
      ensures Utf8(LargeRecord(at)) <= EVENT_LIMIT
    {
      Utf8Bound(at);
      Utf8Bound(LargeRecord(at));
    }

    static lemma NewlineAdds(line: string)
      ensures Utf8(line + "\n") == Utf8(line) + 1
    {
      assert (line + "\n")[..|line|] == line;
    }

    /** `taken` are the queued lines one chunk is formed from: the shortest prefix of 4096 bytes, or all of them. */
    static ghost predicate IsChunk(queued: seq<string>, taken: seq<string>) {
      && taken <= queued
      && Utf8(Flatten(taken)) < 65536
      && (taken == [] <==> queued == [])
      && (taken != [] ==> Utf8(Flatten(taken)) > 0 && Utf8(Flatten(taken[..|taken| - 1])) < 4096)
      && (taken != queued ==> Utf8(Flatten(taken)) >= 4096)
    }

    /**
     Take lines until 4096 bytes are reached. The branch that puts a line back, at the wrong end of the queue,
     is dead: fewer than 4096 bytes and one line of at most 60001 always fit the limit.
     */
    method TakeLines() returns (chunks: seq<string>)
      requires forall i :: 0 <= i < |events| ==> 0 < Utf8(events[i]) <= EVENT_LIMIT + 1
      modifies this`events
      ensures IsChunk(old(events), chunks) && events == old(events)[|chunks|..]
    {
      chunks := [];
      var size := 0;
      while size < CHUNK_ENOUGH
        invariant chunks <= old(events) && events == old(events)[|chunks|..]
        invariant size == Utf8(Flatten(chunks)) < CHUNK_LIMIT
        invariant chunks != [] ==> size > 0 && Utf8(Flatten(chunks[..|chunks| - 1])) < CHUNK_ENOUGH
        decreases |events|
      {
        if events == [] {
          break;
        }
        var item := events[0];
        assert item == old(events)[|chunks|];
        if size != 0 && size + Utf8(item) > CHUNK_LIMIT {
          assert false;
        }
        FlattenSnoc(chunks, item);
        Utf8Concat(Flatten(chunks), item);
        assert (chunks + [item])[..|chunks|] == chunks;
        events := events[1..];
        chunks := chunks + [item];
        size := size + Utf8(item);
      }
    }

    static lemma SplitAccepted(formed: seq<string>, queued: seq<string>, taken: seq<string>, rest: seq<string>)
      requires queued == taken + rest
      ensures Flatten(formed + [Flatten(taken)]) + Flatten(rest) == Flatten(formed) + Flatten(queued)
    {
      var a, b, c := Flatten(formed), Flatten(taken), Flatten(rest);
      FlattenConcat(taken, rest);
      FlattenSnoc(formed, b);
      ConcatAssociative(a, b, c);
    }

    static lemma AppendAccepted(formed: seq<string>, queued: seq<string>, accepted: seq<string>, line: string)
      requires Flatten(formed) + Flatten(queued) == Flatten(accepted)
      ensures Flatten(formed) + Flatten(queued + [line]) == Flatten(accepted + [line])
    {
      var a, b := Flatten(formed), Flatten(queued);
      FlattenSnoc(queued, line);
      FlattenSnoc(accepted, line);
      ConcatAssociative(a, b, line);
    }

    method SetPending(text: string, ghost queued: seq<string>, ghost taken: seq<string>)
      requires pending.None? && StopAndWait(State()) && (cancel <==> cancelledAt.Some?) && |events| <= QUEUE_SIZE
      requires forall i :: 0 <= i < |events| ==> 0 < Utf8(events[i]) <= EVENT_LIMIT + 1
      requires forall i :: 0 <= i < |formed| ==> 0 < Utf8(formed[i]) < CHUNK_LIMIT
      requires text == Flatten(taken) && 0 < Utf8(text) < CHUNK_LIMIT
      requires queued == taken + events && Flatten(formed) + Flatten(queued) == Flatten(accepted)
      modifies this`pending, this`formed
      ensures Valid() && State() == Formed(old(State()), text)
    {
      SplitAccepted(formed, queued, taken, events);
      pending := Some(text);
      formed := formed + [text];
    }

    /** The forming part of the loop: the next chunk becomes pending, the other lines stay queued in order. */
    method FormPending() returns (ghost taken: seq<string>)
      requires Valid() && pending.None?
      modifies this`events, this`pending, this`formed
      ensures Valid()
      ensures IsChunk(old(events), taken) && old(events) == taken + events
      ensures State() == if taken == [] then old(State()) else Formed(old(State()), Flatten(taken))
    {
      var chunks := TakeLines();
      taken := chunks;
      assert old(events) == taken + events;
      if chunks != [] {
        SetPending(Flatten(chunks), old(events), taken);
      }
    }

    /** The heartbeat part of the loop. `last_ok` moves to before the request, never to the reply. */
    method Heartbeat(started: Time, answer: HeartbeatAnswer, now: Time)
      requires Valid()
      modifies this`lastOk, this`cancel, this`reason, this`cancelledAt, this`nextHeartbeat
      ensures Valid()
      ensures answer.Renewal? ==> State() == Renewed(old(State()), started, answer.cancel, now)
      ensures answer.Refused? ==> State() == Cancelled(old(State()), now)
      ensures answer.NoAnswer? ==> State() == old(State())
      ensures lastOk == if answer.Renewal? then started else old(lastOk)
      ensures nextHeartbeat == now + (if answer.Renewal? then 10.0 else 2.0)
      ensures cancel <==> old(cancel) || answer == Renewal(true) || answer.Refused?
      ensures reason == if answer == Renewal(true) then ServerCancelled else if answer.Refused? then LeaseLost
                        else old(reason)
    {
      match answer {
        case Renewal(stop) =>
          lastOk := started;
          if stop {
            Cancel(ServerCancelled, now);
          }
          nextHeartbeat := now + 10.0;
        case Refused =>
          Cancel(LeaseLost, now);
          nextHeartbeat := now + 2.0;
        case NoAnswer =>
          nextHeartbeat := now + 2.0;
      }
    }

    /** The same check in the lease thread and in the watchdog thread. */
    method CheckDeadline(now: Time)
      requires Valid()
      modifies this`cancel, this`reason, this`cancelledAt
      ensures Valid() && State() == DeadlineChecked(old(State()), now)
      ensures cancel <==> old(cancel) || now - lastOk >= 40.0
      ensures reason == if now - lastOk >= 40.0 then RenewalUnavailable else old(reason)
    {
      if now - lastOk >= RENEWAL_DEADLINE {
        Cancel(RenewalUnavailable, now);
      }
    }

    /** The delivery part of the loop; `delivered` says whether the server acknowledged the chunk. */
    method Deliver(delivered: bool)
      requires Valid()
      modifies this`sequence, this`pending
      ensures Valid()
      ensures State() == if pending.None? && old(pending).Some? then Delivered(old(State())) else old(State())
      ensures pending == if delivered && !cancel then None else old(pending)
      ensures sequence == old(sequence) + if old(pending).Some? && delivered && !cancel then 1 else 0
    {
      if pending.Some? && !cancel {
        if delivered {
          sequence := sequence + 1;
          pending := None;
        }
      }
    }

    /** First half of a pass: renew when due, then look at the local deadline. */
    method Keep(now: Time, answer: HeartbeatAnswer, answeredAt: Time)
      requires Valid()
      modifies this`lastOk, this`cancel, this`reason, this`cancelledAt, this`nextHeartbeat
      ensures Valid()
      ensures lastOk == if now >= old(nextHeartbeat) && answer.Renewal? then now else old(lastOk)
      ensures nextHeartbeat == if now < old(nextHeartbeat) then old(nextHeartbeat)
                               else answeredAt + (if answer.Renewal? then 10.0 else 2.0)
      ensures cancel <==> || old(cancel) || answeredAt - lastOk >= 40.0
                          || (now >= old(nextHeartbeat) && (answer == Renewal(true) || answer.Refused?))
      ensures cancelledAt == if old(cancel) || !cancel then old(cancelledAt) else Some(answeredAt)
      ensures reason == if answeredAt - lastOk >= 40.0 then RenewalUnavailable
                        else if now < old(nextHeartbeat) then old(reason)
                        else if answer == Renewal(true) then ServerCancelled
                        else if answer.Refused? then LeaseLost else old(reason)
    {
      if now >= nextHeartbeat {
        Heartbeat(now, answer, answeredAt);
      }
      CheckDeadline(answeredAt);
    }

    /** Second half of a pass: form a chunk if none is pending, then try to deliver it unless cancelled. `taken` are the
        lines it takes off the queue. */
    method Ship(delivered: bool) returns (ghost taken: seq<string>)
      requires Valid()
      modifies this`events, this`pending, this`formed, this`sequence
      ensures Valid() && old(events) == taken + events
      ensures if old(pending).None? then IsChunk(old(events), taken) else taken == []
      ensures formed == if taken == [] then old(formed) else old(formed) + [Flatten(taken)]
      ensures var waiting := if taken == [] then old(pending) else Some(Flatten(taken));
              && pending == (if delivered && !cancel then None else waiting)
              && sequence == old(sequence) + if waiting.Some? && delivered && !cancel then 1 else 0
    {
      taken := [];
      if pending.None? {
        taken := FormPending();
      }
      Deliver(delivered);
    }

    /**
     One pass of `Lease.loop`, with the clock readings it makes and the answers it gets. A heartbeat happens when one is
     due: a renewal counts from before its request and puts the next one off by 10 s, any other answer by 2 s. The lease
     is cancelled by the answer or by a renewal that is 40 s old. Then the waiting chunk, or one formed of queued lines,
     is sent unless the lease is cancelled, and its number is used up exactly if it was acknowledged.
     */
    method Iterate(now: Time, answer: HeartbeatAnswer, answeredAt: Time, delivered: bool)
        returns (ghost taken: seq<string>)
      requires Valid() && now <= answeredAt
      modifies this
      ensures Valid() && accepted == old(accepted) && old(events) == taken + events
      ensures lastOk == if now >= old(nextHeartbeat) && answer.Renewal? then now else old(lastOk)
      ensures nextHeartbeat == if now < old(nextHeartbeat) then old(nextHeartbeat)
                               else answeredAt + (if answer.Renewal? then 10.0 else 2.0)
      ensures cancel <==> || old(cancel) || answeredAt - lastOk >= 40.0
                          || (now >= old(nextHeartbeat) && (answer == Renewal(true) || answer.Refused?))
      ensures cancelledAt == if old(cancel) || !cancel then old(cancelledAt) else Some(answeredAt)
      ensures reason == if answeredAt - lastOk >= 40.0 then RenewalUnavailable
                        else if now < old(nextHeartbeat) then old(reason)
                        else if answer == Renewal(true) then ServerCancelled
                        else if answer.Refused? then LeaseLost else old(reason)
      ensures if old(pending).None? then IsChunk(old(events), taken) else taken == []
      ensures formed == if taken == [] then old(formed) else old(formed) + [Flatten(taken)]
      ensures var waiting := if taken == [] then old(pending) else Some(Flatten(taken));
              && pending == (if delivered && !cancel then None else waiting)
              && sequence == old(sequence) + if waiting.Some? && delivered && !cancel then 1 else 0
    {
      Keep(now, answer, answeredAt);
      taken := Ship(delivered);
    }
  }
}
