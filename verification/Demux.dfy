/** `Connection` of the synchronous client: one socket stream, one buffer per model (client.py:130-153). */
module Demux {
  import opened Requests
  import opened NumpyArrays

  /** What the socket delivers: the frames of one multipart message, the first of which is the delimiter. */
  type Message = seq<Bytes>

  datatype Reply = Reply(envelope: Bytes, payload: Bytes)

  /** Missing frames count as empty. */
  function ReplyOf(frames: Message): (reply: Reply) {
    Reply(if |frames| > 1 then frames[1] else [], if |frames| > 2 then frames[2] else [])
  }

  /** The message carries the reply: its second frame is the envelope, its third the payload, and the envelope
      names the model. A frame that is missing is as good as empty. */
  ghost predicate Carries(decode: Decoder, frames: Message, model: string, reply: Reply) {
    && (|frames| >= 2 ==> reply.envelope == frames[1]) && (|frames| < 2 ==> reply.envelope == [])
    && (|frames| >= 3 ==> reply.payload == frames[2]) && (|frames| < 3 ==> reply.payload == [])
    && decode(reply.envelope) == Some(model)
  }

  datatype Outcome = Received(reply: Reply) | TimedOut | Raised

  /** One call of `get_result`: `arrivals[i]` is what the network brings before the loop drains the socket
      for the time `i`; the deadline has passed at the last of these times. */
  datatype Call = Call(model: string, arrivals: seq<seq<Message>>)

  /** The model name in an envelope; None if it is not an envelope. */
  type Decoder = Bytes -> Option<string>

  ghost function At(m: map<string, seq<Reply>>, k: string): (replies: seq<Reply>) {
    if k in m then m[k] else []
  }

  /** The replies of a stream for one model, in the order of the stream. */
  ghost function RepliesFor(decode: Decoder, stream: seq<Message>, model: string): (replies: seq<Reply>) {
    if stream == [] then []
    else
      var front, last := RepliesFor(decode, stream[..|stream| - 1], model), ReplyOf(stream[|stream| - 1]);
      if decode(last.envelope) == Some(model) then front + [last] else front
  }

  lemma RepliesForOneMore(decode: Decoder, stream: seq<Message>, frames: Message, model: string)
    ensures RepliesFor(decode, stream + [frames], model)
            == RepliesFor(decode, stream, model)
               + if decode(ReplyOf(frames).envelope) == Some(model) then [ReplyOf(frames)] else []
  {
    assert (stream + [frames])[..|stream|] == stream;
  }

  /** The replies of a stream for a model are what its messages carry for that model. */
  lemma {:induction false} RepliesAreCarried(decode: Decoder, stream: seq<Message>, model: string)
    ensures forall reply :: reply in RepliesFor(decode, stream, model) <==> InStream(decode, stream, model, reply)
  {
    if stream != [] {
      var front, last := stream[..|stream| - 1], stream[|stream| - 1];
      assert stream == front + [last];
      RepliesAreCarried(decode, front, model);
      forall reply ensures Carries(decode, last, model, reply) <==>
                           decode(ReplyOf(last).envelope) == Some(model) && reply == ReplyOf(last) {
      }
      forall reply ensures InStream(decode, stream, model, reply)
                           <==> InStream(decode, front, model, reply) || Carries(decode, last, model, reply) {
        InStreamOneMore(decode, front, last, model, reply);
      }
      hide Carries, InStream;
    }
  }

  /** Some message of the stream carries the reply. */
  ghost predicate InStream(decode: Decoder, stream: seq<Message>, model: string, reply: Reply) {
    exists frames :: frames in stream && Carries(decode, frames, model, reply)
  }

  lemma InStreamOneMore(decode: Decoder, front: seq<Message>, last: Message, model: string, reply: Reply)
    ensures InStream(decode, front + [last], model, reply)
            <==> InStream(decode, front, model, reply) || Carries(decode, last, model, reply)
  {
    hide Carries;
    if frames :| frames in front && Carries(decode, frames, model, reply) {
      assert frames in front + [last];
    }
    if Carries(decode, last, model, reply) {
      assert last in front + [last];
    }
  }

  /** What calls returned for one model, in order. */
  ghost function ReceivedFor(calls: seq<Call>, outcomes: seq<Outcome>, model: string): (replies: seq<Reply>)
    requires |calls| == |outcomes|
  {
    if calls == [] then []
    else
      var n := |calls| - 1;
      var front := ReceivedFor(calls[..n], outcomes[..n], model);
      if calls[n].model == model && outcomes[n].Received? then front + [outcomes[n].reply] else front
  }

  ghost function Flatten(arrivals: seq<seq<Message>>): (all: seq<Message>) {
    if arrivals == [] then [] else Flatten(arrivals[..|arrivals| - 1]) + arrivals[|arrivals| - 1]
  }

  /** How many messages of a stream are not envelopes. */
  ghost function Undecodable(decode: Decoder, stream: seq<Message>): (count: nat) {
    if stream == [] then 0
    else
      Undecodable(decode, stream[..|stream| - 1])
      + if decode(ReplyOf(stream[|stream| - 1]).envelope).None? then 1 else 0
  }

  ghost function Raises(outcomes: seq<Outcome>): (count: nat) {
    if outcomes == [] then 0
    else Raises(outcomes[..|outcomes| - 1]) + if outcomes[|outcomes| - 1].Raised? then 1 else 0
  }

  /** What one call must return. `stream` is all that was delivered before it, `given` what was handed out
      for its model before; the call looked at the socket `taken` times. It returns the first reply that was
      not handed out, as soon as there is one, and None only if there is none in all that arrived. */
  ghost predicate Explains(decode: Decoder, stream: seq<Message>, call: Call, taken: nat, given: seq<Reply>,
                           outcome: Outcome)
  {
    && 1 <= taken <= |call.arrivals|
    && match outcome
       case Received(reply) =>
         && given + [reply] <= RepliesFor(decode, stream + Flatten(call.arrivals[..taken]), call.model)
         && (taken > 1 ==> RepliesFor(decode, stream + Flatten(call.arrivals[..taken - 1]), call.model) == given)
       case TimedOut =>
         taken == |call.arrivals| && RepliesFor(decode, stream + Flatten(call.arrivals), call.model) == given
       case Raised => true
  }

  /** All that the network delivered to the calls, each having looked at the socket a number of times. */
  ghost function Delivered(calls: seq<Call>, taken: seq<nat>): (messages: seq<Message>)
    requires |calls| == |taken|
  {
    if calls == [] then []
    else
      var n := |calls| - 1;
      var last := calls[n].arrivals;
      Delivered(calls[..n], taken[..n]) + Flatten(if taken[n] <= |last| then last[..taken[n]] else last)
  }

  /** Every call of a run is explained by what was delivered and handed out before it. */
  ghost predicate AllExplained(decode: Decoder, start: seq<Message>, given: map<string, seq<Reply>>,
                               calls: seq<Call>, taken: seq<nat>, outcomes: seq<Outcome>)
    requires |calls| == |taken| == |outcomes|
  {
    calls == [] ||
    var n := |calls| - 1;
    && AllExplained(decode, start, given, calls[..n], taken[..n], outcomes[..n])
    && Explains(decode, start + Delivered(calls[..n], taken[..n]), calls[n], taken[n],
                At(given, calls[n].model) + ReceivedFor(calls[..n], outcomes[..n], calls[n].model), outcomes[n])
  }

  lemma OneMoreCall(decode: Decoder, start: seq<Message>, given: map<string, seq<Reply>>, calls: seq<Call>,
                    n: nat, taken: seq<nat>, outcomes: seq<Outcome>, k: nat, outcome: Outcome)
    requires n < |calls| && |taken| == |outcomes| == n
    requires AllExplained(decode, start, given, calls[..n], taken, outcomes)
    requires Explains(decode, start + Delivered(calls[..n], taken), calls[n], k,
                      At(given, calls[n].model) + ReceivedFor(calls[..n], outcomes, calls[n].model), outcome)
    ensures AllExplained(decode, start, given, calls[..n + 1], taken + [k], outcomes + [outcome])
    ensures Delivered(calls[..n + 1], taken + [k]) == Delivered(calls[..n], taken) + Flatten(calls[n].arrivals[..k])
    ensures Raises(outcomes + [outcome]) == Raises(outcomes) + if outcome.Raised? then 1 else 0
  {
    assert calls[..n + 1][..n] == calls[..n] && (taken + [k])[..n] == taken && (outcomes + [outcome])[..n] == outcomes;
  }

  lemma FlattenNothing()
    ensures Flatten([]) == []
  {
  }

  /** The network appends to what the socket holds. */
  lemma Arrive(stream: seq<Message>, arrivals: seq<seq<Message>>, i: nat, consumed: seq<Message>, inbox: seq<Message>)
    requires i < |arrivals| && consumed + inbox == stream + Flatten(arrivals[..i])
    ensures consumed + (inbox + arrivals[i]) == stream + Flatten(arrivals[..i + 1])
  {
    assert arrivals[..i + 1][..i] == arrivals[..i];
    ConcatAssociates(consumed, inbox, arrivals[i]);
    ConcatAssociates(stream, Flatten(arrivals[..i]), arrivals[i]);
  }

  /** A reply moves from the buffers to what was handed out. */
  lemma MovedOver(returned: map<string, seq<Reply>>, buffers: map<string, seq<Reply>>, model: string, m: string)
    requires model in buffers && buffers[model] != []
    ensures At(returned[model := At(returned, model) + [buffers[model][0]]], m)
            + At(buffers[model := buffers[model][1..]], m)
            == At(returned, m) + At(buffers, m)
  {
    assert buffers[model] == [buffers[model][0]] + buffers[model][1..];
  }

  /** A reply is buffered. */
  lemma Buffered(returned: map<string, seq<Reply>>, buffers: map<string, seq<Reply>>, model: string,
                 reply: Reply, m: string)
    ensures At(returned, m) + At(buffers[model := At(buffers, model) + [reply]], m)
            == if m == model then At(returned, m) + At(buffers, m) + [reply] else At(returned, m) + At(buffers, m)
  {
    assert At(returned, m) + (At(buffers, m) + [reply]) == At(returned, m) + At(buffers, m) + [reply];
  }

  lemma ReceivedOneMore(calls: seq<Call>, n: nat, outcomes: seq<Outcome>, outcome: Outcome, m: string)
    requires n < |calls| && |outcomes| == n
    ensures ReceivedFor(calls[..n + 1], outcomes + [outcome], m)
            == ReceivedFor(calls[..n], outcomes, m)
               + if calls[n].model == m && outcome.Received? then [outcome.reply] else []
  {
    assert calls[..n + 1][..n] == calls[..n] && (outcomes + [outcome])[..n] == outcomes;
    assert ReceivedFor(calls[..n], outcomes, m) + [] == ReceivedFor(calls[..n], outcomes, m);
  }

  /** The record of what was handed out follows the outcomes. */
  lemma ReturnedOneMore(given: map<string, seq<Reply>>, handed: map<string, seq<Reply>>,
                        returned: map<string, seq<Reply>>, calls: seq<Call>, n: nat, outcomes: seq<Outcome>,
                        outcome: Outcome)
    requires n < |calls| && |outcomes| == n
    requires forall m :: At(given, m) + ReceivedFor(calls[..n], outcomes, m) == At(handed, m)
    requires returned == if outcome.Received?
                         then handed[calls[n].model := At(handed, calls[n].model) + [outcome.reply]] else handed
    ensures forall m :: At(given, m) + ReceivedFor(calls[..n + 1], outcomes + [outcome], m) == At(returned, m)
  {
    hide ReceivedFor;
    forall m ensures At(given, m) + ReceivedFor(calls[..n + 1], outcomes + [outcome], m) == At(returned, m) {
      ReceivedOneMore(calls, n, outcomes, outcome, m);
      assert At(given, m) + ReceivedFor(calls[..n], outcomes, m) == At(handed, m);
    }
  }

  class Connection {
    const decode: Decoder

    /** Messages that the socket holds ready. */
    var inbox: seq<Message>
    var buffers: map<string, seq<Reply>>

    /** All messages taken from the socket, and all replies handed out. */
    ghost var consumed: seq<Message>
    ghost var returned: map<string, seq<Reply>>

    /** For every model, what was handed out followed by what is buffered is the stream restricted to
        the model. */
    ghost predicate Valid()
      reads this
    {
      forall m: string :: At(returned, m) + At(buffers, m) == RepliesFor(decode, consumed, m)
    }

    constructor (decode: Decoder)
      ensures Valid() && consumed == [] && returned == map[] && inbox == [] && this.decode == decode
    {
      this.decode := decode;
      inbox, buffers, consumed, returned := [], map[], [], map[];
    }

    /** `_drain`: move what the socket holds into the buffers. A message that is not an envelope raises;
        it is gone from the socket and in no buffer. */
    method Drain() returns (raised: bool)
      requires Valid()
      modifies this
      ensures Valid() && returned == old(returned)
      ensures consumed + inbox == old(consumed + inbox)
      ensures !raised ==> inbox == []
      ensures Undecodable(decode, consumed) == Undecodable(decode, old(consumed)) + if raised then 1 else 0
    {
      ghost var stream := consumed + inbox;
      while inbox != []
        invariant Valid() && returned == old(returned) && consumed + inbox == stream
        invariant Undecodable(decode, consumed) == Undecodable(decode, old(consumed))
        decreases |inbox|
      {
        TakeKeepsStream(consumed, inbox);
        assert (consumed + [inbox[0]])[..|consumed|] == consumed;
        raised := TakeOne();
        if raised {
          return;
        }
      }
      raised := false;
    }

    /** One turn of the loop of `_drain`. */
    method TakeOne() returns (raised: bool)
      requires Valid() && inbox != []
      modifies this
      ensures Valid() && returned == old(returned)
      ensures consumed == old(consumed) + [old(inbox)[0]] && inbox == old(inbox)[1..]
      ensures raised <==> decode(ReplyOf(old(inbox)[0]).envelope).None?
    {
      var reply := ReplyOf(inbox[0]);
      TakeKeepsValid(inbox[0]);
      hide RepliesFor;
      consumed := consumed + [inbox[0]];
      inbox := inbox[1..];
      var model := decode(reply.envelope);
      if model.None? {
        return true;
      }
      buffers := buffers[model.value := (if model.value in buffers then buffers[model.value] else []) + [reply]];
      raised := false;
    }

    lemma TakeKeepsStream(taken: seq<Message>, rest: seq<Message>)
      requires rest != []
      ensures taken + [rest[0]] + rest[1..] == taken + rest
    {
    }

    /** One more message, buffered under its model. */
    lemma TakeKeepsValid(frames: Message)
      requires Valid()
      ensures var reply := ReplyOf(frames);
              var model := decode(reply.envelope);
              var after := if model.None? then buffers
                           else buffers[model.value := At(buffers, model.value) + [reply]];
              forall m :: At(returned, m) + At(after, m) == RepliesFor(decode, consumed + [frames], m)
    {
      var reply := ReplyOf(frames);
      var model := decode(reply.envelope);
      var after := if model.None? then buffers else buffers[model.value := At(buffers, model.value) + [reply]];
      forall m: string ensures At(returned, m) + At(after, m) == RepliesFor(decode, consumed + [frames], m) {
        RepliesForOneMore(decode, consumed, frames, m);
        if model.Some? {
          Buffered(returned, buffers, model.value, reply, m);
        }
      }
    }

    /** `_recv_for_model`: the oldest reply for the model that was not handed out before; None only if there
        was none when the deadline passed. `taken` counts how often the socket was looked at. */
    method RecvForModel(model: string, arrivals: seq<seq<Message>>) returns (outcome: Outcome, ghost taken: nat)
      requires Valid() && arrivals != []
      modifies this
      ensures Valid() && taken <= |arrivals|
      ensures consumed + inbox == old(consumed + inbox) + Flatten(arrivals[..taken])
      ensures Explains(decode, old(consumed + inbox), Call(model, arrivals), taken, At(old(returned), model), outcome)
      ensures outcome.Received? ==>
                InStream(decode, old(consumed + inbox) + Flatten(arrivals[..taken]), model, outcome.reply)
      ensures returned == if outcome.Received? then old(returned)[model := At(old(returned), model) + [outcome.reply]]
                          else old(returned)
      ensures Undecodable(decode, consumed)
              == Undecodable(decode, old(consumed)) + if outcome.Raised? then 1 else 0
      ensures !outcome.Raised? ==> inbox == []
    {
      ghost var stream := consumed + inbox;
      hide RepliesFor, Flatten, Undecodable;
      assert arrivals[..0] == [];
      assert stream + Flatten([]) == stream by { FlattenNothing(); }
      for i := 0 to |arrivals|
        invariant Valid() && returned == old(returned)
        invariant consumed + inbox == stream + Flatten(arrivals[..i])
        invariant i > 0 ==> RepliesFor(decode, stream + Flatten(arrivals[..i]), model) == At(returned, model)
        invariant Undecodable(decode, consumed) == Undecodable(decode, old(consumed))
        invariant i > 0 ==> inbox == []
      {
        Arrive(stream, arrivals, i, consumed, inbox);
        inbox := inbox + arrivals[i];
        taken := i + 1;
        var raised := Drain();
        if raised {
          return Raised, taken;
        }
        assert consumed == stream + Flatten(arrivals[..i + 1]);
        if model in buffers && buffers[model] != [] {
          var reply := HandOut(model);
          CarriedReply(consumed, model, reply, At(old(returned), model));
          return Received(reply), taken;
        }
        assert At(returned, model) + At(buffers, model) == At(returned, model);
      }
      assert arrivals[..|arrivals|] == arrivals;
      outcome, taken := TimedOut, |arrivals|;
    }

    lemma CarriedReply(stream: seq<Message>, model: string, reply: Reply, given: seq<Reply>)
      requires given + [reply] <= RepliesFor(decode, stream, model)
      ensures InStream(decode, stream, model, reply)
    {
      RepliesAreCarried(decode, stream, model);
      assert RepliesFor(decode, stream, model)[|given|] == (given + [reply])[|given|];
    }

    /** `self._buffers[model_id].popleft()`. */
    method HandOut(model: string) returns (reply: Reply)
      requires Valid() && model in buffers && buffers[model] != []
      modifies this
      ensures Valid() && consumed == old(consumed) && inbox == old(inbox)
      ensures returned == old(returned)[model := At(old(returned), model) + [reply]]
      ensures At(returned, model) <= RepliesFor(decode, consumed, model)
    {
      HandOutKeepsValid(model);
      hide RepliesFor;
      reply := buffers[model][0];
      buffers := buffers[model := buffers[model][1..]];
      returned := returned[model := At(returned, model) + [reply]];
    }

    /** Handing out the oldest buffered reply. */
    lemma HandOutKeepsValid(model: string)
      requires Valid() && model in buffers && buffers[model] != []
      ensures var reply := buffers[model][0];
              var left := buffers[model := buffers[model][1..]];
              var given := returned[model := At(returned, model) + [reply]];
              && (forall m :: At(given, m) + At(left, m) == RepliesFor(decode, consumed, m))
              && At(given, model) <= RepliesFor(decode, consumed, model)
    {
      var reply := buffers[model][0];
      var left := buffers[model := buffers[model][1..]];
      var given := returned[model := At(returned, model) + [reply]];
      forall m: string ensures At(given, m) + At(left, m) == RepliesFor(decode, consumed, m) {
        MovedOver(returned, buffers, model, m);
      }
      assert At(given, model) + At(left, model) == RepliesFor(decode, consumed, model);
    }

    /** Any sequence of calls, for any models, with any timeouts and arrivals. The messages taken from the
        socket or waiting in it are exactly those delivered; every call is explained by them; each
        message that is not an envelope raises once; and for each model what was returned followed by
        the buffer is what was taken for it: nothing is lost, duplicated, reordered or misrouted. */
    method Perform(calls: seq<Call>) returns (outcomes: seq<Outcome>, ghost taken: seq<nat>)
      requires Valid()
      requires forall i :: 0 <= i < |calls| ==> calls[i].arrivals != []
      modifies this
      ensures Valid() && |outcomes| == |calls| == |taken|
      ensures consumed + inbox == old(consumed + inbox) + Delivered(calls, taken)
      ensures AllExplained(decode, old(consumed + inbox), old(returned), calls, taken, outcomes)
      ensures Undecodable(decode, consumed) == Undecodable(decode, old(consumed)) + Raises(outcomes)
      ensures forall m :: At(old(returned), m) + ReceivedFor(calls, outcomes, m) + At(buffers, m)
                          == RepliesFor(decode, consumed, m)
    {
      ghost var start, given := consumed + inbox, returned;
      outcomes, taken := [], [];
      hide RepliesFor, Flatten, ReceivedFor, Explains, AllExplained, Delivered, Undecodable, Raises;
      NoCalls(decode, start, given);
      assert calls[..0] == [];
      for n := 0 to |calls|
        invariant Valid() && |outcomes| == |taken| == n
        invariant consumed + inbox == start + Delivered(calls[..n], taken)
        invariant AllExplained(decode, start, given, calls[..n], taken, outcomes)
        invariant Undecodable(decode, consumed) == Undecodable(decode, old(consumed)) + Raises(outcomes)
        invariant forall m :: At(given, m) + ReceivedFor(calls[..n], outcomes, m) == At(returned, m)
      {
        ghost var before, handed := outcomes, returned;
        var model := calls[n].model;
        assert At(handed, model) == At(given, model) + ReceivedFor(calls[..n], before, model);
        ghost var k;
        var outcome;
        outcome, k := RecvForModel(model, calls[n].arrivals);
        OneMoreCall(decode, start, given, calls, n, taken, before, k, outcome);
        ConcatAssociates(start, Delivered(calls[..n], taken), Flatten(calls[n].arrivals[..k]));
        outcomes, taken := outcomes + [outcome], taken + [k];
        ReturnedOneMore(given, handed, returned, calls, n, before, outcome);
      }
      assert calls[..|calls|] == calls;
    }
  }

  lemma NoCalls(decode: Decoder, start: seq<Message>, given: map<string, seq<Reply>>)
    ensures AllExplained(decode, start, given, [], [], []) && Delivered([], []) == [] && Raises([]) == 0
    ensures forall m :: ReceivedFor([], [], m) == []
    ensures start + [] == start && forall q: seq<Reply> :: q + [] == q
  {
  }
}
