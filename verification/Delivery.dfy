/** A queue and its consumer: deliveries, handler calls and how they are settled. */
module Delivery {

  // ----- subscribe options -----

  datatype SubscribeOption = Queue(name: string) | DurableQueue | DisableAutoAck | RequeueOnError

  datatype SubscribeOptions = SubscribeOptions(queue: string, autoAck: bool, durable: bool, requeueOnError: bool)

  function Apply(o: SubscribeOptions, option: SubscribeOption): SubscribeOptions {
    match option
    case Queue(name) => o.(queue := name)
    case DurableQueue => o.(durable := true)
    case DisableAutoAck => o.(autoAck := false)
    case RequeueOnError => o.(requeueOnError := true)
  }

  function LastQueue(options: seq<SubscribeOption>): string {
    if options == [] then ""
    else if options[|options| - 1].Queue? then options[|options| - 1].name
    else LastQueue(options[..|options| - 1])
  }

  lemma LastQueueOf(options: seq<SubscribeOption>, option: SubscribeOption)
    ensures LastQueue(options + [option]) == if option.Queue? then option.name else LastQueue(options)
    ensures forall o :: o in options + [option] <==> o in options || o == option
  {
    assert (options + [option])[..|options|] == options;
  }

  /** The options of a subscription: automatic acknowledgement unless disabled. */
  method Subscribe(options: seq<SubscribeOption>) returns (o: SubscribeOptions)
    ensures o == SubscribeOptions(LastQueue(options), DisableAutoAck !in options, DurableQueue in options,
                                  RequeueOnError in options)
  {
    o := SubscribeOptions("", true, false, false);
    for i := 0 to |options|
      invariant o == SubscribeOptions(LastQueue(options[..i]), DisableAutoAck !in options[..i],
                                      DurableQueue in options[..i], RequeueOnError in options[..i])
    {
      assert options[..i + 1][..i] == options[..i];
      assert options[..i + 1] == options[..i] + [options[i]];
      o := Apply(o, options[i]);
    }
    assert options[..|options|] == options;
  }

  /** Whatever options the caller adds, a persistent queue is durable, named after its topic and
      acknowledged by hand. */
  method SubscribePersistentQueue(topic: string, requeueOnError: bool, options: seq<SubscribeOption>)
    returns (o: SubscribeOptions)
    ensures o == SubscribeOptions(topic, false, true, requeueOnError || RequeueOnError in options)
  {
    var all := options + [Queue(topic), DurableQueue, DisableAutoAck];
    LastQueueOf(options, Queue(topic));
    LastQueueOf(options + [Queue(topic)], DurableQueue);
    LastQueueOf(options + [Queue(topic)] + [DurableQueue], DisableAutoAck);
    assert all == options + [Queue(topic)] + [DurableQueue] + [DisableAutoAck];
    if requeueOnError {
      LastQueueOf(all, RequeueOnError);
      all := all + [RequeueOnError];
    }
    o := Subscribe(all);
  }

  // ----- the queue -----

  /** How a handled delivery was answered. */
  datatype Settlement = Ack | Nack(requeue: bool)

  /** A delivery as the consumer holds it. */
  datatype Delivered = Delivered(tag: nat, id: nat)

  /** `inflight` maps delivery tags to the messages the server waits for; `buffer` holds what the consumer
      has received but not handled, and outlives a lost connection. `handled` lists the outcomes of the
      handler calls, `settled` the answers sent for them, with the tags they name. */
  datatype State = State(
    published: set<nat>,
    ready: set<nat>,
    inflight: map<nat, nat>,
    acked: set<nat>,
    dropped: set<nat>,
    buffer: seq<Delivered>,
    nextTag: nat,
    handled: seq<(Delivered, bool)>,
    settled: seq<(nat, Settlement)>)

  function Empty(): State {
    State({}, {}, map[], {}, {}, [], 0, [], [])
  }

  datatype Step =
    | Publish(id: nat)
    | Deliver(id: nat)
    | Handle(ok: bool)
    | LoseConnection
    | DiscardBuffer

  /** The server's side of an answer: a tag it does not wait for is an error, which is only logged. */
  function Settle(s: State, tag: nat, answer: Settlement): State {
    var t := s.(settled := s.settled + [(tag, answer)]);
    if tag !in s.inflight then t
    else
      var id := s.inflight[tag];
      var u := t.(inflight := s.inflight - {tag});
      match answer
      case Ack => u.(acked := s.acked + {id})
      case Nack(requeue) => if requeue then u.(ready := s.ready + {id}) else u.(dropped := s.dropped + {id})
  }

  /** The consumer calls the handler with the oldest delivery and answers for it, unless the server
      acknowledges by itself. */
  function HandleNext(o: SubscribeOptions, s: State, ok: bool): State
    requires s.buffer != []
  {
    var d := s.buffer[0];
    var t := s.(buffer := s.buffer[1..], handled := s.handled + [(d, ok)]);
    if o.autoAck then t
    else if ok then Settle(t, d.tag, Ack)
    else Settle(t, d.tag, Nack(o.requeueOnError))
  }

  function Next(o: SubscribeOptions, s: State, step: Step): State {
    match step
    case Publish(id) =>
      if id in s.published then s else s.(published := s.published + {id}, ready := s.ready + {id})
    case Deliver(id) =>
      if id !in s.ready then s
      else
        var t := s.(ready := s.ready - {id}, buffer := s.buffer + [Delivered(s.nextTag, id)], nextTag := s.nextTag + 1);
        if o.autoAck then t.(acked := s.acked + {id}) else t.(inflight := s.inflight[s.nextTag := id])
    case Handle(ok) => if s.buffer == [] then s else HandleNext(o, s, ok)
    case LoseConnection => s.(inflight := map[], ready := s.ready + s.inflight.Values)
    case DiscardBuffer =>
      if exists d | d in s.buffer :: d.tag in s.inflight then s else s.(buffer := [])
  }

  function Run(o: SubscribeOptions, s: State, steps: seq<Step>): State
    decreases |steps|
  {
    if steps == [] then s else Run(o, Next(o, s, steps[0]), steps[1..])
  }

  // ----- conservation -----

  /** Each message published is in exactly one place, and in flight under one tag only. */
  ghost predicate Conserved(s: State) {
    && s.published == s.ready + s.inflight.Values + s.acked + s.dropped
    && s.ready !! s.inflight.Values !! s.acked !! s.dropped
    && (forall t, u | t in s.inflight && u in s.inflight && s.inflight[t] == s.inflight[u] :: t == u)
  }

  /** Tags are handed out once, the buffer holds them in order, and every tag in flight is still buffered. */
  ghost predicate Tagged(o: SubscribeOptions, s: State) {
    && (forall i | 0 <= i < |s.buffer| :: s.buffer[i].tag < s.nextTag)
    && (forall i, j | 0 <= i < j < |s.buffer| :: s.buffer[i].tag < s.buffer[j].tag)
    && (forall i, j | 0 <= i < |s.handled| && 0 <= j < |s.buffer| :: s.handled[i].0.tag < s.buffer[j].tag)
    && (forall i | 0 <= i < |s.handled| :: s.handled[i].0.tag < s.nextTag)
    && (forall t | t in s.inflight :: t < s.nextTag && Delivered(t, s.inflight[t]) in s.buffer)
    && (o.autoAck ==> s.inflight == map[])
  }

  /** With manual acknowledgement every handler call is answered exactly once, in order and as it ended. */
  ghost predicate Answered(o: SubscribeOptions, s: State) {
    && (forall i, j | 0 <= i < j < |s.handled| :: s.handled[i].0.tag < s.handled[j].0.tag)
    && (if o.autoAck then s.settled == []
        else
          && |s.settled| == |s.handled|
          && forall i | 0 <= i < |s.settled| ::
               s.settled[i] == (s.handled[i].0.tag, if s.handled[i].1 then Ack else Nack(o.requeueOnError)))
  }

  /** Where messages go and why: acknowledged by hand only after a handler call without error, dropped
      only after one with an error and only without requeueing. */
  ghost predicate Explained(o: SubscribeOptions, s: State) {
    && (!o.autoAck ==> forall m | m in s.acked :: exists h | h in s.handled :: h.0.id == m && h.1)
    && (forall m | m in s.dropped :: !o.autoAck && !o.requeueOnError && exists h | h in s.handled :: h.0.id == m && !h.1)
  }

  ghost predicate Sound(o: SubscribeOptions, s: State) {
    Conserved(s) && Tagged(o, s) && Answered(o, s) && Explained(o, s)
  }

  /** Does message `m` lie in the same place in both states? */
  ghost predicate SamePlace(s: State, t: State, m: nat) {
    && (m in s.ready <==> m in t.ready) && (m in s.inflight.Values <==> m in t.inflight.Values)
    && (m in s.acked <==> m in t.acked) && (m in s.dropped <==> m in t.dropped)
  }

  /** An answer moves the message it names to the place it says and no other; an answer for a tag the
      server does not wait for moves none. */
  lemma SettleKeeps(o: SubscribeOptions, s: State, d: Delivered, answer: Settlement)
    requires Conserved(s) && (d.tag in s.inflight ==> s.inflight[d.tag] == d.id)
    ensures var t := Settle(s, d.tag, answer);
            && Conserved(t)
            && (forall m | m != d.id || d.tag !in s.inflight :: SamePlace(s, t, m))
            && (d.tag in s.inflight ==>
                  && d.id in s.inflight.Values && d.id !in t.inflight.Values
                  && (d.id in t.acked <==> answer.Ack?)
                  && (d.id in t.ready <==> answer == Nack(true))
                  && (d.id in t.dropped <==> answer == Nack(false)))
  {
    if d.tag in s.inflight {
      ValuesWithout(s.inflight, d.tag);
    }
  }

  lemma ValuesWithout(m: map<nat, nat>, t: nat)
    requires t in m && forall u, v | u in m && v in m && m[u] == m[v] :: u == v
    ensures (m - {t}).Values == m.Values - {m[t]}
  {
    forall x
      ensures x in (m - {t}).Values <==> x in m.Values - {m[t]}
    {
      if x in m.Values - {m[t]} {
        var u :| u in m && m[u] == x;
        assert u in m - {t};
      }
    }
  }

  lemma ValuesWith(m: map<nat, nat>, t: nat, id: nat)
    requires t !in m
    ensures m[t := id].Values == m.Values + {id}
  {
    forall x
      ensures x in m[t := id].Values <==> x in m.Values + {id}
    {
      if x in m.Values {
        var u :| u in m && m[u] == x;
        assert m[t := id][u] == x;
      }
      assert m[t := id][t] == id;
    }
  }

  lemma PublishKeeps(o: SubscribeOptions, s: State, id: nat)
    requires Sound(o, s)
    ensures Sound(o, Next(o, s, Publish(id)))
  {
  }

  lemma DeliverConserves(o: SubscribeOptions, s: State, id: nat)
    requires Conserved(s) && s.nextTag !in s.inflight && id in s.ready
    ensures Conserved(Next(o, s, Deliver(id)))
  {
    ValuesWith(s.inflight, s.nextTag, id);
  }

  lemma DeliverKeeps(o: SubscribeOptions, s: State, id: nat)
    requires Sound(o, s) && id in s.ready
    ensures Sound(o, Next(o, s, Deliver(id)))
  {
    DeliverConserves(o, s, id);
    var t := Next(o, s, Deliver(id));
    assert Tagged(o, t) by {
      assert t.buffer[|s.buffer|] == Delivered(s.nextTag, id);
      assert forall d | d in s.buffer :: d in t.buffer;
    }
  }

  /** Handling a delivery only takes its own tag out of flight. */
  lemma HandleInflight(o: SubscribeOptions, s: State, ok: bool)
    requires Tagged(o, s) && s.buffer != []
    ensures var t := Next(o, s, Handle(ok));
            && t.inflight == s.inflight - {s.buffer[0].tag}
            && t.buffer == s.buffer[1..] && t.nextTag == s.nextTag && t.handled == s.handled + [(s.buffer[0], ok)]
  {
  }

  lemma HandleTags(o: SubscribeOptions, s: State, ok: bool)
    requires Tagged(o, s) && s.buffer != []
    ensures Tagged(o, Next(o, s, Handle(ok)))
  {
    var t := Next(o, s, Handle(ok));
    HandleInflight(o, s, ok);
    forall x | x in t.inflight
      ensures x < t.nextTag && Delivered(x, t.inflight[x]) in t.buffer
    {
      var k :| 0 <= k < |s.buffer| && s.buffer[k] == Delivered(x, s.inflight[x]);
      assert t.buffer[k - 1] == s.buffer[k];
    }
  }

  lemma HandleAnswers(o: SubscribeOptions, s: State, ok: bool)
    requires Tagged(o, s) && Answered(o, s) && s.buffer != []
    ensures Answered(o, Next(o, s, Handle(ok)))
  {
    HandleInflight(o, s, ok);
  }

  lemma TagNamesMessage(o: SubscribeOptions, s: State)
    requires Tagged(o, s) && s.buffer != [] && s.buffer[0].tag in s.inflight
    ensures s.inflight[s.buffer[0].tag] == s.buffer[0].id
  {
    var tag := s.buffer[0].tag;
    var k :| 0 <= k < |s.buffer| && s.buffer[k] == Delivered(tag, s.inflight[tag]);
  }

  lemma HandleExplains(o: SubscribeOptions, s: State, ok: bool)
    requires Tagged(o, s) && Explained(o, s) && s.buffer != []
    ensures Explained(o, Next(o, s, Handle(ok)))
  {
    var t := Next(o, s, Handle(ok));
    var d := s.buffer[0];
    HandleInflight(o, s, ok);
    if d.tag in s.inflight {
      TagNamesMessage(o, s);
    }
    assert (d, ok) in t.handled;
    assert forall h | h in s.handled :: h in t.handled;
  }

  lemma HandleKeeps(o: SubscribeOptions, s: State, ok: bool)
    requires Sound(o, s) && s.buffer != []
    ensures Sound(o, Next(o, s, Handle(ok)))
  {
    HandleTags(o, s, ok);
    HandleAnswers(o, s, ok);
    HandleExplains(o, s, ok);
    HandleConserves(o, s, ok);
  }

  lemma HandleConserves(o: SubscribeOptions, s: State, ok: bool)
    requires Conserved(s) && Tagged(o, s) && s.buffer != []
    ensures Conserved(Next(o, s, Handle(ok)))
  {
    var d := s.buffer[0];
    if d.tag in s.inflight {
      TagNamesMessage(o, s);
    }
    var t := s.(buffer := s.buffer[1..], handled := s.handled + [(d, ok)]);
    SettleKeeps(o, t, d, if ok then Ack else Nack(o.requeueOnError));
  }

  lemma NextKeepsSound(o: SubscribeOptions, s: State, step: Step)
    requires Sound(o, s)
    ensures Sound(o, Next(o, s, step))
  {
    match step
    case Publish(id) => PublishKeeps(o, s, id);
    case Deliver(id) => if id in s.ready { DeliverKeeps(o, s, id); }
    case Handle(ok) => if s.buffer != [] { HandleKeeps(o, s, ok); }
    case LoseConnection =>
    case DiscardBuffer =>
  }

  lemma {:induction false} RunKeepsSound(o: SubscribeOptions, s: State, steps: seq<Step>)
    requires Sound(o, s)
    ensures Sound(o, Run(o, s, steps))
    decreases |steps|
  {
    if steps != [] {
      NextKeepsSound(o, s, steps[0]);
      RunKeepsSound(o, Next(o, s, steps[0]), steps[1..]);
    }
  }

  lemma FromEmpty(o: SubscribeOptions, steps: seq<Step>)
    ensures Sound(o, Run(o, Empty(), steps))
  {
    assert Sound(o, Empty());
    RunKeepsSound(o, Empty(), steps);
  }

  /** Every message that has left the queue was handled without an error at least once. */
  ghost predicate LeftOnlyHandled(s: State) {
    forall m | m in s.published && m !in s.ready && m !in s.inflight.Values ::
      exists h | h in s.handled :: h.0.id == m && h.1
  }

  /** This holds in all runs exactly for queues acknowledged by hand that requeue on errors: one
      failing handler call loses the message otherwise. */
  lemma NothingLostIffRequeued(o: SubscribeOptions)
    ensures (forall steps :: LeftOnlyHandled(Run(o, Empty(), steps))) <==> !o.autoAck && o.requeueOnError
  {
    if !o.autoAck && o.requeueOnError {
      forall steps
        ensures LeftOnlyHandled(Run(o, Empty(), steps))
      {
        FromEmpty(o, steps);
      }
    } else {
      var lost := Run(o, Empty(), [Publish(0), Deliver(0), Handle(false)]);
      FailingRun(o);
      assert 0 in lost.published && 0 !in lost.ready && 0 !in lost.inflight.Values;
      assert !LeftOnlyHandled(lost);
    }
  }

  lemma FailingRun(o: SubscribeOptions)
    ensures var s := Run(o, Empty(), [Publish(0), Deliver(0), Handle(false)]);
            && s.published == {0} && s.inflight == map[] && s.handled == [(Delivered(0, 0), false)]
            && s.ready == if !o.autoAck && o.requeueOnError then {0} else {}
  {
    var s1 := Next(o, Empty(), Publish(0));
    var s2 := Next(o, s1, Deliver(0));
    var s3 := Next(o, s2, Handle(false));
    assert [Publish(0), Deliver(0), Handle(false)][1..] == [Deliver(0), Handle(false)];
    assert [Deliver(0), Handle(false)][1..] == [Handle(false)];
    assert Run(o, s2, [Handle(false)]) == s3;
  }

  /** A lost connection gives back to the queue whatever was in flight, so that all of it can be delivered again,
      under new tags; an answer for an old tag then moves nothing. */
  lemma LossRequeues(o: SubscribeOptions, s: State)
    requires Sound(o, s)
    ensures var t := Next(o, s, LoseConnection);
            && t.ready == s.ready + s.inflight.Values && t.inflight == map[]
            && t.acked == s.acked && t.dropped == s.dropped && t.buffer == s.buffer && t.published == s.published
            && (forall m | m in s.inflight.Values ::
                  var again := Next(o, t, Deliver(m));
                  && again.buffer == t.buffer + [Delivered(s.nextTag, m)]
                  && (!o.autoAck ==> s.nextTag in again.inflight && again.inflight[s.nextTag] == m))
            && (forall tag, answer :: Settle(t, tag, answer) == t.(settled := t.settled + [(tag, answer)]))
            && Next(o, t, DiscardBuffer) == t.(buffer := [])
  {
  }

  // ----- the consumer as an object -----

  function Handles(outcomes: seq<bool>): seq<Step> {
    if outcomes == [] then [] else [Handle(outcomes[0])] + Handles(outcomes[1..])
  }

  class Consumer {
    const options: SubscribeOptions
    var state: State

    constructor (options: SubscribeOptions)
      ensures this.options == options && state == Empty()
    {
      this.options, state := options, Empty();
    }

    /** What is called for each delivery; `ok` says whether the handler returned no error. */
    method OnDelivery(ok: bool)
      requires state.buffer != []
      modifies this`state
      ensures state == HandleNext(options, old(state), ok)
    {
      var d := state.buffer[0];
      state := state.(buffer := state.buffer[1..], handled := state.handled + [(d, ok)]);
      if ok && !options.autoAck {
        state := Settle(state, d.tag, Ack);
      } else if !ok && !options.autoAck {
        state := Settle(state, d.tag, Nack(options.requeueOnError));
      }
    }

    /** The deliveries received so far, one after another. */
    method Drain(outcomes: seq<bool>)
      requires |outcomes| == |state.buffer|
      modifies this`state
      ensures state == Run(options, old(state), Handles(outcomes)) && state.buffer == []
    {
      var i := 0;
      while i < |outcomes|
        invariant 0 <= i <= |outcomes| && |state.buffer| == |outcomes| - i
        invariant Run(options, old(state), Handles(outcomes)) == Run(options, state, Handles(outcomes[i..]))
      {
        assert outcomes[i..][1..] == outcomes[i + 1..];
        assert Handles(outcomes[i..])[1..] == Handles(outcomes[i + 1..]);
        OnDelivery(outcomes[i]);
        i := i + 1;
      }
    }
  }
}
