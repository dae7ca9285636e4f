/** One reconnect loop and any number of subscribers, sharing the gate that subscribers wait at
    while there is no connection. Steps of all of them interleave freely. */
module ReconnectGate {

  /** The shared record of a connection. Gate channels are numbered in the order they are made:
      `gate` is the one now in use. Closing a closed channel panics. `stopped` says that the
      close channel is closed. `queues` is how many persistent queues a connection declares. */
  datatype Conn = Conn(
    queues: nat,
    connected: bool,
    gate: nat,
    gates: nat,
    closed: set<nat>,
    stopped: bool,
    panicked: bool)

  function CloseGate(c: Conn): Conn {
    if c.gate in c.closed then c.(panicked := true) else c.(closed := c.closed + {c.gate})
  }

  function NewGate(c: Conn): Conn {
    c.(connected := false, gate := c.gates, gates := c.gates + 1)
  }

  function Stop(c: Conn): Conn {
    if c.stopped then c else c.(stopped := true, connected := false)
  }

  /** A new connection starts with a closed gate. */
  function NewConn(queues: nat): Conn {
    CloseGate(Conn(queues, false, 0, 1, {}, false, false))
  }

  /** Where the reconnect loop is: watching a connection, trying for one, opening channels on a new one,
      declaring the queues that are left, holding one that is not yet marked connected, or marked but with
      the gate still shut; or it has returned. */
  datatype Loop = Watching | Retrying | Opening | Declaring(left: nat) | Linked | Marked | Returned

  /** Where a subscriber is: at the top of its loop, waiting at a gate it read earlier, past it,
      receiving deliveries, or it has returned. */
  datatype Place = Top | Waiting(gate: nat) | Past | Consuming | Gone

  datatype Subscriber = Subscriber(place: Place, mayRun: bool)

  /** `link` says whether the last connection dialled stands, `dialled` whether the last dial left one at all:
      closing none dereferences nil, which `dereferenced` records. */
  datatype State = State(
    conn: Conn,
    loop: Loop,
    link: bool,
    dialled: bool,
    dereferenced: bool,
    subs: seq<Subscriber>)

  datatype Step =
    | LinkBreaks
    | Notice
    | NotFound
    | DialFails
    | Dials
    | AttemptFailsHalfway
    | Opens
    | DeclareQueue
    | AttemptSucceeds
    | Mark
    | Release
    | Leave
    | Disconnect
    | Subscribe
    | Unsubscribe(i: nat)
    | Enter(i: nat)
    | Pass(i: nat)
    | Quit(i: nat)
    | Check(i: nat, consumes: bool)
    | Ends(i: nat)

  predicate At(s: State, i: nat, place: Place) {
    i < |s.subs| && s.subs[i].place == place
  }

  function Move(s: State, i: nat, place: Place): State
    requires i < |s.subs|
  {
    s.(subs := s.subs[i := s.subs[i].(place := place)])
  }

  /** Channels are opened and queues declared on a standing connection only. A failure to open one closes
      the connection and the close channel; when that is closed already, the connection is left as it is.
      Declaring has no failure: it is tried again until it works. */
  function LoopNext(s: State, step: Step): State {
    match step
    case Notice => if s.loop.Watching? && !s.link then s.(conn := NewGate(s.conn), loop := Retrying) else s
    case DialFails => if s.loop.Retrying? then s.(dialled := false, link := false) else s
    case Dials => if s.loop.Retrying? then s.(dialled := true, link := true, loop := Opening) else s
    case AttemptFailsHalfway =>
      if s.loop.Opening? then s.(conn := Stop(s.conn), link := s.link && s.conn.stopped, loop := Retrying) else s
    case Opens => if s.loop.Opening? && s.link then s.(loop := Declaring(s.conn.queues)) else s
    case DeclareQueue =>
      if s.loop.Declaring? && s.loop.left > 0 && s.link then s.(loop := Declaring(s.loop.left - 1)) else s
    case AttemptSucceeds => if s.loop == Declaring(0) then s.(loop := Linked) else s
    case Mark => if s.loop.Linked? then s.(conn := s.conn.(connected := true), loop := Marked) else s
    case Release => if s.loop.Marked? then s.(conn := CloseGate(s.conn), loop := Watching) else s
    case Leave => if s.loop.Watching? && s.conn.stopped then s.(loop := Returned) else s
    case _ => s
  }

  function SubscriberNext(s: State, step: Step): State {
    match step
    case Subscribe => s.(subs := s.subs + [Subscriber(Top, true)])
    case Unsubscribe(i) => if i < |s.subs| then s.(subs := s.subs[i := s.subs[i].(mayRun := false)]) else s
    case Enter(i) =>
      if !At(s, i, Top) then s else Move(s, i, if s.subs[i].mayRun then Waiting(s.conn.gate) else Gone)
    case Pass(i) =>
      if i < |s.subs| && s.subs[i].place.Waiting? && s.subs[i].place.gate in s.conn.closed then Move(s, i, Past) else s
    case Quit(i) =>
      if i < |s.subs| && s.subs[i].place.Waiting? && s.conn.stopped then Move(s, i, Gone) else s
    case Check(i, consumes) =>
      if !At(s, i, Past) then s else Move(s, i, if s.conn.connected && consumes then Consuming else Top)
    case Ends(i) => if At(s, i, Consuming) then Move(s, i, Top) else s
    case _ => s
  }

  /** A step that cannot be taken changes nothing; an attempt that finds no server to dial changes nothing
      either. Closing the connection also breaks the link, which the loop may notice before it sees that it
      should return. */
  function Next(s: State, step: Step): State {
    match step
    case LinkBreaks => s.(link := false)
    case Disconnect =>
      if s.conn.stopped then s
      else s.(conn := Stop(s.conn), link := false, dereferenced := s.dereferenced || !s.dialled)
    case Subscribe | Unsubscribe(_) | Enter(_) | Pass(_) | Quit(_) | Check(_, _) | Ends(_) => SubscriberNext(s, step)
    case _ => LoopNext(s, step)
  }

  function Run(s: State, steps: seq<Step>): State
    decreases |steps|
  {
    if steps == [] then s else Run(Next(s, steps[0]), steps[1..])
  }

  /** After the first connection was made. */
  predicate Initial(s: State) {
    s == State(NewConn(s.conn.queues).(connected := true), Watching, true, true, false, [])
  }

  // ----- the gates -----

  predicate Between(s: State) {
    s.loop.Retrying? || s.loop.Opening? || s.loop.Declaring? || s.loop.Linked? || s.loop.Marked?
  }

  /** No gate was closed twice; every gate but the current one is closed; the current one is open
      exactly from a lost connection to the end of the next successful attempt; nobody waits at a
      gate that was never made. */
  ghost predicate Gated(s: State) {
    && !s.conn.panicked
    && s.conn.gate + 1 == s.conn.gates
    && (forall g | g in s.conn.closed :: g < s.conn.gates)
    && (forall g | 0 <= g < s.conn.gates && g != s.conn.gate :: g in s.conn.closed)
    && (s.conn.gate in s.conn.closed <==> !Between(s))
    && (forall i | 0 <= i < |s.subs| && s.subs[i].place.Waiting? :: s.subs[i].place.gate < s.conn.gates)
  }

  lemma NextKeepsGated(s: State, step: Step)
    requires Gated(s)
    ensures Gated(Next(s, step))
  {
  }

  lemma {:induction false} RunKeepsGated(s: State, steps: seq<Step>)
    requires Gated(s)
    ensures Gated(Run(s, steps))
    decreases |steps|
  {
    if steps != [] {
      NextKeepsGated(s, steps[0]);
      RunKeepsGated(Next(s, steps[0]), steps[1..]);
    }
  }

  /** In every interleaving from the first connection on. */
  lemma GatesAreSafe(s: State, steps: seq<Step>)
    requires Initial(s)
    ensures Gated(Run(s, steps))
  {
    assert s.conn.gate in s.conn.closed;
    RunKeepsGated(s, steps);
  }

  lemma SubscribersLeaveConn(s: State, step: Step)
    ensures SubscriberNext(s, step).conn == s.conn && SubscriberNext(s, step).loop == s.loop
  {
  }

  lemma StepKeepsClosed(s: State, step: Step)
    ensures s.conn.closed <= Next(s, step).conn.closed && s.conn.gates <= Next(s, step).conn.gates
  {
    SubscribersLeaveConn(s, step);
  }

  lemma {:induction false} ClosedStaysClosed(s: State, steps: seq<Step>)
    ensures s.conn.closed <= Run(s, steps).conn.closed
    ensures s.conn.gates <= Run(s, steps).conn.gates
    decreases |steps|
  {
    if steps != [] {
      StepKeepsClosed(s, steps[0]);
      ClosedStaysClosed(Next(s, steps[0]), steps[1..]);
    }
  }

  /** No gate is orphaned: whenever the loop is back at watching a connection, or has returned,
      whoever waits at any gate, however old, can pass. */
  lemma NobodyIsLeftWaiting(s: State, steps: seq<Step>, g: nat)
    requires Gated(s) && g < s.conn.gates
    ensures !Between(Run(s, steps)) ==> g in Run(s, steps).conn.closed
  {
    RunKeepsGated(s, steps);
    ClosedStaysClosed(s, steps);
  }

  lemma {:induction false} RunJoined(s: State, a: seq<Step>, b: seq<Step>)
    ensures Run(s, a + b) == Run(Run(s, a), b)
    decreases |a|
  {
    if a == [] {
      assert a + b == b;
    } else {
      assert (a + b)[1..] == a[1..] + b;
      RunJoined(Next(s, a[0]), a[1..], b);
    }
  }

  lemma RunTwo(s: State, a: Step, b: Step)
    ensures Run(s, [a, b]) == Next(Next(s, a), b)
  {
    assert [a, b][1..] == [b];
    assert Run(Next(s, a), [b]) == Next(Next(s, a), b);
  }

  lemma RunThree(s: State, a: Step, b: Step, c: Step)
    ensures Run(s, [a, b, c]) == Next(Next(Next(s, a), b), c)
  {
    assert [a, b, c][1..] == [b, c];
    RunTwo(Next(s, a), b, c);
  }

  // ----- the way home -----

  /** Lost while declaring: the loop tries on for ever, on a connection that only it could replace. */
  predicate Stuck(s: State) {
    s.loop.Declaring? && s.loop.left > 0 && !s.link
  }

  /** Lost while opening channels: the attempt can only fail, half-way. */
  predicate Doomed(s: State) {
    s.loop.Opening? && !s.link
  }

  function Declares(n: nat): seq<Step> {
    if n == 0 then [] else [DeclareQueue] + Declares(n - 1)
  }

  /** The steps of the loop from within an attempt to the end of the next success. */
  function WayHome(s: State): seq<Step> {
    match s.loop
    case Retrying => [Dials, Opens] + (Declares(s.conn.queues) + [AttemptSucceeds, Mark, Release])
    case Opening =>
      if s.link then [Opens] + (Declares(s.conn.queues) + [AttemptSucceeds, Mark, Release])
      else [AttemptFailsHalfway, Dials, Opens] + (Declares(s.conn.queues) + [AttemptSucceeds, Mark, Release])
    case Declaring(left) => Declares(left) + [AttemptSucceeds, Mark, Release]
    case Linked => [Mark, Release]
    case Marked => [Release]
    case _ => []
  }

  lemma {:induction false} QueuesDeclared(s: State)
    requires s.loop.Declaring? && !Stuck(s)
    ensures Run(s, Declares(s.loop.left)) == s.(loop := Declaring(0))
    decreases s.loop.left
  {
    if s.loop.left > 0 {
      var next := Next(s, DeclareQueue);
      QueuesDeclared(next);
      assert Declares(s.loop.left)[1..] == Declares(next.loop.left);
    }
  }

  lemma DeclaringHome(s: State)
    requires s.loop.Declaring? && !Stuck(s)
    ensures Run(s, Declares(s.loop.left) + [AttemptSucceeds, Mark, Release])
            == s.(loop := Watching, conn := CloseGate(s.conn.(connected := true)))
  {
    QueuesDeclared(s);
    RunJoined(s, Declares(s.loop.left), [AttemptSucceeds, Mark, Release]);
    RunThree(s.(loop := Declaring(0)), AttemptSucceeds, Mark, Release);
  }

  lemma RetryingHome(s: State)
    requires s.loop.Retrying?
    ensures Run(s, WayHome(s))
            == s.(dialled := true, link := true, loop := Watching, conn := CloseGate(s.conn.(connected := true)))
  {
    RunJoined(s, [Dials, Opens], Declares(s.conn.queues) + [AttemptSucceeds, Mark, Release]);
    RunTwo(s, Dials, Opens);
    DeclaringHome(Next(Next(s, Dials), Opens));
  }

  lemma OpeningHome(s: State)
    requires s.loop.Opening?
    ensures var end := Run(s, WayHome(s));
            && end.loop.Watching? && end.subs == s.subs
            && end.conn == CloseGate(s.conn.(connected := true, stopped := s.conn.stopped || Doomed(s)))
  {
    var rest := Declares(s.conn.queues) + [AttemptSucceeds, Mark, Release];
    if s.link {
      RunJoined(s, [Opens], rest);
      assert Run(s, [Opens]) == Next(s, Opens);
      DeclaringHome(Next(s, Opens));
    } else {
      var failed := Next(s, AttemptFailsHalfway);
      RunJoined(s, [AttemptFailsHalfway], WayHome(failed));
      assert Run(s, [AttemptFailsHalfway]) == failed;
      RetryingHome(failed);
      assert [AttemptFailsHalfway] + ([Dials, Opens] + rest) == [AttemptFailsHalfway, Dials, Opens] + rest;
    }
  }

  /** Unless it is stuck, an attempt can be brought to its end: the loop watches again, the gate is closed and
      the connection marked; only a doomed attempt stops the loop on its way. */
  lemma WayHomeLeadsHome(s: State)
    requires Between(s) && !Stuck(s)
    ensures var end := Run(s, WayHome(s));
            && end.loop.Watching? && end.subs == s.subs
            && end.conn == CloseGate(s.conn.(connected := if s.loop.Marked? then s.conn.connected else true,
                                             stopped := s.conn.stopped || Doomed(s)))
  {
    match s.loop
    case Retrying => RetryingHome(s);
    case Opening => OpeningHome(s);
    case Declaring(_) => DeclaringHome(s);
    case Linked => RunTwo(s, Mark, Release);
    case Marked => assert Run(s, [Release]) == Next(s, Release);
  }

  /** Nothing moves a loop that is stuck, and nothing closes its gate. */
  lemma {:induction false} StuckForEver(s: State, later: seq<Step>)
    requires Stuck(s)
    ensures var end := Run(s, later);
            && Stuck(end) && end.conn.gate == s.conn.gate && end.conn.closed == s.conn.closed
            && (end.conn.connected ==> s.conn.connected)
    decreases |later|
  {
    if later != [] {
      StuckForEver(Next(s, later[0]), later[1..]);
    }
  }

  lemma StuckWaits(s: State, step: Step, i: nat)
    requires Stuck(s) && s.conn.gate !in s.conn.closed && At(s, i, Waiting(s.conn.gate))
    ensures var next := Next(s, step);
            && Stuck(next) && next.conn.gate == s.conn.gate && next.conn.closed == s.conn.closed
            && (At(next, i, Waiting(s.conn.gate)) || (At(next, i, Gone) && next.conn.stopped))
  {
  }

  lemma StepKeepsGone(s: State, step: Step, i: nat)
    requires At(s, i, Gone) && s.conn.stopped
    ensures At(Next(s, step), i, Gone) && Next(s, step).conn.stopped
  {
  }

  /** Once the link is lost while queues are declared, a subscriber waiting at the gate waits for ever:
      it never passes, and it quits only if the close channel is closed. */
  lemma {:induction false} StuckNeverPasses(s: State, later: seq<Step>, i: nat)
    requires Stuck(s) && s.conn.gate !in s.conn.closed && At(s, i, Waiting(s.conn.gate))
    ensures var end := Run(s, later);
            && end.conn.gate == s.conn.gate && end.conn.gate !in end.conn.closed
            && (At(end, i, Waiting(s.conn.gate)) || (At(end, i, Gone) && end.conn.stopped))
    decreases |later|
  {
    StuckForEver(s, later);
    if later != [] {
      var next := Next(s, later[0]);
      StuckWaits(s, later[0], i);
      if At(next, i, Gone) {
        GoneIsGone(next, later[1..], i);
      } else {
        StuckNeverPasses(next, later[1..], i);
      }
    }
  }

  lemma {:induction false} GoneIsGone(s: State, later: seq<Step>, i: nat)
    requires At(s, i, Gone) && s.conn.stopped
    ensures At(Run(s, later), i, Gone) && Run(s, later).conn.stopped
    decreases |later|
  {
    if later != [] {
      StepKeepsGone(s, later[0], i);
      GoneIsGone(Next(s, later[0]), later[1..], i);
    }
  }

  /** Whoever waits at an open gate can still pass it exactly if the loop is not stuck. */
  lemma WaiterPassesIffNotStuck(s: State, i: nat)
    requires Gated(s) && i < |s.subs| && s.subs[i].place.Waiting? && s.subs[i].place.gate !in s.conn.closed
    ensures (exists later :: At(Run(s, later), i, Past)) <==> !Stuck(s)
  {
    if Stuck(s) {
      forall later
        ensures !At(Run(s, later), i, Past)
      {
        StuckNeverPasses(s, later, i);
      }
    } else {
      var end := Run(s, WayHome(s));
      WayHomeLeadsHome(s);
      RunJoined(s, WayHome(s), [Pass(i)]);
      assert Run(end, [Pass(i)]) == Next(end, Pass(i));
      assert At(Run(s, WayHome(s) + [Pass(i)]), i, Past);
    }
  }

  // ----- stopping -----

  /** The steps that close the close channel: a disconnect, or an attempt that fails with a half-made
      connection, when nothing closed it before. */
  predicate Stops(s: State, step: Step) {
    !s.conn.stopped && (step.Disconnect? || (step.AttemptFailsHalfway? && s.loop.Opening?))
  }

  predicate EverStops(s: State, steps: seq<Step>)
    decreases |steps|
  {
    steps != [] && (Stops(s, steps[0]) || EverStops(Next(s, steps[0]), steps[1..]))
  }

  lemma StepStops(s: State, step: Step)
    ensures Next(s, step).conn.stopped <==> s.conn.stopped || Stops(s, step)
  {
    SubscribersLeaveConn(s, step);
  }

  /** Stopping is final and has no other cause. */
  lemma {:induction false} StoppedIffEverStops(s: State, steps: seq<Step>)
    ensures Run(s, steps).conn.stopped <==> s.conn.stopped || EverStops(s, steps)
    ensures s.conn.stopped ==> !EverStops(s, steps)
    decreases |steps|
  {
    if steps != [] {
      StepStops(s, steps[0]);
      StoppedIffEverStops(Next(s, steps[0]), steps[1..]);
    }
  }

  lemma StepReturns(s: State, step: Step)
    requires s.loop.Returned? ==> s.conn.stopped
    ensures Next(s, step).loop.Returned? ==> Next(s, step).conn.stopped
  {
    SubscribersLeaveConn(s, step);
  }

  lemma {:induction false} ReturnedWasStopped(s: State, steps: seq<Step>)
    requires s.loop.Returned? ==> s.conn.stopped
    ensures Run(s, steps).loop.Returned? ==> Run(s, steps).conn.stopped
    decreases |steps|
  {
    if steps != [] {
      StepReturns(s, steps[0]);
      ReturnedWasStopped(Next(s, steps[0]), steps[1..]);
    }
  }

  lemma {:induction false} DoomedUntilStopped(s: State, more: seq<Step>)
    requires Doomed(s) && !s.conn.stopped && !EverStops(s, more)
    ensures Doomed(Run(s, more))
    decreases |more|
  {
    if more != [] {
      DoomedUntilStopped(Next(s, more[0]), more[1..]);
    }
  }

  /** As long as nothing stops it the loop has not returned; and from within an attempt it can come back to
      watching, without being stopped, exactly if the link is not lost in the middle of the attempt. */
  lemma LoopSurvives(s: State, steps: seq<Step>)
    requires Initial(s) && !EverStops(s, steps)
    ensures var t := Run(s, steps);
            && !t.loop.Returned? && !t.conn.stopped
            && (Between(t) ==>
                  ((exists more :: !EverStops(t, more) && Run(t, more).loop.Watching?)
                   <==> !Stuck(t) && !Doomed(t)))
  {
    var t := Run(s, steps);
    StoppedIffEverStops(s, steps);
    ReturnedWasStopped(s, steps);
    if Stuck(t) || Doomed(t) {
      forall more | !EverStops(t, more)
        ensures !Run(t, more).loop.Watching?
      {
        if Stuck(t) {
          StuckForEver(t, more);
        } else {
          DoomedUntilStopped(t, more);
        }
      }
    } else if Between(t) {
      WayHomeLeadsHome(t);
      StoppedIffEverStops(t, WayHome(t));
      assert !EverStops(t, WayHome(t)) && Run(t, WayHome(t)).loop.Watching?;
    }
  }

  /** The loop's own steps until it looks at the close channel. */
  function WayOut(s: State): seq<Step> {
    WayHome(s) + [Leave]
  }

  lemma WayOutRuns(s: State)
    requires !Stuck(s)
    ensures Run(s, WayOut(s)).loop.Returned? <==> s.loop.Returned? || s.conn.stopped || Doomed(s)
    ensures !s.loop.Returned? && !s.loop.Watching? && !s.loop.Marked? ==> Run(s, WayOut(s)).conn.connected
  {
    var end := Run(s, WayHome(s));
    RunJoined(s, WayHome(s), [Leave]);
    assert Run(end, [Leave]) == Next(end, Leave);
    if Between(s) {
      WayHomeLeadsHome(s);
    }
  }

  /** After any run the loop's own steps make it return exactly if a step of the run stopped it, or the attempt
      it is in must fail half-way, unless it is stuck. */
  lemma LoopEndsIffStopped(s: State, steps: seq<Step>)
    requires Initial(s)
    ensures var t := Run(s, steps);
            Run(t, WayOut(t)).loop.Returned? <==> !Stuck(t) && (EverStops(s, steps) || Doomed(t))
  {
    var t := Run(s, steps);
    StoppedIffEverStops(s, steps);
    ReturnedWasStopped(s, steps);
    if Stuck(t) {
      StuckForEver(t, WayOut(t));
    } else {
      WayOutRuns(t);
    }
  }

  /** Some continuation that does not stop the loop makes it return exactly if the run stopped it, unless the
      loop is stuck. */
  lemma LoopCanEndIffStopped(s: State, steps: seq<Step>)
    requires Initial(s)
    ensures var t := Run(s, steps);
            EverStops(s, steps) && !Stuck(t)
            <==> exists more :: !EverStops(t, more) && Run(t, more).loop.Returned?
  {
    var t := Run(s, steps);
    StoppedIffEverStops(s, steps);
    ReturnedWasStopped(s, steps);
    if EverStops(s, steps) && !Stuck(t) {
      WayOutRuns(t);
      StoppedIffEverStops(t, WayOut(t));
      assert !EverStops(t, WayOut(t)) && Run(t, WayOut(t)).loop.Returned?;
    } else {
      forall more | !EverStops(t, more)
        ensures !Run(t, more).loop.Returned?
      {
        if Stuck(t) {
          StuckForEver(t, more);
        } else {
          StoppedIffEverStops(t, more);
          ReturnedWasStopped(t, more);
        }
      }
    }
  }

  /** One attempt that fails half-way is enough to end reconnecting for good, although nobody ever
      disconnected: the loop returns after the next success, the connection is still marked connected,
      and when the link breaks then, nothing notices. */
  lemma HalfwayFailureEndsReconnecting(s: State, later: seq<Step>)
    requires s.loop.Opening? && !s.conn.stopped
    ensures var failed := Next(s, AttemptFailsHalfway);
            var end := Run(Next(Run(failed, WayOut(failed)), LinkBreaks), later);
            end.loop.Returned? && end.conn.connected && !end.link
  {
    var failed := Next(s, AttemptFailsHalfway);
    WayOutRuns(failed);
    StoppedIffEverStops(failed, WayOut(failed));
    NothingNotices(Next(Run(failed, WayOut(failed)), LinkBreaks), later);
  }

  lemma {:induction false} NothingNotices(s: State, steps: seq<Step>)
    requires s.loop.Returned?
    ensures var end := Run(s, steps);
            && end.loop.Returned? && (end.conn.connected ==> s.conn.connected) && (!s.link ==> !end.link)
            && (s.conn.stopped ==> end.conn == s.conn)
    decreases |steps|
  {
    if steps != [] {
      NothingNotices(Next(s, steps[0]), steps[1..]);
    }
  }

  // ----- disconnecting -----

  /** After a disconnect the connection stays down in every schedule, also in those that end with the loop
      returned, exactly if the loop has returned already or is stuck: any other may notice the broken link
      before the close channel, connect again, and only then return. */
  lemma StaysDownIff(s: State)
    requires s.conn.stopped && !s.conn.connected
    ensures (forall later :: !Run(s, later).conn.connected) <==> s.loop.Returned? || Stuck(s)
    ensures (forall later :: Run(s, later).loop.Returned? ==> !Run(s, later).conn.connected)
            <==> s.loop.Returned? || Stuck(s)
  {
    if s.loop.Returned? || Stuck(s) {
      forall later
        ensures !Run(s, later).conn.connected
      {
        if Stuck(s) {
          StuckForEver(s, later);
        } else {
          NothingNotices(s, later);
        }
      }
    } else {
      ComesBack(s);
      assert Run(s, WayBack(s)).conn.connected;
    }
  }

  /** A schedule that connects again: a loop that watches, or is about to, notices a broken link first. */
  function WayBack(s: State): seq<Step> {
    if s.loop.Watching? || s.loop.Marked? then
      [Release, LinkBreaks, Notice] + WayOut(Next(Next(Next(s, Release), LinkBreaks), Notice))
    else
      WayOut(s)
  }

  lemma ComesBack(s: State)
    requires !s.loop.Returned? && !Stuck(s) && s.conn.stopped
    ensures Run(s, WayBack(s)).loop.Returned? && Run(s, WayBack(s)).conn.connected
  {
    if s.loop.Watching? || s.loop.Marked? {
      var t := Next(Next(Next(s, Release), LinkBreaks), Notice);
      RunThree(s, Release, LinkBreaks, Notice);
      RunJoined(s, [Release, LinkBreaks, Notice], WayOut(t));
      WayOutRuns(t);
    } else {
      WayOutRuns(s);
    }
  }

  /** A disconnect of a service that nothing stopped before: some schedule brings the connection back and leaves
      it marked connected when the loop returns, exactly unless queues are left to declare at that moment. */
  lemma DisconnectMayLeaveConnection(s: State, steps: seq<Step>)
    requires Initial(s) && !EverStops(s, steps)
    ensures var t := Run(s, steps);
            var off := Next(t, Disconnect);
            && !off.conn.connected
            && ((exists later :: Run(off, later).loop.Returned? && Run(off, later).conn.connected)
                <==> !(t.loop.Declaring? && t.loop.left > 0))
  {
    LoopSurvives(s, steps);
    StaysDownIff(Next(Run(s, steps), Disconnect));
  }

  /** The input: the link breaks, the next dial succeeds, and somebody disconnects while a queue is being
      declared. From then on the loop never returns and never connects. */
  lemma DisconnectWhileDeclaring(s: State, later: seq<Step>)
    requires Initial(s) && s.conn.queues > 0
    ensures var steps := [LinkBreaks, Notice, Dials] + [Opens, Disconnect];
            var end := Run(Run(s, steps), later);
            EverStops(s, steps) && !end.loop.Returned? && !end.conn.connected && end.conn.gate !in end.conn.closed
  {
    var steps := [LinkBreaks, Notice, Dials] + [Opens, Disconnect];
    var dialled := Next(Next(Next(s, LinkBreaks), Notice), Dials);
    RunJoined(s, [LinkBreaks, Notice, Dials], [Opens, Disconnect]);
    RunThree(s, LinkBreaks, Notice, Dials);
    RunTwo(dialled, Opens, Disconnect);
    StoppedIffEverStops(s, steps);
    StuckForEver(Run(s, steps), later);
  }

  /** A dial that failed leaves no connection behind, until the next one succeeds. */
  lemma {:induction false} UndialledIsRetrying(s: State, steps: seq<Step>)
    requires !s.dialled ==> s.loop.Retrying?
    ensures !Run(s, steps).dialled ==> Run(s, steps).loop.Retrying?
    decreases |steps|
  {
    if steps != [] {
      UndialledIsRetrying(Next(s, steps[0]), steps[1..]);
    }
  }

  /** Did the last dial of the run fail? */
  predicate LastDialFailed(s: State, steps: seq<Step>)
    decreases |steps|
  {
    if steps == [] then false
    else
      var last := steps[|steps| - 1];
      var before := Run(s, steps[..|steps| - 1]);
      if before.loop.Retrying? && (last.DialFails? || last.Dials?) then last.DialFails?
      else LastDialFailed(s, steps[..|steps| - 1])
  }

  lemma {:induction false} DialledIffLastDialWorked(s: State, steps: seq<Step>)
    requires s.dialled
    ensures Run(s, steps).dialled <==> !LastDialFailed(s, steps)
    decreases |steps|
  {
    if steps != [] {
      var n := |steps| - 1;
      DialledIffLastDialWorked(s, steps[..n]);
      RunJoined(s, steps[..n], [steps[n]]);
      assert steps == steps[..n] + [steps[n]];
      assert Run(Run(s, steps[..n]), [steps[n]]) == Next(Run(s, steps[..n]), steps[n]);
    }
  }

  /** No gate panics, but a disconnect does: it dereferences nil exactly if nothing stopped the service before
      and the last dial failed; the loop is retrying then. */
  lemma DisconnectDereferencesNil(s: State, steps: seq<Step>)
    requires Initial(s)
    ensures var t := Run(s, steps);
            && (!t.dereferenced && Next(t, Disconnect).dereferenced
                <==> !t.dereferenced && !EverStops(s, steps) && LastDialFailed(s, steps))
            && (LastDialFailed(s, steps) ==> t.loop.Retrying?)
  {
    StoppedIffEverStops(s, steps);
    DialledIffLastDialWorked(s, steps);
    UndialledIsRetrying(s, steps);
  }

  // ----- subscribers -----

  lemma LoopLeavesSubscribers(s: State, step: Step)
    ensures LoopNext(s, step).subs == s.subs
  {
  }

  /** A subscriber starts to receive exactly in a check past the gate that finds the connection marked and consumes
      from it; a check that does not sends him back to the top. */
  lemma ConsumesIff(s: State, step: Step, i: nat)
    requires i < |s.subs|
    ensures |Next(s, step).subs| >= |s.subs|
    ensures !s.subs[i].place.Consuming? ==>
              (At(Next(s, step), i, Consuming)
               <==> step == Check(i, true) && s.subs[i].place.Past? && s.conn.connected)
    ensures s.subs[i].place.Past? && step.Check? && step.i == i ==>
              At(Next(s, step), i, if s.conn.connected && step.consumes then Consuming else Top)
  {
    LoopLeavesSubscribers(s, step);
  }

  /** A waiting subscriber passes when his gate is closed and may quit when the close channel is; one that receives goes
      back to the top when the deliveries end. Nothing else moves them. */
  lemma WaitsUntil(s: State, step: Step, i: nat)
    requires i < |s.subs|
    ensures s.subs[i].place.Waiting? ==>
              var next := Next(s, step).subs[i].place;
              && (next == Past <==> step == Pass(i) && s.subs[i].place.gate in s.conn.closed)
              && (next == Gone <==> step == Quit(i) && s.conn.stopped)
              && (next == Past || next == Gone || next == s.subs[i].place)
    ensures s.subs[i].place.Consuming? ==>
              At(Next(s, step), i, if step == Ends(i) then Top else Consuming)
  {
    LoopLeavesSubscribers(s, step);
  }

  lemma NewSubscriberWaits(s: State)
    ensures var t := Next(Next(s, Subscribe), Enter(|s.subs|));
            t == s.(subs := s.subs + [Subscriber(Waiting(s.conn.gate), true)])
  {
    assert s.subs + [Subscriber(Waiting(s.conn.gate), true)]
        == (s.subs + [Subscriber(Top, true)])[|s.subs| := Subscriber(Waiting(s.conn.gate), true)];
  }

  lemma WaiterConsumes(s: State, i: nat)
    requires At(s, i, Waiting(s.conn.gate)) && s.conn.gate in s.conn.closed && s.conn.connected
    ensures At(Next(Next(s, Pass(i)), Check(i, true)), i, Consuming)
  {
  }

  /** While the loop watches a marked connection a new subscriber gets through to it. */
  lemma NewSubscriberConsumes(s: State)
    requires Gated(s) && s.loop.Watching? && s.conn.connected
    ensures var i := |s.subs|;
            At(Run(s, [Subscribe, Enter(i)] + [Pass(i), Check(i, true)]), i, Consuming)
  {
    var i := |s.subs|;
    var t := Next(Next(s, Subscribe), Enter(i));
    NewSubscriberWaits(s);
    WaiterConsumes(t, i);
    RunJoined(s, [Subscribe, Enter(i)], [Pass(i), Check(i, true)]);
    RunTwo(s, Subscribe, Enter(i));
    RunTwo(t, Pass(i), Check(i, true));
  }

  /** Leaving: an unsubscribed subscriber does not run any more, and of those that are neither waiting nor past a gate,
      or are at the top of their loop, none ever waits again. */
  ghost predicate Leaving(s: State, i: nat) {
    i < |s.subs| && !s.subs[i].mayRun && (s.subs[i].place.Top? || s.subs[i].place.Consuming? || s.subs[i].place.Gone?)
  }

  lemma UnsubscribeStops(s: State, i: nat)
    requires i < |s.subs|
    ensures var t := Next(s, Unsubscribe(i));
            t == s.(subs := s.subs[i := s.subs[i].(mayRun := false)])
  {
  }

  lemma StepKeepsLeaving(s: State, step: Step, i: nat)
    requires Leaving(s, i)
    ensures Leaving(Next(s, step), i)
    ensures At(s, i, Gone) ==> At(Next(s, step), i, Gone)
    ensures At(s, i, Top) && step == Enter(i) ==> At(Next(s, step), i, Gone)
  {
  }

  /** An unsubscribed subscriber that is not between the gate and its check never waits at a gate again. */
  lemma {:induction false} LeavingForEver(s: State, steps: seq<Step>, i: nat)
    requires Leaving(s, i)
    ensures Leaving(Run(s, steps), i)
    decreases |steps|
  {
    if steps != [] {
      StepKeepsLeaving(s, steps[0], i);
      LeavingForEver(Next(s, steps[0]), steps[1..], i);
    }
  }

  // ----- the loop and its record as an object -----

  /** What the loop observes: how an attempt ends, or which channel its select finds ready. */
  datatype Signal = NoServer | DialFailure | HalfwayFailure | Success | PeerClosed | CloseSignalled

  predicate Expected(s: State, signal: Signal) {
    match signal
    case PeerClosed => s.loop.Watching? && !s.link
    case CloseSignalled => s.loop.Watching? && s.conn.stopped
    case _ => s.loop.Retrying?
  }

  /** The steps the loop takes for a signal. */
  function StepsFor(s: State, signal: Signal): seq<Step> {
    match signal
    case NoServer => [NotFound]
    case DialFailure => [DialFails]
    case HalfwayFailure => [Dials, AttemptFailsHalfway]
    case Success => WayHome(s)
    case PeerClosed => [Notice]
    case CloseSignalled => [Leave]
  }

  class RabbitMQConn {
    const queues: nat
    var connected: bool
    var waitConnection: nat
    var made: nat
    var closed: set<nat>
    var stopped: bool
    var panicked: bool
    var dialled: bool

    constructor (queues: nat)
      ensures View() == NewConn(queues) && !dialled
    {
      this.queues := queues;
      connected, waitConnection, made, closed, stopped, panicked := false, 0, 1, {0}, false, false;
      dialled := false;
    }

    function View(): Conn
      reads this
    {
      Conn(queues, connected, waitConnection, made, closed, stopped, panicked)
    }

    method CloseWaitConnection()
      modifies this
      ensures View() == CloseGate(old(View())) && dialled == old(dialled)
    {
      if waitConnection in closed {
        panicked := true;
      } else {
        closed := closed + {waitConnection};
      }
    }

    method LoseConnection()
      modifies this
      ensures View() == NewGate(old(View())) && dialled == old(dialled)
    {
      connected := false;
      waitConnection := made;
      made := made + 1;
    }

    /** Closing a second time is harmless; the first time the connection is closed, which must be there. */
    method Close() returns (dereferenced: bool)
      modifies this
      ensures View() == Stop(old(View())) && dialled == old(dialled)
      ensures dereferenced <==> !old(stopped) && !dialled
    {
      if stopped {
        return false;
      }
      stopped := true;
      connected := false;
      return !dialled;
    }

    /** One round of the reconnect loop, from the state `s` of the whole system. */
    method Round(ghost s: State, connect: bool, signal: Signal) returns (again: bool, returned: bool)
      requires s.conn == View() && s.dialled == dialled && Expected(s, signal) && (connect <==> s.loop.Retrying?)
      modifies this
      ensures Run(s, StepsFor(s, signal)).conn == View()
      ensures signal != Success ==> Run(s, StepsFor(s, signal)).dialled == dialled
      ensures again <==> Run(s, StepsFor(s, signal)).loop.Retrying?
      ensures returned <==> Run(s, StepsFor(s, signal)).loop.Returned?
    {
      again, returned := connect, false;
      match signal {
        case NoServer =>
        case DialFailure =>
          dialled := false;
        case HalfwayFailure =>
          RunTwo(s, Dials, AttemptFailsHalfway);
          dialled := true;
          var dereferenced := Close();
        case Success =>
          WayHomeLeadsHome(s);
          dialled := true;
          connected := true;
          CloseWaitConnection();
          again := false;
        case PeerClosed =>
          LoseConnection();
          again := true;
        case CloseSignalled =>
          returned := true;
      }
    }
  }
}
