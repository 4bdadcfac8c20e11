/** A session's output on its way to the terminal: held behind a gate until the terminal is ready, then
    coalesced so that bursts leave once per window, with the close message kept behind the bytes. */
module TerminalOutput {
  import opened Outcomes

  const MAX_BUFFERED: nat := 1024 * 1024
  const MAX_BATCH: nat := 256 * 1024

  newtype Byte = b: int | 0 <= b < 256

  type Bytes = seq<Byte>

  datatype Message = Raw(bytes: Bytes) | Close(clean: bool)

  /** Why a flush happened. Only `Quiet` and `Timer` flushes are held to the window. */
  datatype Cause = Quiet | Timer | Batch | Release | Closing

  datatype Sent = Sent(sink: nat, message: Message, at: nat, cause: Cause)

  /** Where a stretch of output ended up. */
  datatype Fate = Delivered(bytes: Bytes) | Dropped(bytes: Bytes)

  /** The stream's own fields, then its surroundings (clock, outstanding timers, what the sinks
      received), then history: everything ever given, the fate of what has left, and the length of
      `log` when the present sink was attached. */
  datatype State = State(
    window: nat, sink: Option<nat>, gated: bool, pending: Bytes, heldClose: Option<bool>,
    flushScheduled: bool, lastSend: Option<nat>,
    now: nat, timers: seq<nat>, log: seq<Sent>,
    given: Bytes, ledger: seq<Fate>, mark: nat)

  datatype Event =
    | Output(data: Bytes) | Closed(clean: bool) | Released | Attach(id: nat) | Detach(id: nat)
    | Fire(timer: nat) | Elapse(ticks: nat)

  function New(gated: bool, window: nat): State {
    State(window, None, gated, [], None, false, None, 0, [], [], [], [], 0)
  }

  function Flushed(s: State, cause: Cause): State {
    if s.pending == [] then s
    else if s.sink.None? then s.(pending := [], ledger := s.ledger + [Dropped(s.pending)])
    else s.(pending := [], lastSend := Some(s.now), ledger := s.ledger + [Delivered(s.pending)],
            log := s.log + [Sent(s.sink.value, Raw(s.pending), s.now, cause)])
  }

  function Finished(s: State, clean: bool): State {
    var s' := Flushed(s, Closing);
    if s'.sink.None? then s' else s'.(log := s'.log + [Sent(s'.sink.value, Close(clean), s'.now, Closing)])
  }

  function Opened(s: State): State {
    if !s.gated then s
    else
      var s' := s.(gated := false, heldClose := None);
      if s.heldClose.Some? then Finished(s', s.heldClose.value) else Flushed(s', Release)
  }

  function Taken(s: State, data: Bytes): State {
    s.(given := s.given + data, pending := s.pending + data)
  }

  function Received(s: State, data: Bytes): State {
    var g, p := s.(given := s.given + data), Taken(s, data);
    if s.gated then if |p.pending| >= MAX_BUFFERED then Opened(p) else p
    else if s.sink.None? then if data == [] then g else g.(ledger := s.ledger + [Dropped(data)])
    else if |p.pending| >= MAX_BATCH then Flushed(p, Batch)
    else if s.flushScheduled then p
    else if s.lastSend.Some? && s.now < s.lastSend.value + s.window then
      p.(flushScheduled := true, timers := s.timers + [s.lastSend.value + s.window])
    else Flushed(p, Quiet)
  }

  /** A timer runs no earlier than its deadline; an early or unknown one does nothing. */
  function Fired(s: State, i: nat): State {
    if i < |s.timers| && s.timers[i] <= s.now
    then Flushed(s.(timers := s.timers[..i] + s.timers[i + 1..], flushScheduled := false), Timer)
    else s
  }

  function Step(s: State, e: Event): State {
    match e
    case Output(data) => Received(s, data)
    case Closed(clean) => if s.gated then s.(heldClose := Some(clean)) else Finished(s, clean)
    case Released => Opened(s)
    case Attach(id) => s.(sink := Some(id), lastSend := None, mark := |s.log|)
    case Detach(id) =>
      if s.sink != Some(id) then s
      else s.(sink := None, pending := [],
              ledger := if s.pending == [] then s.ledger else s.ledger + [Dropped(s.pending)])
    case Fire(i) => Fired(s, i)
    case Elapse(ticks) => s.(now := s.now + ticks)
  }

  function Run(s: State, es: seq<Event>): State {
    if es == [] then s else Step(Run(s, es[..|es| - 1]), es[|es| - 1])
  }

  // ---------- what every reachable state keeps ----------

  /** Bounded buffers, and no bytes stuck: whatever is pending behind an open gate has a sink to go to
      and exactly one timer, due within a window. */
  ghost predicate Shape(s: State) {
    && |s.timers| == (if s.flushScheduled then 1 else 0)
    && (s.flushScheduled ==> s.timers[0] <= s.now + s.window)
    && (s.lastSend.Some? ==> s.lastSend.value <= s.now)
    && (s.gated ==> |s.pending| < MAX_BUFFERED && s.log == [] && !s.flushScheduled)
    && (!s.gated ==> |s.pending| < MAX_BATCH && s.heldClose.None?)
    && (!s.gated && s.pending != [] ==> s.flushScheduled && s.sink.Some?)
  }

  lemma {:induction false} ReceiveKeepsShape(s: State, data: Bytes)
    requires Shape(s)
    ensures Shape(Received(s, data))
  {
  }

  lemma {:induction false} StepKeepsShape(s: State, e: Event)
    requires Shape(s)
    ensures Shape(Step(s, e))
  {
    if e.Output? {
      ReceiveKeepsShape(s, e.data);
    }
  }

  lemma {:induction false} RunKeepsShape(gated: bool, window: nat, es: seq<Event>)
    ensures Shape(Run(New(gated, window), es))
  {
    if es == [] {
    } else {
      RunKeepsShape(gated, window, es[..|es| - 1]);
      StepKeepsShape(Run(New(gated, window), es[..|es| - 1]), es[|es| - 1]);
    }
  }

  /** The timer, once due, empties the stream. */
  lemma {:induction false} DueTimerDrains(s: State)
    requires Shape(s) && !s.gated && s.pending != []
    ensures var s' := Step(Step(s, Elapse(s.window)), Fire(0));
            && s'.pending == [] && s'.timers == []
            && s'.log == s.log + [Sent(s.sink.value, Raw(s.pending), s.now + s.window, Timer)]
  {
  }

  // ---------- the gate and the close ----------

  /** Nothing is sent while gated and the gate never closes again. */
  lemma {:induction false} GateOpensOnce(s: State, e: Event)
    requires Shape(s)
    ensures !s.gated ==> !Step(s, e).gated
    ensures Step(s, e).gated ==> Step(s, e).log == []
  {
    StepKeepsShape(s, e);
  }

  /** The close message an event sends, if any. */
  function ClosesWith(s: State, e: Event): Option<bool> {
    if s.sink.None? then None
    else
      match e
      case Closed(clean) => if s.gated then None else Some(clean)
      case Released => if s.gated then s.heldClose else None
      case Output(data) => if s.gated && |s.pending| + |data| >= MAX_BUFFERED then s.heldClose else None
      case _ => None
  }

  function Farewell(sink: nat, at: nat, waiting: Bytes, clean: bool): seq<Sent> {
    (if waiting == [] then [] else [Sent(sink, Raw(waiting), at, Closing)]) + [Sent(sink, Close(clean), at, Closing)]
  }

  lemma {:induction false} FinishSends(s: State, clean: bool)
    ensures s.sink.Some? ==>
              Finished(s, clean).log == s.log + Farewell(s.sink.value, s.now, s.pending, clean)
    ensures s.sink.None? ==> Finished(s, clean).log == s.log
    ensures Finished(s, clean).pending == []
  {
  }

  /** A close goes out right behind every byte given before it and still waiting, in one step, so it
      never overtakes output; no other event sends one. */
  lemma {:induction false} CloseNeverOvertakes(s: State, e: Event)
    requires Shape(s)
    ensures var s' := Step(s, e);
            var waiting := if e.Output? then s.pending + e.data else s.pending;
            match ClosesWith(s, e)
            case Some(clean) => s'.pending == [] && s'.log == s.log + Farewell(s.sink.value, s.now, waiting, clean)
            case None => s'.log == s.log || exists m: Sent :: m.message.Raw? && s'.log == s.log + [m]
  {
    var p := if e.Output? then Taken(s, e.data) else s;
    if e.Closed? {
      FinishSends(s, e.clean);
    } else if s.heldClose.Some? {
      FinishSends(p.(gated := false, heldClose := None), s.heldClose.value);
    }
  }

  // ---------- conservation ----------

  /** All bytes that have left `pending`, in the order given. */
  function Spent(fates: seq<Fate>): Bytes {
    if fates == [] then [] else Spent(fates[..|fates| - 1]) + fates[|fates| - 1].bytes
  }

  function Kept(fates: seq<Fate>): Bytes {
    if fates == [] then []
    else
      var f := fates[|fates| - 1];
      Kept(fates[..|fates| - 1]) + if f.Delivered? then f.bytes else []
  }

  function LostCount(fates: seq<Fate>): nat {
    if fates == [] then 0
    else
      var f := fates[|fates| - 1];
      LostCount(fates[..|fates| - 1]) + if f.Dropped? then |f.bytes| else 0
  }

  /** What the sinks received, all of them together, in order. */
  function DeliveredBytes(log: seq<Sent>): Bytes {
    if log == [] then []
    else
      var m := log[|log| - 1].message;
      DeliveredBytes(log[..|log| - 1]) + if m.Raw? then m.bytes else []
  }

  lemma {:induction false} FateAdded(fates: seq<Fate>, f: Fate)
    ensures Spent(fates + [f]) == Spent(fates) + f.bytes
    ensures Kept(fates + [f]) == Kept(fates) + if f.Delivered? then f.bytes else []
    ensures LostCount(fates + [f]) == LostCount(fates) + if f.Dropped? then |f.bytes| else 0
  {
    assert (fates + [f])[..|fates|] == fates;
  }

  lemma {:induction false} SentAdded(log: seq<Sent>, m: Sent)
    ensures DeliveredBytes(log + [m]) == DeliveredBytes(log) + if m.message.Raw? then m.message.bytes else []
  {
    assert (log + [m])[..|log|] == log;
  }

  /** Every byte given is pending, delivered or dropped, each once and in order. */
  ghost predicate Conserved(s: State) {
    && Spent(s.ledger) + s.pending == s.given
    && DeliveredBytes(s.log) == Kept(s.ledger)
  }

  lemma {:induction false} FlushConserves(s: State, cause: Cause)
    requires Conserved(s)
    ensures Conserved(Flushed(s, cause))
    ensures LostCount(Flushed(s, cause).ledger) == LostCount(s.ledger) + if s.sink.None? then |s.pending| else 0
  {
    if s.pending != [] {
      FateAdded(s.ledger, if s.sink.None? then Dropped(s.pending) else Delivered(s.pending));
      if s.sink.Some? {
        SentAdded(s.log, Sent(s.sink.value, Raw(s.pending), s.now, cause));
      }
    }
  }

  lemma {:induction false} FinishConserves(s: State, clean: bool)
    requires Conserved(s)
    ensures Conserved(Finished(s, clean))
    ensures LostCount(Finished(s, clean).ledger) == LostCount(s.ledger) + if s.sink.None? then |s.pending| else 0
  {
    FlushConserves(s, Closing);
    var s' := Flushed(s, Closing);
    if s'.sink.Some? {
      SentAdded(s'.log, Sent(s'.sink.value, Close(clean), s'.now, Closing));
    }
  }

  lemma {:induction false} OpenConserves(s: State)
    requires Conserved(s)
    ensures Conserved(Opened(s))
    ensures LostCount(Opened(s).ledger) == LostCount(s.ledger) + if s.gated && s.sink.None? then |s.pending| else 0
  {
    var s' := s.(gated := false, heldClose := None);
    if s.heldClose.Some? {
      FinishConserves(s', s.heldClose.value);
    } else {
      FlushConserves(s', Release);
    }
  }

  /** The bytes an event loses, read off the state before it: output that meets an open gate with no
      sink behind it, and whatever is pending when the attached sink is detached. */
  function Loss(s: State, e: Event): nat {
    match e
    case Output(data) =>
      if s.sink.Some? then 0
      else if !s.gated then |data|
      else if |s.pending| + |data| >= MAX_BUFFERED then |s.pending| + |data| else 0
    case Released => if s.gated && s.sink.None? then |s.pending| else 0
    case Detach(id) => if s.sink == Some(id) then |s.pending| else 0
    case _ => 0
  }

  lemma {:induction false} TakingConserves(s: State, data: Bytes)
    requires Conserved(s)
    ensures Conserved(Taken(s, data))
  {
    assert Spent(s.ledger) + (s.pending + data) == s.given + data;
  }

  lemma {:induction false} DropConserves(s: State, data: Bytes)
    requires Conserved(s) && s.pending == [] && !s.gated && s.sink.None?
    ensures Conserved(Received(s, data))
    ensures LostCount(Received(s, data).ledger) == LostCount(s.ledger) + |data|
  {
    FateAdded(s.ledger, Dropped(data));
  }

  lemma {:induction false} ReceiveConserves(s: State, data: Bytes)
    requires Shape(s) && Conserved(s)
    ensures Conserved(Received(s, data))
    ensures LostCount(Received(s, data).ledger) == LostCount(s.ledger) + Loss(s, Output(data))
  {
    var p, r := Taken(s, data), Received(s, data);
    TakingConserves(s, data);
    if s.gated {
      OpenConserves(p);
      assert r == p || r == Opened(p);
    } else if s.sink.None? {
      DropConserves(s, data);
    } else {
      var cause := if |p.pending| >= MAX_BATCH then Batch else Quiet;
      FlushConserves(p, cause);
      assert r == Flushed(p, cause)
             || (r.ledger == p.ledger && r.log == p.log && r.pending == p.pending && r.given == p.given);
    }
  }

  lemma {:induction false} DetachConserves(s: State, id: nat)
    requires Conserved(s)
    ensures Conserved(Step(s, Detach(id)))
    ensures LostCount(Step(s, Detach(id)).ledger) == LostCount(s.ledger) + Loss(s, Detach(id))
  {
    FateAdded(s.ledger, Dropped(s.pending));
  }

  lemma {:induction false} FireConserves(s: State, i: nat)
    requires Shape(s) && Conserved(s)
    ensures Conserved(Fired(s, i)) && LostCount(Fired(s, i).ledger) == LostCount(s.ledger)
  {
    if i < |s.timers| {
      FlushConserves(s.(timers := s.timers[..i] + s.timers[i + 1..], flushScheduled := false), Timer);
    }
  }

  lemma {:induction false} StepConserves(s: State, e: Event)
    requires Shape(s) && Conserved(s)
    ensures Conserved(Step(s, e))
    ensures LostCount(Step(s, e).ledger) == LostCount(s.ledger) + Loss(s, e)
  {
    match e
    case Output(data) => ReceiveConserves(s, data);
    case Closed(clean) => FinishConserves(s, clean);
    case Released => OpenConserves(s);
    case Detach(id) => DetachConserves(s, id);
    case Fire(i) => FireConserves(s, i);
    case _ =>
  }

  function TotalLoss(s: State, es: seq<Event>): nat {
    if es == [] then 0 else TotalLoss(s, es[..|es| - 1]) + Loss(Run(s, es[..|es| - 1]), es[|es| - 1])
  }

  lemma {:induction false} RunConserves(gated: bool, window: nat, es: seq<Event>)
    ensures var s := Run(New(gated, window), es);
            Conserved(s) && LostCount(s.ledger) == TotalLoss(New(gated, window), es)
  {
    if es == [] {
    } else {
      RunConserves(gated, window, es[..|es| - 1]);
      RunKeepsShape(gated, window, es[..|es| - 1]);
      StepConserves(Run(New(gated, window), es[..|es| - 1]), es[|es| - 1]);
    }
  }

  lemma {:induction false} KeptCount(fates: seq<Fate>)
    ensures |Kept(fates)| + LostCount(fates) == |Spent(fates)|
    ensures LostCount(fates) == 0 ==> Kept(fates) == Spent(fates)
  {
    if fates == [] {
    } else {
      KeptCount(fates[..|fates| - 1]);
    }
  }

  /** Over every run: the sinks received, with what is pending, exactly the bytes given in order, if
      and only if no event of the run was one that loses bytes. */
  lemma {:induction false} OutputIsConserved(gated: bool, window: nat, es: seq<Event>)
    ensures var s := Run(New(gated, window), es);
            DeliveredBytes(s.log) + s.pending == s.given <==> TotalLoss(New(gated, window), es) == 0
  {
    RunConserves(gated, window, es);
    var s := Run(New(gated, window), es);
    KeptCount(s.ledger);
    if TotalLoss(New(gated, window), es) != 0 {
      assert |DeliveredBytes(s.log) + s.pending| < |s.given|;
    }
  }

  /** No event of the run detaches the sink that is attached at that moment; stale detaches may come. */
  ghost predicate KeepsItsSink(s: State, es: seq<Event>) {
    forall i | 0 <= i < |es| :: es[i].Detach? ==> Run(s, es[..i]).sink != Some(es[i].id)
  }

  lemma {:induction false} KeepsItsSinkBefore(s: State, es: seq<Event>)
    requires KeepsItsSink(s, es) && es != []
    ensures var (init, e) := (es[..|es| - 1], es[|es| - 1]);
            KeepsItsSink(s, init) && (e.Detach? ==> Run(s, init).sink != Some(e.id))
  {
    var init := es[..|es| - 1];
    forall i | 0 <= i < |init| ensures init[i].Detach? ==> Run(s, init[..i]).sink != Some(init[i].id) {
      assert init[i] == es[i] && init[..i] == es[..i];
    }
    assert es[|es| - 1].Detach? ==> Run(s, es[..|es| - 1]).sink != Some(es[|es| - 1].id);
  }

  /** Up to the last moment the gate is shut, nothing is lost but by a detach. */
  lemma {:induction false} NothingLostWhileGated(window: nat, es: seq<Event>)
    requires Run(New(true, window), es).gated && KeepsItsSink(New(true, window), es)
    ensures TotalLoss(New(true, window), es) == 0
  {
    if es == [] {
    } else {
      var init, e := es[..|es| - 1], es[|es| - 1];
      RunKeepsShape(true, window, init);
      GateOpensOnce(Run(New(true, window), init), e);
      KeepsItsSinkBefore(New(true, window), es);
      NothingLostWhileGated(window, init);
    }
  }

  lemma {:induction false} NothingLostWhileAttached(s: State, es: seq<Event>)
    requires s.sink.Some? && KeepsItsSink(s, es)
    ensures Run(s, es).sink.Some? && TotalLoss(s, es) == 0
  {
    if es == [] {
    } else {
      var init, e := es[..|es| - 1], es[|es| - 1];
      KeepsItsSinkBefore(s, es);
      NothingLostWhileAttached(s, init);
      SinkStays(Run(s, init), e);
    }
  }

  lemma {:induction false} SinkStays(s: State, e: Event)
    requires s.sink.Some? && (e.Detach? ==> s.sink != Some(e.id))
    ensures Step(s, e).sink.Some? && Loss(s, e) == 0
  {
  }

  lemma {:induction false} RunSplits(s: State, before: seq<Event>, after: seq<Event>)
    ensures Run(s, before + after) == Run(Run(s, before), after)
    ensures TotalLoss(s, before + after) == TotalLoss(s, before) + TotalLoss(Run(s, before), after)
  {
    if after == [] {
      assert before + after == before;
    } else {
      assert (before + after)[..|before + after| - 1] == before + after[..|after| - 1];
      RunSplits(s, before, after[..|after| - 1]);
    }
  }

  /** A stream with a sink from before the gate opens, replaced by others maybe but never left without
      one, loses nothing: its sinks together receive everything given, in order. */
  lemma {:induction false} AttachedInTimeLosesNothing(window: nat, before: seq<Event>, id: nat, after: seq<Event>)
    requires Run(New(true, window), before).gated && KeepsItsSink(New(true, window), before)
    requires KeepsItsSink(Step(Run(New(true, window), before), Attach(id)), after)
    ensures var s := Run(New(true, window), before + ([Attach(id)] + after));
            DeliveredBytes(s.log) + s.pending == s.given
  {
    var s, es := Run(New(true, window), before), [Attach(id)] + after;
    NothingLostWhileGated(window, before);
    RunSplits(New(true, window), before, es);
    RunSplits(s, [Attach(id)], after);
    RunOfOne(s, Attach(id));
    NothingLostWhileAttached(Step(s, Attach(id)), after);
    OutputIsConserved(true, window, before + es);
  }

  lemma {:induction false} RunOfOne(s: State, e: Event)
    ensures Run(s, [e]) == Step(s, e) && TotalLoss(s, [e]) == Loss(s, e)
  {
    assert [e][..0] == [] && Run(s, []) == s;
  }

  // ---------- closes ----------

  function ClosesSent(log: seq<Sent>): nat {
    if log == [] then 0 else ClosesSent(log[..|log| - 1]) + if log[|log| - 1].message.Close? then 1 else 0
  }

  lemma {:induction false} CloseAdded(log: seq<Sent>, m: Sent)
    ensures ClosesSent(log + [m]) == ClosesSent(log) + if m.message.Close? then 1 else 0
  {
    assert (log + [m])[..|log|] == log;
  }

  function Held(s: State): nat {
    if s.heldClose.Some? then 1 else 0
  }

  /** The closes an event loses, read off the state before it: a held one that a further one takes the
      place of, and one that is due while no sink is attached. */
  function CloseLoss(s: State, e: Event): nat {
    match e
    case Closed(_) => if s.gated then Held(s) else if s.sink.None? then 1 else 0
    case Released => if s.gated && s.sink.None? then Held(s) else 0
    case Output(data) => if s.gated && s.sink.None? && |s.pending| + |data| >= MAX_BUFFERED then Held(s) else 0
    case _ => 0
  }

  lemma {:induction false} FlushSendsNoClose(s: State, cause: Cause)
    ensures ClosesSent(Flushed(s, cause).log) == ClosesSent(s.log) && Flushed(s, cause).heldClose == s.heldClose
  {
    if s.sink.Some? {
      CloseAdded(s.log, Sent(s.sink.value, Raw(s.pending), s.now, cause));
    }
  }

  lemma {:induction false} FinishSendsClose(s: State, clean: bool)
    ensures ClosesSent(Finished(s, clean).log) == ClosesSent(s.log) + if s.sink.Some? then 1 else 0
    ensures Finished(s, clean).heldClose == s.heldClose
  {
    FlushSendsNoClose(s, Closing);
    var s' := Flushed(s, Closing);
    if s.sink.Some? {
      CloseAdded(s'.log, Sent(s.sink.value, Close(clean), s'.now, Closing));
    }
  }

  lemma {:induction false} OpenSettlesClose(s: State)
    requires s.gated
    ensures Opened(s).heldClose.None?
    ensures ClosesSent(Opened(s).log) == ClosesSent(s.log) + if s.sink.Some? then Held(s) else 0
  {
    var s' := s.(gated := false, heldClose := None);
    if s.heldClose.Some? {
      FinishSendsClose(s', s.heldClose.value);
    } else {
      FlushSendsNoClose(s', Release);
    }
  }

  lemma {:induction false} ReceiveBalancesCloses(s: State, data: Bytes)
    requires Shape(s)
    ensures ClosesSent(Received(s, data).log) + Held(Received(s, data)) + CloseLoss(s, Output(data))
            == ClosesSent(s.log) + Held(s)
  {
    var p := Taken(s, data);
    if s.gated {
      OpenSettlesClose(p);
    } else if s.sink.Some? {
      FlushSendsNoClose(p, Batch);
      FlushSendsNoClose(p, Quiet);
    }
  }

  lemma {:induction false} StepBalancesCloses(s: State, e: Event)
    requires Shape(s)
    ensures ClosesSent(Step(s, e).log) + Held(Step(s, e)) + CloseLoss(s, e)
            == ClosesSent(s.log) + Held(s) + if e.Closed? then 1 else 0
  {
    match e
    case Output(data) => ReceiveBalancesCloses(s, data);
    case Closed(clean) => FinishSendsClose(s, clean);
    case Released =>
      if s.gated {
        OpenSettlesClose(s);
      }
    case Fire(i) =>
      if i < |s.timers| {
        FlushSendsNoClose(s.(timers := s.timers[..i] + s.timers[i + 1..], flushScheduled := false), Timer);
      }
    case _ =>
  }

  function ClosesGiven(es: seq<Event>): nat {
    if es == [] then 0 else ClosesGiven(es[..|es| - 1]) + if es[|es| - 1].Closed? then 1 else 0
  }

  function TotalCloseLoss(s: State, es: seq<Event>): nat {
    if es == [] then 0
    else TotalCloseLoss(s, es[..|es| - 1]) + CloseLoss(Run(s, es[..|es| - 1]), es[|es| - 1])
  }

  /** Over every run: each close given has been sent, is held, was replaced while held, or fell due
      without a sink; none is sent twice. */
  lemma {:induction false} ClosesAreAccountedFor(gated: bool, window: nat, es: seq<Event>)
    ensures var s := Run(New(gated, window), es);
            ClosesSent(s.log) + Held(s) + TotalCloseLoss(New(gated, window), es) == ClosesGiven(es)
  {
    if es == [] {
    } else {
      var init, e := es[..|es| - 1], es[|es| - 1];
      ClosesAreAccountedFor(gated, window, init);
      RunKeepsShape(gated, window, init);
      StepBalancesCloses(Run(New(gated, window), init), e);
    }
  }

  // ---------- one sink ----------

  /** Between `s` and `s'` the sink `id` and no other was sent, in order, what was pending and what was
      given, but for what is pending still. */
  ghost predicate Served(s: State, s': State, id: nat) {
    && s.sink == Some(id) && s'.sink == Some(id)
    && s.log <= s'.log && s.given <= s'.given
    && (forall i | |s.log| <= i < |s'.log| :: s'.log[i].sink == id)
    && DeliveredBytes(s'.log[|s.log|..]) + s'.pending == s.pending + s'.given[|s.given|..]
  }

  lemma {:induction false} DeliveredJoins(a: seq<Sent>, b: seq<Sent>)
    ensures DeliveredBytes(a + b) == DeliveredBytes(a) + DeliveredBytes(b)
  {
    if b == [] {
      assert a + b == a;
    } else {
      var init, m := b[..|b| - 1], b[|b| - 1];
      DeliveredJoins(a, init);
      assert a + b == a + init + [m];
      SentAdded(a + init, m);
    }
  }

  lemma {:induction false} ServedOn(s: State, s': State, s'': State, id: nat)
    requires Served(s, s', id) && Served(s', s'', id)
    ensures Served(s, s'', id)
  {
    var first, second := s'.log[|s.log|..], s''.log[|s'.log|..];
    assert s''.log[|s.log|..] == first + second;
    DeliveredJoins(first, second);
    var given, more := s'.given[|s.given|..], s''.given[|s'.given|..];
    assert s''.given[|s.given|..] == given + more;
    Regrouped(DeliveredBytes(first), DeliveredBytes(second), s''.pending, s'.pending, more, s.pending, given);
    forall i | |s.log| <= i < |s''.log| ensures s''.log[i].sink == id {
      assert i < |s'.log| ==> s''.log[i] == s'.log[i];
    }
  }

  lemma {:induction false} Regrouped(a: Bytes, b: Bytes, last: Bytes, middle: Bytes, more: Bytes, first: Bytes,
                                     given: Bytes)
    requires a + middle == first + given && b + last == middle + more
    ensures a + b + last == first + (given + more)
  {
    assert a + b + last == a + (b + last);
    assert a + (middle + more) == (a + middle) + more;
    assert first + (given + more) == (first + given) + more;
  }

  lemma {:induction false} ServedAlike(s: State, s': State, id: nat)
    requires s.sink == Some(id) == s'.sink && s'.log == s.log && s'.given == s.given && s'.pending == s.pending
    ensures Served(s, s', id)
  {
  }

  lemma {:induction false} FlushServes(s: State, cause: Cause, id: nat)
    requires s.sink == Some(id)
    ensures Served(s, Flushed(s, cause), id)
  {
    if s.pending == [] {
      ServedAlike(s, s, id);
    } else {
      SentLast(s.log, Sent(id, Raw(s.pending), s.now, cause));
      assert s.given[|s.given|..] == [];
    }
  }

  lemma {:induction false} SentLast(log: seq<Sent>, m: Sent)
    ensures DeliveredBytes((log + [m])[|log|..]) == if m.message.Raw? then m.message.bytes else []
  {
    assert (log + [m])[|log|..] == [m];
    assert [m][..0] == [] && DeliveredBytes([]) == [];
  }

  lemma {:induction false} FinishServes(s: State, clean: bool, id: nat)
    requires s.sink == Some(id)
    ensures Served(s, Finished(s, clean), id)
  {
    var s' := Flushed(s, Closing);
    FlushServes(s, Closing, id);
    CloseServes(s', clean, id);
    ServedOn(s, s', Finished(s, clean), id);
  }

  lemma {:induction false} CloseServes(s: State, clean: bool, id: nat)
    requires s.sink == Some(id)
    ensures Served(s, s.(log := s.log + [Sent(id, Close(clean), s.now, Closing)]), id)
  {
    SentLast(s.log, Sent(id, Close(clean), s.now, Closing));
    assert s.given[|s.given|..] == [];
  }

  lemma {:induction false} OpenServes(s: State, id: nat)
    requires s.sink == Some(id)
    ensures Served(s, Opened(s), id)
  {
    var s' := s.(gated := false, heldClose := None);
    ServedAlike(s, if s.gated then s' else s, id);
    if s.gated {
      if s.heldClose.Some? {
        FinishServes(s', s.heldClose.value, id);
      } else {
        FlushServes(s', Release, id);
      }
      ServedOn(s, s', Opened(s), id);
    }
  }

  lemma {:induction false} ReceiveServes(s: State, data: Bytes, id: nat)
    requires s.sink == Some(id)
    ensures Served(s, Received(s, data), id)
  {
    var (p, r) := (Taken(s, data), Received(s, data));
    assert Served(s, p, id) by {
      assert p.given[|s.given|..] == data && p.log[|s.log|..] == [];
      assert DeliveredBytes([]) + p.pending == p.pending;
    }
    OpenServes(p, id);
    FlushServes(p, Batch, id);
    FlushServes(p, Quiet, id);
    ServedAlike(p, p.(flushScheduled := r.flushScheduled, timers := r.timers), id);
    assert Served(p, r, id);
    ServedOn(s, p, r, id);
  }

  lemma {:induction false} StepServes(s: State, e: Event, id: nat)
    requires s.sink == Some(id) && !e.Attach? && e != Detach(id)
    ensures Served(s, Step(s, e), id)
  {
    match e
    case Output(data) => ReceiveServes(s, data, id);
    case Closed(clean) =>
      if s.gated {
        ServedAlike(s, Step(s, e), id);
      } else {
        FinishServes(s, clean, id);
      }
    case Released => OpenServes(s, id);
    case Fire(i) =>
      if i < |s.timers| && s.timers[i] <= s.now {
        var s' := s.(timers := s.timers[..i] + s.timers[i + 1..], flushScheduled := false);
        ServedAlike(s, s', id);
        FlushServes(s', Timer, id);
        ServedOn(s, s', Step(s, e), id);
      } else {
        ServedAlike(s, s, id);
      }
    case _ => ServedAlike(s, Step(s, e), id);
  }

  /** From its attach on, until it is replaced or itself detached, a sink receives in order all that was
      pending and all that is given; detaches of other sinks do not disturb it. */
  lemma {:induction false} AttachedSinkIsServed(s: State, id: nat, after: seq<Event>)
    requires forall e | e in after :: !e.Attach? && e != Detach(id)
    ensures Served(Step(s, Attach(id)), Run(Step(s, Attach(id)), after), id)
  {
    var start := Step(s, Attach(id));
    if after == [] {
      ServedAlike(start, start, id);
    } else {
      var init, e := after[..|after| - 1], after[|after| - 1];
      assert e in after && forall x | x in init :: x in after;
      AttachedSinkIsServed(s, id, init);
      StepServes(Run(start, init), e, id);
      ServedOn(start, Run(start, init), Run(start, after), id);
    }
  }

  /** So a sink attached before the gate opens, and neither replaced nor detached since, has received
      everything ever given but what is pending, and no other sink anything. */
  lemma {:induction false} AttachedInTimeReceivesAll(window: nat, before: seq<Event>, id: nat, after: seq<Event>)
    requires Run(New(true, window), before).gated && KeepsItsSink(New(true, window), before)
    requires forall e | e in after :: !e.Attach? && e != Detach(id)
    ensures var s := Run(Step(Run(New(true, window), before), Attach(id)), after);
            DeliveredBytes(s.log) + s.pending == s.given && forall i | 0 <= i < |s.log| :: s.log[i].sink == id
  {
    var s := Run(New(true, window), before);
    GatedHoldsAll(window, before);
    AttachedSinkIsServed(s, id, after);
    ServedFromTheStart(Step(s, Attach(id)), Run(Step(s, Attach(id)), after), id);
  }

  lemma {:induction false} GatedHoldsAll(window: nat, es: seq<Event>)
    requires Run(New(true, window), es).gated && KeepsItsSink(New(true, window), es)
    ensures var s := Run(New(true, window), es); s.log == [] && s.pending == s.given
  {
    NothingLostWhileGated(window, es);
    OutputIsConserved(true, window, es);
    RunKeepsShape(true, window, es);
    var pending := Run(New(true, window), es).pending;
    assert [] + pending == pending;
  }

  lemma {:induction false} ServedFromTheStart(s: State, s': State, id: nat)
    requires Served(s, s', id) && s.log == [] && s.pending == s.given
    ensures DeliveredBytes(s'.log) + s'.pending == s'.given && forall i | 0 <= i < |s'.log| :: s'.log[i].sink == id
  {
    assert s'.log[0..] == s'.log;
    assert s.given + s'.given[|s.given|..] == s'.given;
  }

  // ---------- the rate ----------

  /** The causes outside the rate are what they say: a full batch, the gate opening, a close. */
  lemma {:induction false} UnpacedSendsAreForced(s: State, e: Event)
    requires Shape(s)
    ensures var s' := Step(s, e);
            forall i | |s.log| <= i < |s'.log| && !Paced(s'.log[i]) && s'.log[i].message.Raw? ::
              || (e.Output? && !s.gated && |s'.log[i].message.bytes| >= 262_144)
              || (s.gated && !s'.gated)
              || e.Closed?
  {
  }

  predicate Paced(m: Sent) {
    m.message.Raw? && (m.cause == Quiet || m.cause == Timer)
  }

  /** Since the present sink was attached, no output was sent later than `t`. */
  ghost predicate SentBy(s: State, t: nat) {
    forall i | s.mark <= i < |s.log| && s.log[i].message.Raw? :: s.log[i].at <= t
  }

  ghost predicate Spaced(s: State) {
    forall i, j | s.mark <= i < j < |s.log| && Paced(s.log[i]) && Paced(s.log[j]) ::
      s.log[i].at + s.window <= s.log[j].at
  }

  ghost predicate Rate(s: State)
    requires s.flushScheduled ==> |s.timers| == 1
  {
    && s.mark <= |s.log|
    && Spaced(s)
    && (if s.lastSend.Some? then SentBy(s, s.lastSend.value) else
          forall i | s.mark <= i < |s.log| :: !s.log[i].message.Raw?)
    && (s.flushScheduled ==>
          forall i | s.mark <= i < |s.log| && Paced(s.log[i]) :: s.log[i].at + s.window <= s.timers[0])
  }

  lemma {:induction false} SendKeepsSpacing(s: State, m: Sent)
    requires Spaced(s) && s.mark <= |s.log|
    requires Paced(m) ==> forall i | s.mark <= i < |s.log| && Paced(s.log[i]) :: s.log[i].at + s.window <= m.at
    ensures forall i, j | s.mark <= i < j <= |s.log| && Paced((s.log + [m])[i]) && Paced((s.log + [m])[j]) ::
              (s.log + [m])[i].at + s.window <= (s.log + [m])[j].at
  {
  }

  /** A flush keeps the spacing when every paced send since the attach is a window old, or when it is
      not itself a paced one. */
  lemma {:induction false} FlushKeepsRate(s: State, cause: Cause)
    requires (s.flushScheduled ==> |s.timers| == 1) && Rate(s) && (s.lastSend.Some? ==> s.lastSend.value <= s.now)
    requires cause in {Quiet, Timer} ==>
               && !s.flushScheduled
               && forall i | s.mark <= i < |s.log| && Paced(s.log[i]) :: s.log[i].at + s.window <= s.now
    ensures Rate(Flushed(s, cause))
  {
    if s.pending != [] && s.sink.Some? {
      SendKeepsSpacing(s, Sent(s.sink.value, Raw(s.pending), s.now, cause));
    }
  }

  lemma {:induction false} FinishKeepsRate(s: State, clean: bool)
    requires (s.flushScheduled ==> |s.timers| == 1) && Rate(s) && (s.lastSend.Some? ==> s.lastSend.value <= s.now)
    ensures Rate(Finished(s, clean))
  {
    FlushKeepsRate(s, Closing);
  }

  lemma {:induction false} OpenKeepsRate(s: State)
    requires (s.flushScheduled ==> |s.timers| == 1) && Rate(s) && (s.lastSend.Some? ==> s.lastSend.value <= s.now)
    ensures Rate(Opened(s))
  {
    var s' := s.(gated := false, heldClose := None);
    FlushKeepsRate(s', Release);
    if s.heldClose.Some? {
      FinishKeepsRate(s', s.heldClose.value);
    }
  }

  lemma {:induction false} ReceiveKeepsRate(s: State, data: Bytes)
    requires Shape(s) && Rate(s)
    ensures Shape(Received(s, data)) && Rate(Received(s, data))
  {
    var p := Taken(s, data);
    StepKeepsShape(s, Output(data));
    if s.gated {
      OpenKeepsRate(p);
    } else if s.sink.Some? {
      if |p.pending| >= MAX_BATCH {
        FlushKeepsRate(p, Batch);
      } else if !s.flushScheduled && (s.lastSend.None? || s.now >= s.lastSend.value + s.window) {
        FlushKeepsRate(p, Quiet);
      }
    }
  }

  lemma {:induction false} StepKeepsRate(s: State, e: Event)
    requires Shape(s) && Rate(s)
    ensures Shape(Step(s, e)) && Rate(Step(s, e))
  {
    StepKeepsShape(s, e);
    match e
    case Output(data) => ReceiveKeepsRate(s, data);
    case Closed(clean) => FinishKeepsRate(s, clean);
    case Released => OpenKeepsRate(s);
    case Fire(i) =>
      if i < |s.timers| && s.timers[i] <= s.now {
        FlushKeepsRate(s.(timers := s.timers[..i] + s.timers[i + 1..], flushScheduled := false), Timer);
      }
    case _ =>
  }

  /** While one sink stays attached, two sends not forced by a full batch, a release or a close are at
      least one window apart, over every run. */
  lemma {:induction false} RunKeepsRate(gated: bool, window: nat, es: seq<Event>)
    ensures Shape(Run(New(gated, window), es)) && Rate(Run(New(gated, window), es))
  {
    if es == [] {
    } else {
      RunKeepsRate(gated, window, es[..|es| - 1]);
      StepKeepsRate(Run(New(gated, window), es[..|es| - 1]), es[|es| - 1]);
    }
  }
}
