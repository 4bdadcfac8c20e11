/** What a stream's state owes to the events that led to it: which close is held and what each close sent
    says, when the gate opens, and how long output waits. */
module TerminalHistory {
  import opened Outcomes
  import opened TerminalOutput

  // ---------- the gate ----------

  /** The gate opens on release, and when what is held reaches the limit. */
  predicate OpensGate(s: State, e: Event) {
    match e
    case Released => true
    case Output(data) => |s.pending| + |data| >= 1_048_576
    case _ => false
  }

  lemma {:induction false} WhenGateOpens(s: State, e: Event)
    requires s.gated
    ensures !Step(s, e).gated <==> OpensGate(s, e)
  {
  }

  /** While the gate is shut nothing is sent and, but for a detach, everything given is held. */
  lemma {:induction false} GatedOutputWaits(s: State, data: Bytes)
    requires s.gated && !OpensGate(s, Output(data))
    ensures var s' := Step(s, Output(data));
            s'.pending == s.pending + data && s'.log == s.log && s'.timers == s.timers
  {
  }

  // ---------- what a close says ----------

  /** The argument of the last close given. */
  function LastClose(es: seq<Event>): Option<bool> {
    if es == [] then None
    else if es[|es| - 1].Closed? then Some(es[|es| - 1].clean)
    else LastClose(es[..|es| - 1])
  }

  /** Behind a shut gate the close held is the last one given. */
  lemma {:induction false} HeldIsLast(gated: bool, window: nat, es: seq<Event>)
    requires Run(New(gated, window), es).gated
    ensures Run(New(gated, window), es).heldClose == LastClose(es)
  {
    if es == [] {
    } else {
      var init, e := es[..|es| - 1], es[|es| - 1];
      RunKeepsShape(gated, window, init);
      GateOpensOnce(Run(New(gated, window), init), e);
      HeldIsLast(gated, window, init);
      WhenGateOpens(Run(New(gated, window), init), e);
    }
  }

  /** What the closes among the messages say, in order. */
  function Verdicts(log: seq<Sent>): seq<bool> {
    if log == [] then []
    else
      var m := log[|log| - 1].message;
      Verdicts(log[..|log| - 1]) + if m.Close? then [m.clean] else []
  }

  lemma {:induction false} VerdictAdded(log: seq<Sent>, m: Sent)
    ensures Verdicts(log + [m]) == Verdicts(log) + if m.message.Close? then [m.message.clean] else []
  {
    assert (log + [m])[..|log|] == log;
  }

  lemma {:induction false} FlushSaysNothing(s: State, cause: Cause)
    ensures Verdicts(Flushed(s, cause).log) == Verdicts(s.log)
  {
    if s.sink.Some? {
      VerdictAdded(s.log, Sent(s.sink.value, Raw(s.pending), s.now, cause));
    }
  }

  lemma {:induction false} FinishSays(s: State, clean: bool)
    ensures Verdicts(Finished(s, clean).log) == Verdicts(s.log) + if s.sink.Some? then [clean] else []
  {
    FlushSaysNothing(s, Closing);
    var s' := Flushed(s, Closing);
    if s.sink.Some? {
      VerdictAdded(s'.log, Sent(s.sink.value, Close(clean), s'.now, Closing));
    }
  }

  lemma {:induction false} OpenSays(s: State)
    requires s.gated
    ensures Verdicts(Opened(s).log) ==
              Verdicts(s.log) + if s.sink.Some? && s.heldClose.Some? then [s.heldClose.value] else []
  {
    var s' := s.(gated := false, heldClose := None);
    if s.heldClose.Some? {
      FinishSays(s', s.heldClose.value);
    } else {
      FlushSaysNothing(s', Release);
    }
  }

  /** What an event makes the attached sink hear of a close: `last` is the last one given before it. */
  function Said(s: State, e: Event, last: Option<bool>): seq<bool> {
    if s.sink.None? then []
    else if s.gated then if OpensGate(s, e) && last.Some? then [last.value] else []
    else if e.Closed? then [e.clean] else []
  }

  lemma {:induction false} StepSays(s: State, e: Event, last: Option<bool>)
    requires s.gated ==> s.heldClose == last
    ensures Verdicts(Step(s, e).log) == Verdicts(s.log) + Said(s, e, last)
  {
    match e
    case Output(data) =>
      var p := Taken(s, data);
      if s.gated {
        OpenSays(p);
      } else {
        FlushSaysNothing(p, Batch);
        FlushSaysNothing(p, Quiet);
      }
    case Closed(clean) => FinishSays(s, clean);
    case Released =>
      if s.gated {
        OpenSays(s);
      }
    case Fire(i) =>
      if i < |s.timers| {
        FlushSaysNothing(s.(timers := s.timers[..i] + s.timers[i + 1..], flushScheduled := false), Timer);
      }
    case _ =>
  }

  /** What the sinks hear of closes over a run. */
  function AllSaid(gated: bool, window: nat, es: seq<Event>): seq<bool> {
    if es == [] then []
    else
      var init := es[..|es| - 1];
      AllSaid(gated, window, init) + Said(Run(New(gated, window), init), es[|es| - 1], LastClose(init))
  }

  /** Over every run each close sent carries the argument of the close it answers: the one sent at the
      opening that of the last close given until then, every later one its own. */
  lemma {:induction false} ClosesSayWhatWasGiven(gated: bool, window: nat, es: seq<Event>)
    ensures Verdicts(Run(New(gated, window), es).log) == AllSaid(gated, window, es)
  {
    if es == [] {
    } else {
      var init, e := es[..|es| - 1], es[|es| - 1];
      var s := Run(New(gated, window), init);
      ClosesSayWhatWasGiven(gated, window, init);
      if s.gated {
        HeldIsLast(gated, window, init);
      }
      StepSays(s, e, LastClose(init));
    }
  }

  /** A shell that ends before its terminal is ready: the terminal hears how it ended. */
  lemma {:induction false} EarlyEndIsHeard(window: nat, id: nat, clean: bool)
    ensures var s := Step(Step(Step(New(true, window), Attach(id)), Closed(clean)), Released);
            s.log == [Sent(id, Close(clean), 0, Closing)] && !s.gated
  {
  }

  /** A stream made without a gate sends its first output at once; one made with a gate holds it. */
  lemma {:induction false} FirstOutput(window: nat, id: nat, data: Bytes)
    requires data != [] && |data| < 262_144
    ensures var s := Step(Step(New(false, window), Attach(id)), Output(data));
            s.log == [Sent(id, Raw(data), 0, Quiet)] && s.pending == []
    ensures var s := Step(Step(New(true, window), Attach(id)), Output(data));
            s.log == [] && s.pending == data && s.gated
  {
    assert [] + data == data;
  }

  // ---------- how long output waits ----------

  /** The time of some output sent to the present sink. */
  ghost predicate SentAt(s: State, t: nat) {
    exists i: nat :: s.mark <= i && RawAt(s.log, i, t)
  }

  predicate RawAt(log: seq<Sent>, i: nat, t: nat) {
    i < |log| && log[i].message.Raw? && log[i].at == t
  }

  lemma {:induction false} SendOf(s: State, t: nat) returns (i: nat)
    requires SentAt(s, t)
    ensures s.mark <= i && RawAt(s.log, i, t)
  {
    i :| s.mark <= i && RawAt(s.log, i, t);
  }

  /** The last send is one to the present sink, and none to it was later; a timer is due a window after a
      send at the latest. */
  ghost predicate KnowsLastSend(s: State) {
    && s.mark <= |s.log|
    && (s.lastSend.Some? ==> SentAt(s, s.lastSend.value) && SentBy(s, s.lastSend.value) && s.lastSend.value <= s.now)
    && (s.lastSend.None? ==> forall i | s.mark <= i < |s.log| :: !s.log[i].message.Raw?)
    && (forall t | t in s.timers :: DueAfterSend(s.log, s.window, t))
  }

  ghost predicate DueAfterSend(log: seq<Sent>, window: nat, deadline: nat) {
    exists i: nat, t: nat :: RawAt(log, i, t) && deadline == t + window
  }

  lemma {:induction false} SendBefore(log: seq<Sent>, window: nat, deadline: nat) returns (i: nat, t: nat)
    requires DueAfterSend(log, window, deadline)
    ensures RawAt(log, i, t) && deadline == t + window
  {
    i, t :| RawAt(log, i, t) && deadline == t + window;
  }

  lemma {:induction false} SendIsKnown(s: State, s': State, m: Sent)
    requires KnowsLastSend(s) && m.at == s.now && s'.log == s.log + [m]
    requires s'.lastSend == if m.message.Raw? then Some(s.now) else s.lastSend
    requires s'.mark == s.mark && s'.window == s.window && s'.now == s.now && s'.timers == s.timers
    ensures KnowsLastSend(s')
  {
    assert s'.log[|s.log|] == m;
    if s'.lastSend.Some? {
      if m.message.Raw? {
        assert RawAt(s'.log, |s.log|, s.now);
      } else {
        var i := SendOf(s, s.lastSend.value);
        assert RawAt(s'.log, i, s.lastSend.value);
      }
    }
    forall deadline | deadline in s'.timers ensures DueAfterSend(s'.log, s'.window, deadline) {
      var j, t := SendBefore(s.log, s.window, deadline);
      assert RawAt(s'.log, j, t);
    }
  }

  lemma {:induction false} FlushIsKnown(s: State, cause: Cause)
    requires KnowsLastSend(s)
    ensures KnowsLastSend(Flushed(s, cause))
  {
    if s.pending == [] || s.sink.None? {
      SameSends(s, Flushed(s, cause));
    } else {
      SendIsKnown(s, Flushed(s, cause), Sent(s.sink.value, Raw(s.pending), s.now, cause));
    }
  }

  lemma {:induction false} SameSends(s: State, s': State)
    requires KnowsLastSend(s) && s'.log == s.log && s'.mark == s.mark && s'.lastSend == s.lastSend
    requires s'.window == s.window && s'.now >= s.now && forall t | t in s'.timers :: t in s.timers
    ensures KnowsLastSend(s')
  {
    if s.lastSend.Some? {
      assert SentAt(s, s.lastSend.value);
    }
  }

  lemma {:induction false} FinishIsKnown(s: State, clean: bool)
    requires KnowsLastSend(s)
    ensures KnowsLastSend(Finished(s, clean))
  {
    var s' := Flushed(s, Closing);
    FlushIsKnown(s, Closing);
    if s'.sink.Some? {
      SendIsKnown(s', Finished(s, clean), Sent(s'.sink.value, Close(clean), s'.now, Closing));
    }
  }

  lemma {:induction false} OpenIsKnown(s: State)
    requires KnowsLastSend(s)
    ensures KnowsLastSend(Opened(s))
  {
    var s' := s.(gated := false, heldClose := None);
    SameSends(s, s');
    FlushIsKnown(s', Release);
    if s.heldClose.Some? {
      FinishIsKnown(s', s.heldClose.value);
    }
  }

  lemma {:induction false} ReceiveIsKnown(s: State, data: Bytes)
    requires KnowsLastSend(s)
    ensures KnowsLastSend(Received(s, data))
  {
    var (p, r) := (Taken(s, data), Received(s, data));
    SameSends(s, p);
    if s.gated {
      OpenIsKnown(p);
    } else if s.sink.None? {
      SameSends(s, r);
    } else if |p.pending| >= MAX_BATCH {
      FlushIsKnown(p, Batch);
    } else if s.flushScheduled {
    } else if s.lastSend.Some? && s.now < s.lastSend.value + s.window {
      TimerIsKnown(p, r);
    } else {
      FlushIsKnown(p, Quiet);
    }
  }

  lemma {:induction false} TimerIsKnown(p: State, r: State)
    requires KnowsLastSend(p) && p.lastSend.Some?
    requires r == p.(flushScheduled := true, timers := p.timers + [p.lastSend.value + p.window])
    ensures KnowsLastSend(r)
  {
    SameSends(p, p.(flushScheduled := true));
    var i := SendOf(p, p.lastSend.value);
    assert RawAt(r.log, i, p.lastSend.value);
    assert DueAfterSend(r.log, r.window, p.lastSend.value + p.window);
  }

  lemma {:induction false} StepIsKnown(s: State, e: Event)
    requires KnowsLastSend(s)
    ensures KnowsLastSend(Step(s, e))
  {
    match e
    case Output(data) => ReceiveIsKnown(s, data);
    case Closed(clean) =>
      SameSends(s, s.(heldClose := Some(clean)));
      FinishIsKnown(s, clean);
    case Released => OpenIsKnown(s);
    case Attach(id) =>
      assert Step(s, e).log == s.log && Step(s, e).timers == s.timers;
    case Detach(id) => SameSends(s, Step(s, e));
    case Elapse(ticks) => SameSends(s, Step(s, e));
    case Fire(i) =>
      if i < |s.timers| && s.timers[i] <= s.now {
        var s' := s.(timers := s.timers[..i] + s.timers[i + 1..], flushScheduled := false);
        SameSends(s, s');
        FlushIsKnown(s', Timer);
      }
  }

  lemma {:induction false} RunIsKnown(gated: bool, window: nat, es: seq<Event>)
    ensures KnowsLastSend(Run(New(gated, window), es))
  {
    if es == [] {
    } else {
      RunIsKnown(gated, window, es[..|es| - 1]);
      StepIsKnown(Run(New(gated, window), es[..|es| - 1]), es[|es| - 1]);
    }
  }

  /** Over every run, with the gate open, a sink attached and no timer set, output that does not fill a
      batch waits exactly when that sink was sent some less than a window ago, and then for a timer due a
      window after the latest of these sends; otherwise it goes out at once. */
  lemma {:induction false} WhenOutputWaits(gated: bool, window: nat, es: seq<Event>, data: Bytes)
    requires var s := Run(New(gated, window), es);
             !s.gated && s.sink.Some? && !s.flushScheduled && data != [] && |data| < 262_144
    ensures var s := Run(New(gated, window), es);
            var s' := Step(s, Output(data));
            && (s'.pending != [] <==> exists t: nat :: SentAt(s, t) && s.now < t + window)
            && (s'.pending != [] ==> s'.pending == data && s'.log == s.log && |s'.timers| == 1)
            && (s'.pending != [] ==> exists t: nat :: SentAt(s, t) && SentBy(s, t) && s'.timers[0] == t + window)
            && (s'.pending == [] ==> s'.log == s.log + [Sent(s.sink.value, Raw(data), s.now, Quiet)])
  {
    var s := Run(New(gated, window), es);
    RunIsKnown(gated, window, es);
    RunKeepsShape(gated, window, es);
    WindowIsKept(gated, window, es);
    WaitsForWindow(s, data);
  }

  lemma {:induction false} WaitsForWindow(s: State, data: Bytes)
    requires KnowsLastSend(s) && Shape(s)
    requires !s.gated && s.sink.Some? && !s.flushScheduled && data != [] && |data| < 262_144
    ensures var s' := Step(s, Output(data));
            && (s'.pending != [] <==> exists t: nat :: SentAt(s, t) && s.now < t + s.window)
            && (s'.pending != [] ==> s'.pending == data && s'.log == s.log && |s'.timers| == 1)
            && (s'.pending != [] ==> exists t: nat :: SentAt(s, t) && SentBy(s, t) && s'.timers[0] == t + s.window)
            && (s'.pending == [] ==> s'.log == s.log + [Sent(s.sink.value, Raw(data), s.now, Quiet)])
  {
    assert s.pending == [] && s.pending + data == data && s.timers == [];
    WindowOpenSince(s);
  }

  lemma {:induction false} WindowOpenSince(s: State)
    requires KnowsLastSend(s)
    ensures (exists t: nat :: SentAt(s, t) && s.now < t + s.window) <==>
              s.lastSend.Some? && s.now < s.lastSend.value + s.window
  {
    if t: nat :| SentAt(s, t) && s.now < t + s.window {
      assert s.lastSend.Some? && t <= s.lastSend.value;
    }
    if s.lastSend.Some? {
      assert SentAt(s, s.lastSend.value);
    }
  }

  lemma {:induction false} StepKeepsWindow(s: State, e: Event)
    ensures Step(s, e).window == s.window
  {
    if e.Output? {
      assert Received(s, e.data).window == s.window;
    }
  }

  lemma {:induction false} WindowIsKept(gated: bool, window: nat, es: seq<Event>)
    ensures Run(New(gated, window), es).window == window
  {
    if es == [] {
    } else {
      WindowIsKept(gated, window, es[..|es| - 1]);
      StepKeepsWindow(Run(New(gated, window), es[..|es| - 1]), es[|es| - 1]);
    }
  }

  /** With a timer set, output waits for that timer unless it fills a batch, which goes out at once. */
  lemma {:induction false} WithTimerSet(s: State, data: Bytes)
    requires Shape(s) && !s.gated && s.sink.Some? && s.flushScheduled
    ensures var s' := Step(s, Output(data));
            && s'.timers == s.timers && s'.flushScheduled
            && if |s.pending| + |data| < 262_144 then s'.pending == s.pending + data && s'.log == s.log
               else s'.pending == [] && s'.log == s.log + [Sent(s.sink.value, Raw(s.pending + data), s.now, Batch)]
  {
  }
}
