/** The streams as the code runs them. `now`, `timers` and `log` stand for the clock, the spawned tasks
    and what the sinks were sent; the ghost fields are history. */
module OutputStreams {
  import opened Outcomes
  import opened Spec = TerminalOutput

  class OutputStream {
    const window: nat
    var sink: Option<nat>
    var gated: bool
    var pending: Bytes
    var heldClose: Option<bool>
    var flushScheduled: bool
    var lastSend: Option<nat>
    var now: nat
    var timers: seq<nat>
    var log: seq<Sent>
    ghost var given: Bytes
    ghost var ledger: seq<Fate>
    ghost var mark: nat

    ghost function Now(): State
      reads this
    {
      State(window, sink, gated, pending, heldClose, flushScheduled, lastSend, now, timers, log, given, ledger, mark)
    }

    constructor (gated: bool, window: nat)
      ensures Now() == New(gated, window)
    {
      this.window, this.gated := window, gated;
      sink, pending, heldClose, flushScheduled, lastSend := None, [], None, false, None;
      now, timers, log, given, ledger, mark := 0, [], [], [], [], 0;
    }

    method Output(data: Bytes)
      modifies this
      ensures Now() == Step(old(Now()), Event.Output(data))
    {
      given := given + data;
      if gated {
        pending := pending + data;
        if |pending| >= MAX_BUFFERED {
          Open();
        }
        return;
      }
      if sink == None {
        ledger := if data == [] then ledger else ledger + [Dropped(data)];
        return;
      }
      pending := pending + data;
      if |pending| >= MAX_BATCH {
        Flush(Batch);
        return;
      }
      if flushScheduled {
        return;
      }
      if lastSend.Some? && now < lastSend.value + window {
        flushScheduled := true;
        timers := timers + [lastSend.value + window];
      } else {
        Flush(Quiet);
      }
    }

    /** The body of the `i`th outstanding task, once its sleep is over. */
    method Fire(i: nat)
      modifies this
      ensures Now() == Step(old(Now()), Event.Fire(i))
    {
      if i < |timers| && timers[i] <= now {
        timers := timers[..i] + timers[i + 1..];
        flushScheduled := false;
        Flush(Timer);
      }
    }

    /** Time passes; the stream itself does nothing. */
    method Elapse(ticks: nat)
      modifies this`now
      ensures Now() == Step(old(Now()), Event.Elapse(ticks))
    {
      now := now + ticks;
    }

    method Closed(cleanExit: bool)
      modifies this
      ensures Now() == Step(old(Now()), Event.Closed(cleanExit))
    {
      if gated {
        heldClose := Some(cleanExit);
        return;
      }
      Finish(cleanExit);
    }

    method Release()
      modifies this
      ensures Now() == Step(old(Now()), Released)
    {
      Open();
    }

    method Attach(id: nat)
      modifies this
      ensures Now() == Step(old(Now()), Event.Attach(id))
    {
      sink := Some(id);
      lastSend := None;
      mark := |log|;
    }

    method Detach(id: nat) returns (detached: bool)
      modifies this
      ensures Now() == Step(old(Now()), Event.Detach(id))
      ensures detached <==> old(sink) == Some(id)
    {
      if sink != Some(id) {
        return false;
      }
      sink := None;
      ledger := if pending == [] then ledger else ledger + [Dropped(pending)];
      pending := [];
      return true;
    }

    method Open()
      modifies this
      ensures Now() == Opened(old(Now()))
    {
      if !gated {
        return;
      }
      gated := false;
      var held := heldClose;
      heldClose := None;
      match held
      case Some(cleanExit) => Finish(cleanExit);
      case None => Flush(Cause.Release);
    }

    method Finish(cleanExit: bool)
      modifies this
      ensures Now() == Finished(old(Now()), cleanExit)
    {
      Flush(Closing);
      if sink.Some? {
        log := log + [Sent(sink.value, Close(cleanExit), now, Closing)];
      }
    }

    method Flush(cause: Cause)
      modifies this
      ensures Now() == Flushed(old(Now()), cause)
    {
      if pending == [] {
        return;
      }
      var data := pending;
      pending := [];
      ledger := ledger + [if sink.Some? then Delivered(data) else Dropped(data)];
      if sink.Some? {
        log := log + [Sent(sink.value, Raw(data), now, cause)];
        lastSend := Some(now);
      }
    }
  }

  /** Streams by session. */
  class TerminalOutputs {
    const window: nat
    var streams: map<string, OutputStream>

    ghost predicate Valid()
      reads this
    {
      forall a, b | a in streams && b in streams && a != b :: streams[a] != streams[b]
    }

    ghost function Table(): map<string, State>
      reads this, streams.Values
    {
      map id | id in streams :: streams[id].Now()
    }

    constructor (window: nat)
      ensures Valid() && Table() == map[] && this.window == window
    {
      this.window, streams := window, map[];
    }

    /** A session's stream, made on first use; an existing one keeps its gate as it is. */
    method Entry(sessionId: string, gated: bool) returns (s: OutputStream)
      requires Valid()
      modifies this
      ensures Valid() && sessionId in streams && streams[sessionId] == s
      ensures fresh(streams.Values - old(streams.Values))
      ensures Table() == old(Table())[sessionId := StreamIn(old(Table()), sessionId, gated, window)]
    {
      if sessionId !in streams {
        var created := new OutputStream(gated, window);
        streams := streams[sessionId := created];
      }
      s := streams[sessionId];
    }

    method Attach(sessionId: string, gated: bool, id: nat)
      requires Valid()
      modifies this, streams.Values
      ensures Valid()
      ensures var stream := StreamIn(old(Table()), sessionId, gated, window);
              Table() == old(Table())[sessionId := Step(stream, Event.Attach(id))]
    {
      var _ := Entry(sessionId, gated);
      AttachTo(sessionId, id);
    }

    method AttachTo(sessionId: string, id: nat)
      requires Valid() && sessionId in streams
      modifies streams[sessionId]
      ensures Table() == old(Table())[sessionId := Step(old(Table())[sessionId], Event.Attach(id))]
    {
      streams[sessionId].Attach(id);
    }

    method Release(sessionId: string)
      requires Valid()
      modifies this, streams.Values
      ensures Valid()
      ensures Table() == old(Table())[sessionId := Step(StreamIn(old(Table()), sessionId, true, window), Released)]
    {
      var _ := Entry(sessionId, true);
      ReleaseThe(sessionId);
    }

    method ReleaseThe(sessionId: string)
      requires Valid() && sessionId in streams
      modifies streams[sessionId]
      ensures Table() == old(Table())[sessionId := Step(old(Table())[sessionId], Released)]
    {
      streams[sessionId].Release();
    }

    /** The session goes only together with its own sink; a late detach of an older one does nothing. */
    method Detach(sessionId: string, id: nat)
      requires Valid()
      modifies this, streams.Values
      ensures Valid()
      ensures var t := old(Table());
              Table() == if sessionId in t && t[sessionId].sink == Some(id) then t - {sessionId} else t
    {
      if sessionId in streams {
        var detached := streams[sessionId].Detach(id);
        if detached {
          streams := streams - {sessionId};
        }
      }
    }

    method Output(sessionId: string, data: Bytes)
      requires Valid()
      modifies this, streams.Values
      ensures Valid()
      ensures var t := old(Table());
              Table() == if sessionId in t then t[sessionId := Step(t[sessionId], Event.Output(data))] else t
    {
      if sessionId in streams {
        streams[sessionId].Output(data);
      }
    }

    method Closed(sessionId: string, cleanExit: bool)
      requires Valid()
      modifies this, streams.Values
      ensures Valid()
      ensures var t := old(Table());
              Table() == if sessionId in t then t[sessionId := Step(t[sessionId], Event.Closed(cleanExit))] else t
    {
      if sessionId in streams {
        streams[sessionId].Closed(cleanExit);
      }
    }
  }

  /** A session's stream, made when there is none. */
  ghost function StreamIn(t: map<string, State>, id: string, gated: bool, window: nat): State {
    if id in t then t[id] else New(gated, window)
  }
}
