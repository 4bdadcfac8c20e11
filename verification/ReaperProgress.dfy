/** That a script nobody disturbs gets to its kill: how many commands it has ahead of it, and that every
    command it makes brings it nearer. */
module ReaperProgress {
  import opened Outcomes
  import opened Reaper

  /** The naps between the clock and the due time. */
  function Naps(due: nat, clock: nat): nat {
    if clock >= due then 0 else 1 + (due - clock - 1) / 300
  }

  function Later(a: nat, b: nat): nat {
    if a >= b then a else b
  }

  /** The commands of a round of checks, from `part` on. */
  function ChecksLeft(part: Part): nat {
    match part
    case Exists => 4
    case Detached => 3
    case SameTtl => 2
    case OwnStamp => 1
  }

  /** The commands a script under TTL `ttl` has ahead of its kill, those it sleeps through not counted. */
  function Ahead(r: Script, ttl: nat, clock: nat): nat {
    match r.pc
    case ReadTtl => 20 + 5 * Naps(ttl, 0)
    case Check(First, part) => 15 + ChecksLeft(part) + 5 * Naps(ttl, 0)
    case ReadStart => 15 + 5 * Naps(ttl, 0)
    case Write => 14 + 5 * Naps(r.due, clock)
    case ReadClock => 13 + 5 * Naps(r.due, clock)
    case Check(Waiting, part) => 13 + ChecksLeft(part) + 5 * Naps(r.due, Later(clock, r.wake))
    case Check(Due, part) => 8 + ChecksLeft(part)
    case ListPanes => 8
    case Sample => if |r.samples| < 3 then 7 - |r.samples| else 4
    case Check(Last, part) => ChecksLeft(part)
    case Kill => 0
  }

  /** A script that works under the TTL `limit` and has read no CPU sum but `cpu`. */
  ghost predicate OnCourse(r: Script, limit: string, cpu: nat) {
    && AcceptedTtl(limit) && (r.pc.ReadTtl? || r.limit == limit)
    && (r.pc.Sample? ==> |r.samples| < 3 && (r.samples != [] ==> r.sum == cpu))
  }

  /** Nothing a script looks at gives it a reason to leave: no client, the same TTL, its own stamp once
      written, a constant CPU sum, and a clock it can read. */
  ghost predicate Undisturbed(s: System, pid: nat, limit: string, cpu: nat) {
    var g := s.shared;
    && g.session.Some? && g.session.value.attached == 0 && g.session.value.ttl == limit
    && g.cpu == Some(cpu) && g.clock < CLOCK_LIMIT
    && (pid in s.scripts && Written(s.scripts[pid]) ==> g.session.value.detachedAt == s.scripts[pid].stamp)
  }

  /** Not asleep: only checks and samples come after a nap. */
  predicate Awake(r: Script, clock: nat) {
    clock >= r.wake || !(r.pc.Check? || r.pc.Sample?)
  }

  lemma {:induction false} TimeBringsNearer(r: Script, ttl: nat, clock: nat, later: nat)
    requires clock <= later
    ensures Ahead(r, ttl, later) <= Ahead(r, ttl, clock)
  {
    FewerNaps(r.due, clock, later);
    FewerNaps(r.due, Later(clock, r.wake), Later(later, r.wake));
  }

  lemma {:induction false} FewerNaps(due: nat, clock: nat, later: nat)
    requires clock <= later
    ensures Naps(due, later) <= Naps(due, clock)
  {
  }

  lemma {:induction false} NapCounts(due: nat, clock: nat)
    requires clock < due
    ensures var nap := if due - clock <= 300 then due - clock else 300;
            Naps(due, clock + nap) == Naps(due, clock) - 1
  {
    if due - clock > 300 {
      assert (due - clock - 1) / 300 == 1 + (due - clock - 301) / 300;
    }
  }

  lemma {:induction false} SameNaps(ttl: nat, clock: nat)
    ensures Naps(clock + ttl, clock) == Naps(ttl, 0)
  {
  }

  /** What a command must achieve: the script goes on, on course and nearer its kill. */
  ghost predicate Nearer(s: System, pid: nat, limit: string, cpu: nat)
    requires pid in s.scripts && AcceptedTtl(limit)
  {
    var (g, r) := Command(s.shared, |s.past|, pid, s.scripts[pid]);
    && r.Some? && g.clock == s.shared.clock && OnCourse(r.value, limit, cpu)
    && Ahead(r.value, Value(limit), g.clock) < Ahead(s.scripts[pid], Value(limit), g.clock)
  }

  lemma {:induction false} CheckBringsNearer(s: System, pid: nat, limit: string, cpu: nat)
    requires pid in s.scripts && Undisturbed(s, pid, limit, cpu) && OnCourse(s.scripts[pid], limit, cpu)
    requires s.scripts[pid].pc.Check? && s.shared.clock >= s.scripts[pid].wake
    ensures Nearer(s, pid, limit, cpu)
  {
    assert PartHolds(s.scripts[pid], s.scripts[pid].pc.part, s.shared.session);
  }

  lemma {:induction false} SampleBringsNearer(s: System, pid: nat, limit: string, cpu: nat)
    requires pid in s.scripts && Undisturbed(s, pid, limit, cpu) && OnCourse(s.scripts[pid], limit, cpu)
    requires s.scripts[pid].pc.Sample? && s.shared.clock >= s.scripts[pid].wake
    ensures Nearer(s, pid, limit, cpu)
  {
  }

  lemma {:induction false} ClockBringsNearer(s: System, pid: nat, limit: string, cpu: nat)
    requires pid in s.scripts && Undisturbed(s, pid, limit, cpu) && OnCourse(s.scripts[pid], limit, cpu)
    requires s.scripts[pid].pc.ReadStart? || s.scripts[pid].pc.ReadClock?
    ensures Nearer(s, pid, limit, cpu)
  {
    var (r, clock) := (s.scripts[pid], s.shared.clock);
    if r.pc.ReadStart? {
      SameNaps(Value(limit), clock);
    } else if clock < r.due {
      NapCounts(r.due, clock);
    }
  }

  /** A command made awake and undisturbed brings the script nearer its kill, and keeps it on course. */
  lemma {:induction false} CommandBringsNearer(s: System, pid: nat, limit: string, cpu: nat)
    requires pid in s.scripts && Undisturbed(s, pid, limit, cpu) && OnCourse(s.scripts[pid], limit, cpu)
    requires Awake(s.scripts[pid], s.shared.clock) && !s.scripts[pid].pc.Kill?
    ensures Nearer(s, pid, limit, cpu)
  {
    match s.scripts[pid].pc
    case Check(_, _) => CheckBringsNearer(s, pid, limit, cpu);
    case Sample => SampleBringsNearer(s, pid, limit, cpu);
    case ReadStart => ClockBringsNearer(s, pid, limit, cpu);
    case ReadClock => ClockBringsNearer(s, pid, limit, cpu);
    case _ =>
  }

  /** Only the script's own commands can take it off course or further away. */
  lemma {:induction false} OthersDoNotDelay(s: System, l: Label, pid: nat, ttl: nat)
    requires pid in s.scripts && l != Exit(pid) && l != Run(pid)
    ensures var s' := Next(s, l);
            && pid in s'.scripts && s'.scripts[pid] == s.scripts[pid]
            && Ahead(s.scripts[pid], ttl, s'.shared.clock) <= Ahead(s.scripts[pid], ttl, s.shared.clock)
  {
    TimeBringsNearer(s.scripts[pid], ttl, s.shared.clock, Later(s.shared.clock, Next(s, l).shared.clock));
  }

  /** The commands the script makes awake. */
  function Made(s: System, labels: seq<Label>, pid: nat): nat {
    if labels == [] then 0
    else
      var before := Behaviour(s, labels[..|labels| - 1]);
      Made(s, labels[..|labels| - 1], pid) +
      if labels[|labels| - 1] == Run(pid) && pid in before.scripts && Awake(before.scripts[pid], before.shared.clock)
      then 1 else 0
  }

  /** Nothing disturbs the script at any moment of the behaviour, and none of its commands fails. */
  ghost predicate LeftAlone(s: System, labels: seq<Label>, pid: nat, limit: string, cpu: nat) {
    && Undisturbed(Behaviour(s, labels), pid, limit, cpu)
    && (labels != [] ==>
          labels[|labels| - 1] != Exit(pid) && LeftAlone(s, labels[..|labels| - 1], pid, limit, cpu))
  }

  lemma {:induction false} StepBringsNearer(s: System, l: Label, pid: nat, limit: string, cpu: nat)
    requires pid in s.scripts && OnCourse(s.scripts[pid], limit, cpu) && l != Exit(pid)
    requires Undisturbed(s, pid, limit, cpu) && Undisturbed(Next(s, l), pid, limit, cpu)
    ensures var s' := Next(s, l);
            && pid in s'.scripts && OnCourse(s'.scripts[pid], limit, cpu)
            && Ahead(s'.scripts[pid], Value(limit), s'.shared.clock)
               + (if l == Run(pid) && Awake(s.scripts[pid], s.shared.clock) then 1 else 0)
               <= Ahead(s.scripts[pid], Value(limit), s.shared.clock)
  {
    if l != Run(pid) {
      OthersDoNotDelay(s, l, pid, Value(limit));
    } else if Awake(s.scripts[pid], s.shared.clock) {
      CommandBringsNearer(s, pid, limit, cpu);
    }
  }

  /** Left alone, the commands made and those ahead never exceed those ahead at first. */
  lemma {:induction false} AlwaysNearer(s: System, labels: seq<Label>, pid: nat, limit: string, cpu: nat)
    requires pid in s.scripts && OnCourse(s.scripts[pid], limit, cpu) && LeftAlone(s, labels, pid, limit, cpu)
    ensures var t := Behaviour(s, labels);
            && pid in t.scripts && OnCourse(t.scripts[pid], limit, cpu)
            && Made(s, labels, pid) + Ahead(t.scripts[pid], Value(limit), t.shared.clock)
               <= Ahead(s.scripts[pid], Value(limit), s.shared.clock)
  {
    if labels == [] {
    } else {
      var init, l := labels[..|labels| - 1], labels[|labels| - 1];
      AlwaysNearer(s, init, pid, limit, cpu);
      StepBringsNearer(Behaviour(s, init), l, pid, limit, cpu);
    }
  }

  /** Whatever other scripts do and however time passes: a script that is left alone and makes the
      commands it has ahead comes to its kill, and the session is still there then. */
  lemma {:induction false} LeftAloneComesToKill(s: System, labels: seq<Label>, pid: nat, limit: string, cpu: nat)
    requires pid in s.scripts && OnCourse(s.scripts[pid], limit, cpu) && LeftAlone(s, labels, pid, limit, cpu)
    requires Made(s, labels, pid) >= Ahead(s.scripts[pid], Value(limit), s.shared.clock)
    ensures var t := Behaviour(s, labels);
            && pid in t.scripts && t.scripts[pid].pc.Kill?
            && t.shared.session.Some? && Next(t, Run(pid)).shared.session.None?
  {
    AlwaysNearer(s, labels, pid, limit, cpu);
  }

  // ---------- in time ----------

  /** The script is run whenever it is awake: time passes only while it sleeps, up to its waking. */
  ghost predicate RunPromptly(s: System, labels: seq<Label>, pid: nat) {
    labels != [] ==>
      var (before, after) := (Behaviour(s, labels[..|labels| - 1]), Behaviour(s, labels));
      && RunPromptly(s, labels[..|labels| - 1], pid)
      && (pid in before.scripts ==> NoLaterThanWaking(before, after, pid))
  }

  ghost predicate NoLaterThanWaking(before: System, after: System, pid: nat)
    requires pid in before.scripts
  {
    var r := before.scripts[pid];
    after.shared.clock <= if Awake(r, before.shared.clock) then before.shared.clock else r.wake
  }

  /** How far beyond the due time the samples taken may have brought the script. */
  function Slack(r: Script): nat {
    match r.pc
    case Sample => 5 * |r.samples|
    case Check(Last, _) => 10
    case Kill => 10
    case _ => 0
  }

  /** Before the stamp the script never sleeps; after it, neither the clock nor its waking has passed the
      due time by more than the samples account for. */
  ghost predicate InTime(r: Script, clock: nat) {
    if r.pc.ReadTtl? || r.pc.ReadStart? || (r.pc.Check? && r.pc.stage == First) then r.wake <= clock
    else clock <= r.due + Slack(r) && r.wake <= r.due + Slack(r)
  }

  lemma {:induction false} CommandIsInTime(s: System, pid: nat, limit: string, cpu: nat)
    requires pid in s.scripts && Undisturbed(s, pid, limit, cpu) && OnCourse(s.scripts[pid], limit, cpu)
    requires InTime(s.scripts[pid], s.shared.clock) && !s.scripts[pid].pc.Kill?
    ensures var (g, r) := Command(s.shared, |s.past|, pid, s.scripts[pid]);
            r.Some? && g.clock == s.shared.clock && InTime(r.value, g.clock)
  {
    if Awake(s.scripts[pid], s.shared.clock) {
      CommandBringsNearer(s, pid, limit, cpu);
    }
  }

  lemma {:induction false} StepIsInTime(s: System, l: Label, pid: nat, limit: string, cpu: nat)
    requires pid in s.scripts && OnCourse(s.scripts[pid], limit, cpu) && l != Exit(pid)
    requires Undisturbed(s, pid, limit, cpu) && Undisturbed(Next(s, l), pid, limit, cpu)
    requires InTime(s.scripts[pid], s.shared.clock) && NoLaterThanWaking(s, Next(s, l), pid)
    ensures var s' := Next(s, l); pid in s'.scripts && InTime(s'.scripts[pid], s'.shared.clock)
  {
    if l == Run(pid) {
      CommandIsInTime(s, pid, limit, cpu);
    } else {
      OthersDoNotDelay(s, l, pid, Value(limit));
      TimeGoesOn(s, l);
    }
  }

  lemma {:induction false} TimeGoesOn(s: System, l: Label)
    ensures Next(s, l).shared.clock >= s.shared.clock
  {
  }

  /** Left alone and run promptly a script is in time at every moment. */
  lemma {:induction false} AlwaysInTime(s: System, labels: seq<Label>, pid: nat, limit: string, cpu: nat)
    requires pid in s.scripts && OnCourse(s.scripts[pid], limit, cpu) && InTime(s.scripts[pid], s.shared.clock)
    requires LeftAlone(s, labels, pid, limit, cpu) && RunPromptly(s, labels, pid)
    ensures var t := Behaviour(s, labels); pid in t.scripts && InTime(t.scripts[pid], t.shared.clock)
  {
    if labels == [] {
    } else {
      var init, l := labels[..|labels| - 1], labels[|labels| - 1];
      AlwaysInTime(s, init, pid, limit, cpu);
      AlwaysNearer(s, init, pid, limit, cpu);
      StepIsInTime(Behaviour(s, init), l, pid, limit, cpu);
    }
  }

  /** A script left alone that is run whenever it is awake comes to its kill no later than ten seconds
      after its due time. */
  lemma {:induction false} KillsInTime(s: System, labels: seq<Label>, pid: nat, limit: string, cpu: nat)
    requires pid in s.scripts && OnCourse(s.scripts[pid], limit, cpu) && InTime(s.scripts[pid], s.shared.clock)
    requires LeftAlone(s, labels, pid, limit, cpu) && RunPromptly(s, labels, pid)
    requires Made(s, labels, pid) >= Ahead(s.scripts[pid], Value(limit), s.shared.clock)
    ensures var t := Behaviour(s, labels);
            && pid in t.scripts && t.scripts[pid].pc.Kill? && t.shared.clock <= t.scripts[pid].due + 10
  {
    LeftAloneComesToKill(s, labels, pid, limit, cpu);
    AlwaysInTime(s, labels, pid, limit, cpu);
  }

  /** A script just started needs twenty commands and five for every five minutes of its TTL. */
  lemma {:induction false} FreshIsOnCourse(limit: string, cpu: nat, clock: nat)
    requires AcceptedTtl(limit)
    ensures OnCourse(Fresh(), limit, cpu) && InTime(Fresh(), clock)
    ensures Ahead(Fresh(), Value(limit), clock) == 20 + 5 * ((Value(limit) + 299) / 300)
  {
    assert Value(limit) > 0 ==> (Value(limit) + 299) / 300 == 1 + (Value(limit) - 1) / 300;
  }
}
