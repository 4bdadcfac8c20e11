/** The detached-session reaper: one shell script per detach, several of them possibly at once, all
    reading and writing options of the same multiplexer session while clients come and go. A step is
    one command of one script; between two steps anything else may happen. */
module Reaper {
  import opened Outcomes

  /** `$N.$$`: the second the script started counting at, and its process id. */
  datatype Stamp = Stamp(second: nat, pid: nat)

  datatype Session = Session(attached: nat, ttl: string, detachedAt: Option<Stamp>)

  /** `cpu` is what `voltius_quiet` would print now, if it would succeed. */
  datatype Shared = Shared(session: Option<Session>, clock: nat, cpu: Option<nat>)

  datatype Stage = First | Waiting | Due | Last

  datatype Part = Exists | Detached | SameTtl | OwnStamp

  datatype Pc =
    | ReadTtl | Check(stage: Stage, part: Part) | ReadStart | Write | ReadClock | ListPanes | Sample | Kill

  /** A running script. The fields from `wrote` on are history: where in the past of the shared state
      it wrote its stamp and made its latest readings, and which of them let it write. */
  datatype Script = Script(
    pc: Pc, limit: string, stamp: Option<Stamp>, due: nat, wake: nat, sum: nat,
    wrote: nat, sawDue: nat, samples: seq<nat>, sawDetached: nat, sawTtl: nat, sawStamp: nat,
    sawClock: nat, firstDetached: nat, firstTtl: nat)

  /** `past` holds every earlier shared state, oldest first. Process ids are unique among live scripts
      only: an id is free again once its script has gone. */
  datatype System = System(shared: Shared, scripts: map<nat, Script>, past: seq<Shared>)

  // ---------- the TTL ----------

  const MAX_TTL_SECS: nat := 999_999_999

  predicate Digits(s: string) {
    forall i | 0 <= i < |s| :: '0' <= s[i] <= '9'
  }

  /** Not empty, all digits, at most nine of them, and no leading zero before another. */
  predicate AcceptedTtl(s: string) {
    0 < |s| <= 9 && Digits(s) && (s[0] == '0' ==> |s| == 1)
  }

  function Value(s: string): nat
    requires Digits(s)
  {
    if s == [] then 0 else 10 * Value(s[..|s| - 1]) + (s[|s| - 1] - '0') as nat
  }

  function Decimal(n: nat): string {
    if n < 10 then ['0' + n as char] else Decimal(n / 10) + ['0' + (n % 10) as char]
  }

  function ClampedTtl(secs: nat): string {
    Decimal(if secs <= MAX_TTL_SECS then secs else MAX_TTL_SECS)
  }

  function Pow10(k: nat): nat {
    if k == 0 then 1 else 10 * Pow10(k - 1)
  }

  lemma {:induction false} DecimalReads(n: nat, k: nat)
    requires k > 0 && n < Pow10(k)
    ensures Digits(Decimal(n)) && Value(Decimal(n)) == n && 0 < |Decimal(n)| <= k
    ensures Decimal(n)[0] == '0' ==> n == 0 && |Decimal(n)| == 1
    decreases n
  {
    if n >= 10 {
      DecimalReads(n / 10, k - 1);
      var head, last := Decimal(n / 10), '0' + (n % 10) as char;
      assert Decimal(n)[..|Decimal(n)| - 1] == head;
    } else {
      assert Decimal(n)[..0] == [];
    }
  }

  /** Whatever TTL the client is given, the script accepts what it wrote and reads the clamped value. */
  lemma {:induction false} EveryWrittenTtlIsAccepted(secs: nat)
    ensures AcceptedTtl(ClampedTtl(secs))
    ensures Value(ClampedTtl(secs)) == if secs <= MAX_TTL_SECS then secs else MAX_TTL_SECS
  {
    assert Pow10(9) == 1_000_000_000 by {
      assert Pow10(5) == 100_000;
    }
    DecimalReads(if secs <= MAX_TTL_SECS then secs else MAX_TTL_SECS, 9);
  }

  lemma {:induction false} AcceptedTtlBound(s: string)
    requires Digits(s)
    ensures Value(s) < Pow10(|s|)
  {
    if s == [] {
    } else {
      AcceptedTtlBound(s[..|s| - 1]);
    }
  }

  // ---------- the script ----------

  /** A clock reading of twelve digits or more ends the script. */
  const CLOCK_LIMIT: nat := 100_000_000_000

  function Fresh(): Script {
    Script(ReadTtl, "", None, 0, 0, 0, 0, 0, [], 0, 0, 0, 0, 0, 0)
  }

  predicate PartHolds(r: Script, part: Part, session: Option<Session>) {
    match part
    case Exists => session.Some?
    case Detached => session.Some? && session.value.attached == 0
    case SameTtl => session.Some? && session.value.ttl == r.limit
    case OwnStamp => r.stamp.None? || (session.Some? && session.value.detachedAt == r.stamp)
  }

  function AfterCheck(stage: Stage): Pc {
    match stage
    case First => ReadStart
    case Waiting => ReadClock
    case Due => ListPanes
    case Last => Kill
  }

  function NextPc(stage: Stage, part: Part): Pc {
    match part
    case Exists => Check(stage, Detached)
    case Detached => Check(stage, SameTtl)
    case SameTtl => Check(stage, OwnStamp)
    case OwnStamp => AfterCheck(stage)
  }

  /** One command of script `pid`: the shared state after it, and the script's own, or None when it
      exits. `now` is the index the present shared state will have in the past. */
  function Command(g: Shared, now: nat, pid: nat, r: Script): (Shared, Option<Script>) {
    match r.pc
    case ReadTtl =>
      if g.session.Some? && AcceptedTtl(g.session.value.ttl)
      then (g, Some(r.(limit := g.session.value.ttl, pc := Check(First, Exists))))
      else (g, None)
    case Check(stage, part) =>
      if g.clock < r.wake then (g, Some(r))
      else if !PartHolds(r, part, g.session) then (g, None)
      else
        var r' := r.(pc := NextPc(stage, part));
        (g, Some(match part
                 case Exists => r'
                 case Detached => r'.(sawDetached := now)
                 case SameTtl => r'.(sawTtl := now)
                 case OwnStamp => r'.(sawStamp := now)))
    case ReadStart =>
      if g.clock >= CLOCK_LIMIT || !Digits(r.limit) then (g, None)
      else (g, Some(r.(stamp := Some(Stamp(g.clock, pid)), due := g.clock + Value(r.limit), pc := Write)))
    case Write =>
      if g.session.None? then (g, None)
      else
        (g.(session := Some(g.session.value.(detachedAt := r.stamp))),
         Some(r.(pc := ReadClock, wrote := now + 1, firstDetached := r.sawDetached, firstTtl := r.sawTtl)))
    case ReadClock =>
      if g.clock >= CLOCK_LIMIT then (g, None)
      else if g.clock < r.due then
        var nap := if r.due - g.clock <= 300 then r.due - g.clock else 300;
        (g, Some(r.(wake := g.clock + nap, sawClock := now, pc := Check(Waiting, Exists))))
      else (g, Some(r.(sawDue := now, pc := Check(Due, Exists))))
    case ListPanes =>
      if g.session.None? then (g, None) else (g, Some(r.(samples := [], pc := Sample)))
    case Sample =>
      if g.clock < r.wake then (g, Some(r))
      else if g.cpu.None? || (r.samples != [] && g.cpu.value != r.sum) then (g, None)
      else
        var r' := r.(sum := g.cpu.value, samples := r.samples + [now]);
        (g, Some(if |r'.samples| == 3 then r'.(pc := Check(Last, Exists)) else r'.(wake := g.clock + 5)))
    case Kill => (g.(session := None), None)
  }

  /** What can happen next. `Environment` stands for clients attaching and leaving, TTLs being set or
      cleared, the session ending or being made anew, time passing and programs running. `Exit` is a
      command that failed. */
  datatype Label = Run(pid: nat) | Exit(pid: nat) | Spawn(pid: nat) | Environment(next: Shared)

  function StampOf(g: Shared): Option<Stamp> {
    if g.session.Some? then g.session.value.detachedAt else None
  }

  /** Time never goes back, and nothing but a script ever writes a stamp. */
  predicate Possible(g: Shared, next: Shared) {
    next.clock >= g.clock && (StampOf(next) == StampOf(g) || StampOf(next) == None)
  }

  function Next(s: System, l: Label): System {
    var past := s.past + [s.shared];
    match l
    case Run(pid) =>
      if pid !in s.scripts then s
      else
        var (g, r) := Command(s.shared, |s.past|, pid, s.scripts[pid]);
        System(g, if r.Some? then s.scripts[pid := r.value] else s.scripts - {pid}, past)
    case Exit(pid) => System(s.shared, s.scripts - {pid}, past)
    case Spawn(pid) => if pid in s.scripts then s else System(s.shared, s.scripts[pid := Fresh()], past)
    case Environment(next) => if Possible(s.shared, next) then System(next, s.scripts, past) else s
  }

  function Behaviour(s: System, labels: seq<Label>): System {
    if labels == [] then s else Next(Behaviour(s, labels[..|labels| - 1]), labels[|labels| - 1])
  }

  function Start(g: Shared): System {
    System(g, map[], [])
  }

  // ---------- the invariant ----------

  /** The shared state number `i`, the present one being the last. */
  function At(s: System, i: nat): Shared {
    if i < |s.past| then s.past[i] else s.shared
  }

  predicate Written(r: Script) {
    r.stamp.Some? && r.pc != Write
  }

  /** No other script wrote, and the session was not made anew, from state `from` through `to`. */
  ghost predicate Untouched(s: System, from: nat, to: nat, stamp: Stamp) {
    from <= to <= |s.past| && forall i | from <= i <= to :: StampOf(At(s, i)) == Some(stamp)
  }

  /** The stamp a script wrote stands where it wrote it, and if it still stands it always has. */
  ghost predicate Holds(s: System, pid: nat, r: Script) {
    && (r.stamp.Some? <==> r.pc.Write? || !(r.pc.ReadTtl? || r.pc.ReadStart? || (r.pc.Check? && r.pc.stage == First)))
    && (!r.pc.ReadTtl? ==> AcceptedTtl(r.limit))
    && (r.stamp.Some? ==>
          && r.stamp.value.pid == pid && r.due == r.stamp.value.second + Value(r.limit)
          && r.stamp.value.second < CLOCK_LIMIT)
    && (Written(r) ==>
          && r.wrote <= |s.past| && StampOf(At(s, r.wrote)) == r.stamp
          && (StampOf(s.shared) == r.stamp ==> Untouched(s, r.wrote, |s.past|, r.stamp.value)))
  }

  predicate PastDue(pc: Pc) {
    pc.ListPanes? || pc.Sample? || pc.Kill? || (pc.Check? && (pc.stage == Due || pc.stage == Last))
  }

  predicate Sampled(pc: Pc) {
    pc.Kill? || (pc.Check? && pc.stage == Last)
  }

  /** Equal samples, all read after state `from`, each at least five seconds after the one before. */
  ghost predicate Flat(past: seq<Shared>, from: nat, samples: seq<nat>, sum: nat) {
    && (forall i | 0 <= i < |samples| :: from < samples[i] < |past| && past[samples[i]].cpu == Some(sum))
    && (forall i | 0 < i < |samples| ::
          samples[i - 1] < samples[i] && past[samples[i]].clock >= past[samples[i - 1]].clock + 5)
  }

  /** Sampling starts only once a clock reading was past the due time. */
  ghost predicate Quiet(past: seq<Shared>, r: Script) {
    && (PastDue(r.pc) ==> r.wrote <= r.sawDue < |past| && past[r.sawDue].clock >= r.due)
    && (r.pc.Sample? ==> |r.samples| < 3)
    && (Sampled(r.pc) ==> |r.samples| == 3)
    && (r.pc.Sample? || Sampled(r.pc) ==> Flat(past, r.sawDue, r.samples, r.sum))
    && (r.pc.Sample? && r.samples != [] ==> past[r.samples[|r.samples| - 1]].clock + 5 <= r.wake)
  }

  lemma {:induction false} FlatGrows(past: seq<Shared>, g: Shared, from: nat, samples: seq<nat>, sum: nat)
    requires Flat(past, from, samples, sum) && from < |past| && g.cpu.Some?
    requires samples != [] ==> g.cpu.value == sum && past[samples[|samples| - 1]].clock + 5 <= g.clock
    ensures Flat(past + [g], from, samples + [|past|], g.cpu.value)
  {
  }

  /** The last round of checks, made after the third sample: no client, then the same TTL. */
  ghost predicate Rechecked(past: seq<Shared>, r: Script) {
    && (Sampled(r.pc) && (r.pc.Kill? || r.pc.part.SameTtl? || r.pc.part.OwnStamp?) && |r.samples| == 3 ==>
          && r.samples[2] < r.sawDetached < |past|
          && past[r.sawDetached].session.Some? && past[r.sawDetached].session.value.attached == 0)
    && (Sampled(r.pc) && (r.pc.Kill? || r.pc.part.OwnStamp?) ==>
          && r.sawDetached < r.sawTtl < |past|
          && past[r.sawTtl].session.Some? && past[r.sawTtl].session.value.ttl == r.limit)
  }

  ghost predicate LastLook(s: System, r: Script) {
    r.pc.Kill? && r.stamp.Some? ==>
      r.sawTtl < r.sawStamp < |s.past| && Untouched(s, r.wrote, r.sawStamp, r.stamp.value)
  }

  ghost predicate Good(s: System, pid: nat, r: Script) {
    Holds(s, pid, r) && Quiet(s.past, r) && Rechecked(s.past, r) && LastLook(s, r)
  }

  ghost predicate Inv(s: System) {
    forall pid | pid in s.scripts :: Good(s, pid, s.scripts[pid])
  }

  /** A script that does not move keeps its facts, whoever else moves. */
  lemma {:induction false} BystanderKeepsGood(s: System, s': System, pid: nat, r: Script)
    requires Good(s, pid, r) && s'.past == s.past + [s.shared]
    requires StampOf(s'.shared) in {None, StampOf(s.shared)}
             || (StampOf(s'.shared).Some? && StampOf(s'.shared).value.pid != pid)
    ensures Good(s', pid, r)
  {
    assert forall i: nat | i <= |s.past| :: At(s', i) == At(s, i);
  }

  lemma {:induction false} MoverHolds(s: System, pid: nat)
    requires pid in s.scripts && Holds(s, pid, s.scripts[pid])
    ensures var (g, r) := Command(s.shared, |s.past|, pid, s.scripts[pid]);
            r.Some? ==> Holds(Next(s, Run(pid)), pid, r.value)
  {
    var s' := Next(s, Run(pid));
    assert forall i: nat | i <= |s.past| :: At(s', i) == At(s, i);
  }

  lemma {:induction false} SamplerIsQuiet(s: System, pid: nat, r: Script)
    requires Quiet(s.past, r) && r.pc.Sample?
    ensures var (_, r') := Command(s.shared, |s.past|, pid, r);
            r'.Some? ==> Quiet(s.past + [s.shared], r'.value)
  {
    QuietLater(s.past, r, s.shared);
    if s.shared.cpu.Some? && s.shared.clock >= r.wake && (r.samples == [] || s.shared.cpu.value == r.sum) {
      FlatGrows(s.past, s.shared, r.sawDue, r.samples, r.sum);
    }
  }

  lemma {:induction false} QuietLater(past: seq<Shared>, r: Script, g: Shared)
    requires Quiet(past, r)
    ensures Quiet(past + [g], r)
  {
  }

  lemma {:induction false} MoverIsQuiet(s: System, pid: nat, r: Script)
    requires r.pc.ReadClock? ==> r.wrote <= |s.past|
    requires Quiet(s.past, r)
    ensures var (_, r') := Command(s.shared, |s.past|, pid, r);
            r'.Some? ==> Quiet(s.past + [s.shared], r'.value)
  {
    var (_, r') := Command(s.shared, |s.past|, pid, r);
    if r.pc.Sample? {
      SamplerIsQuiet(s, pid, r);
    } else if r.pc.Check? {
      CheckerIsQuiet(s, pid, r);
    }
  }

  lemma {:induction false} CheckerIsQuiet(s: System, pid: nat, r: Script)
    requires Quiet(s.past, r) && r.pc.Check?
    ensures var (_, r') := Command(s.shared, |s.past|, pid, r);
            r'.Some? ==> Quiet(s.past + [s.shared], r'.value)
  {
    var (_, r') := Command(s.shared, |s.past|, pid, r);
    if r'.Some? {
      assert r'.value.samples == r.samples && r'.value.sum == r.sum;
      assert r'.value.sawDue == r.sawDue && r'.value.due == r.due && r'.value.wrote == r.wrote;
    }
  }

  lemma {:induction false} MoverRechecks(s: System, pid: nat, r: Script)
    requires Quiet(s.past, r) && Rechecked(s.past, r)
    ensures var (_, r') := Command(s.shared, |s.past|, pid, r);
            r'.Some? ==> Rechecked(s.past + [s.shared], r'.value)
  {
  }

  lemma {:induction false} MoverLooks(s: System, pid: nat)
    requires pid in s.scripts && Good(s, pid, s.scripts[pid])
    ensures var (g, r) := Command(s.shared, |s.past|, pid, s.scripts[pid]);
            r.Some? ==> LastLook(Next(s, Run(pid)), r.value)
  {
    var s' := Next(s, Run(pid));
    assert forall i: nat | i <= |s.past| :: At(s', i) == At(s, i);
  }

  lemma {:induction false} MoverKeepsGood(s: System, pid: nat)
    requires pid in s.scripts && Good(s, pid, s.scripts[pid])
    ensures var (g, r) := Command(s.shared, |s.past|, pid, s.scripts[pid]);
            r.Some? ==> Good(Next(s, Run(pid)), pid, r.value)
  {
    MoverHolds(s, pid);
    MoverIsQuiet(s, pid, s.scripts[pid]);
    MoverRechecks(s, pid, s.scripts[pid]);
    MoverLooks(s, pid);
  }

  lemma {:induction false} NextKeepsInv(s: System, l: Label)
    requires Inv(s)
    ensures Inv(Next(s, l))
  {
    var s' := Next(s, l);
    if s' != s {
      forall pid | pid in s'.scripts ensures Good(s', pid, s'.scripts[pid]) {
        if l == Run(pid) {
          MoverKeepsGood(s, pid);
        } else if pid in s.scripts {
          BystanderKeepsGood(s, s', pid, s.scripts[pid]);
        }
      }
    }
  }

  lemma {:induction false} BehaviourKeepsInv(g: Shared, labels: seq<Label>)
    ensures Inv(Behaviour(Start(g), labels))
  {
    if labels == [] {
    } else {
      BehaviourKeepsInv(g, labels[..|labels| - 1]);
      NextKeepsInv(Behaviour(Start(g), labels[..|labels| - 1]), labels[|labels| - 1]);
    }
  }

  // ---------- what a kill implies ----------

  /** Over every interleaving: a script that ends the session read the clock past its stamp and TTL,
      then three equal CPU sums at least five seconds apart, then no client, its TTL and its stamp, in
      that order; and from its write to that last reading its stamp stood, so no later detach had
      stamped the session and the session was still the one it had stamped. */
  lemma {:induction false} KillImplies(g: Shared, labels: seq<Label>, pid: nat)
    requires var s := Behaviour(Start(g), labels);
             pid in s.scripts && s.shared.session.Some? && Next(s, Run(pid)).shared.session.None?
    ensures var s := Behaviour(Start(g), labels);
            var r := s.scripts[pid];
            && r.stamp.Some? && r.stamp.value.pid == pid && AcceptedTtl(r.limit)
            && r.wrote <= r.sawDue < |s.past| && s.past[r.sawDue].clock >= r.stamp.value.second + Value(r.limit)
            && |r.samples| == 3 && Flat(s.past, r.sawDue, r.samples, r.sum)
            && r.samples[2] < r.sawDetached < r.sawTtl < r.sawStamp < |s.past|
            && s.past[r.sawDetached].session.Some? && s.past[r.sawDetached].session.value.attached == 0
            && s.past[r.sawTtl].session.Some? && s.past[r.sawTtl].session.value.ttl == r.limit
            && Untouched(s, r.wrote, r.sawStamp, r.stamp.value)
  {
    BehaviourKeepsInv(g, labels);
    var s := Behaviour(Start(g), labels);
    assert Good(s, pid, s.scripts[pid]);
  }

  /** Of two scripts that have both written, only the later one can still pass a check of its stamp. */
  lemma {:induction false} OnlyLatestWriterPasses(g: Shared, labels: seq<Label>, p: nat, q: nat)
    requires var s := Behaviour(Start(g), labels);
             && p in s.scripts && q in s.scripts && Written(s.scripts[p]) && Written(s.scripts[q])
             && s.scripts[p].wrote < s.scripts[q].wrote
    ensures var s := Behaviour(Start(g), labels);
            && !PartHolds(s.scripts[p], OwnStamp, s.shared.session)
            && (s.scripts[p].pc.Check? && s.scripts[p].pc.part == OwnStamp && s.shared.clock >= s.scripts[p].wake ==>
                  p !in Next(s, Run(p)).scripts)
  {
    BehaviourKeepsInv(g, labels);
    var s := Behaviour(Start(g), labels);
    assert Good(s, p, s.scripts[p]) && Good(s, q, s.scripts[q]);
    assert StampOf(At(s, s.scripts[q].wrote)) == s.scripts[q].stamp;
  }

  /** A stamp once lost, to another script or with the session, never comes back. */
  lemma {:induction false} LostStampStaysLost(g: Shared, labels: seq<Label>, pid: nat, i: nat)
    requires var s := Behaviour(Start(g), labels);
             && pid in s.scripts && Written(s.scripts[pid])
             && s.scripts[pid].wrote <= i <= |s.past| && StampOf(At(s, i)) != s.scripts[pid].stamp
    ensures var s := Behaviour(Start(g), labels);
            !PartHolds(s.scripts[pid], OwnStamp, s.shared.session)
  {
    BehaviourKeepsInv(g, labels);
    var s := Behaviour(Start(g), labels);
    assert Good(s, pid, s.scripts[pid]);
  }

  /** The sum the script computes for its due time stays a 64-bit number. */
  lemma {:induction false} DueFits(g: Shared, labels: seq<Label>, pid: nat)
    requires pid in Behaviour(Start(g), labels).scripts && Behaviour(Start(g), labels).scripts[pid].stamp.Some?
    ensures Behaviour(Start(g), labels).scripts[pid].due < 0x8000_0000_0000_0000
  {
    BehaviourKeepsInv(g, labels);
    var r := Behaviour(Start(g), labels).scripts[pid];
    assert Good(Behaviour(Start(g), labels), pid, r);
    AcceptedTtlBound(r.limit);
    Pow10Grows(|r.limit|);
  }

  lemma {:induction false} Pow10Grows(k: nat)
    requires k <= 9
    ensures Pow10(k) <= 1_000_000_000
    decreases 9 - k
  {
    if k < 9 {
      Pow10Grows(k + 1);
    } else {
      assert Pow10(5) == 100_000;
    }
  }

  // ---------- what a kill does not imply ----------

  function ClientsOf(g: Shared): Option<nat> {
    if g.session.Some? then Some(g.session.value.attached) else None
  }

  function TtlOf(g: Shared): Option<string> {
    if g.session.Some? then Some(g.session.value.ttl) else None
  }

  /** The last readings and the kill are separate commands. The kill ends a session that is detached,
      still under the script's TTL and still its own, exactly when each of the three stands as it was
      last read. */
  lemma {:induction false} WhenKillIsClean(g: Shared, labels: seq<Label>, pid: nat)
    requires var s := Behaviour(Start(g), labels); pid in s.scripts && s.scripts[pid].pc.Kill?
    ensures var s := Behaviour(Start(g), labels);
            var r := s.scripts[pid];
            && (s.shared.session == Some(Session(0, r.limit, r.stamp)) <==>
                  && ClientsOf(s.shared) == ClientsOf(At(s, r.sawDetached))
                  && TtlOf(s.shared) == TtlOf(At(s, r.sawTtl))
                  && StampOf(s.shared) == StampOf(At(s, r.sawStamp)))
            && Next(s, Run(pid)).shared.session == None
  {
    BehaviourKeepsInv(g, labels);
    var s := Behaviour(Start(g), labels);
    var r := s.scripts[pid];
    assert Good(s, pid, r);
    assert StampOf(At(s, r.sawStamp)) == r.stamp;
  }

  lemma {:induction false} Then(s: System, labels: seq<Label>, l: Label)
    ensures Behaviour(s, labels + [l]) == Next(Behaviour(s, labels), l)
  {
    assert (labels + [l])[..|labels|] == labels;
  }

  /** Script 7 of the example stands at `pc`, in a session it would pass every check of. */
  ghost predicate Example(s: System, pc: Pc) {
    && 7 in s.scripts && s.scripts[7].pc == pc
    && s.scripts[7].limit == "0" && s.scripts[7].due == 0 && s.scripts[7].wake <= s.shared.clock < 20
    && s.shared.session.Some? && s.shared.session.value.attached == 0 && s.shared.session.value.ttl == "0"
    && (s.scripts[7].stamp.None? || s.shared.session.value.detachedAt == s.scripts[7].stamp)
  }

  lemma {:induction false} CheckPasses(labels: seq<Label>, g: Shared, stage: Stage, part: Part)
    requires Example(Behaviour(Start(g), labels), Check(stage, part))
    ensures var (s, s') := (Behaviour(Start(g), labels), Behaviour(Start(g), labels + [Run(7)]));
            Example(s', NextPc(stage, part)) && s'.shared == s.shared && s'.scripts[7].samples == s.scripts[7].samples
  {
    Then(Start(g), labels, Run(7));
  }

  lemma {:induction false} CheckRound(g: Shared, labels: seq<Label>, stage: Stage) returns (more: seq<Label>)
    requires Example(Behaviour(Start(g), labels), Check(stage, Exists))
    ensures Example(Behaviour(Start(g), more), AfterCheck(stage))
    ensures Behaviour(Start(g), more).shared == Behaviour(Start(g), labels).shared
  {
    CheckPasses(labels, g, stage, Exists);
    CheckPasses(labels + [Run(7)], g, stage, Detached);
    CheckPasses(labels + [Run(7)] + [Run(7)], g, stage, SameTtl);
    CheckPasses(labels + [Run(7)] + [Run(7)] + [Run(7)], g, stage, OwnStamp);
    more := labels + [Run(7)] + [Run(7)] + [Run(7)] + [Run(7)];
  }

  lemma {:induction false} ReachFirstCheck(g: Shared) returns (labels: seq<Label>)
    requires g == Shared(Some(Session(0, "0", None)), 0, Some(0))
    ensures Example(Behaviour(Start(g), labels), Check(First, Exists)) && Behaviour(Start(g), labels).shared == g
  {
    var spawned := [] + [Spawn(7)];
    Then(Start(g), [], Spawn(7));
    Then(Start(g), spawned, Run(7));
    labels := spawned + [Run(7)];
  }

  lemma {:induction false} ReachDue(g: Shared, labels: seq<Label>) returns (more: seq<Label>)
    requires var s := Behaviour(Start(g), labels);
             Example(s, ReadStart) && s.shared.clock == 0 && s.shared.cpu == Some(0)
    ensures var s := Behaviour(Start(g), more);
            Example(s, Check(Due, Exists)) && s.shared.clock == 0 && s.shared.cpu == Some(0)
  {
    assert Value("0") == 0 by { assert "0"[..0] == []; }
    Then(Start(g), labels, Run(7));
    Then(Start(g), labels + [Run(7)], Run(7));
    Then(Start(g), labels + [Run(7)] + [Run(7)], Run(7));
    more := labels + [Run(7)] + [Run(7)] + [Run(7)];
  }

  lemma {:induction false} ReachSampling() returns (g: Shared, labels: seq<Label>)
    ensures var s := Behaviour(Start(g), labels);
            Example(s, Sample) && s.scripts[7].samples == [] && s.shared.clock == 0 && s.shared.cpu == Some(0)
  {
    g := Shared(Some(Session(0, "0", None)), 0, Some(0));
    var first := ReachFirstCheck(g);
    var held := CheckRound(g, first, First);
    var due := ReachDue(g, held);
    var passed := CheckRound(g, due, Due);
    Then(Start(g), passed, Run(7));
    labels := passed + [Run(7)];
  }

  /** In general it does not: a client may attach after the last check, and the kill still comes. */
  lemma {:induction false} KillCanMeetAClient() returns (g: Shared, labels: seq<Label>)
    ensures var s := Behaviour(Start(g), labels);
            && 7 in s.scripts && s.scripts[7].pc.Kill?
            && s.shared.session.Some? && s.shared.session.value.attached == 1
            && Next(s, Run(7)).shared.session == None
  {
    var sampling;
    g, sampling := ReachSampling();
    var sampled := SampleRound(g, sampling);
    var checked := CheckRound(g, sampled, Last);
    var s := Behaviour(Start(g), checked).shared;
    var attach := Environment(s.(session := Some(s.session.value.(attached := 1))));
    Then(Start(g), checked, attach);
    labels := checked + [attach];
  }

  /** A sample of the example, and then time for the next. */
  lemma {:induction false} OneSample(g: Shared, labels: seq<Label>, clock: nat)
    requires var s := Behaviour(Start(g), labels);
             && Example(s, Sample) && |s.scripts[7].samples| < 3 && s.shared.clock == clock <= 10
             && s.shared.cpu == Some(0) && (s.scripts[7].samples == [] || s.scripts[7].sum == 0)
    ensures var (s, s') := (Behaviour(Start(g), labels), Behaviour(Start(g), labels + [Run(7)]));
            && s'.shared == s.shared && 7 in s'.scripts
            && s'.scripts[7].samples == s.scripts[7].samples + [|s.past|] && s'.scripts[7].sum == 0
            && if |s.scripts[7].samples| == 2 then Example(s', Check(Last, Exists))
               else s'.scripts[7] == s.scripts[7].(sum := 0, samples := s'.scripts[7].samples, wake := clock + 5)
  {
    Then(Start(g), labels, Run(7));
  }

  lemma {:induction false} TimeForSample(g: Shared, labels: seq<Label>, clock: nat) returns (more: seq<Label>)
    requires var s := Behaviour(Start(g), labels);
             && Example(s, Sample) && |s.scripts[7].samples| < 2 && s.shared.clock == clock <= 5
             && s.shared.cpu == Some(0) && (s.scripts[7].samples == [] || s.scripts[7].sum == 0)
    ensures var (s, s') := (Behaviour(Start(g), labels), Behaviour(Start(g), more));
            && Example(s', Sample) && |s'.scripts[7].samples| == |s.scripts[7].samples| + 1 && s'.scripts[7].sum == 0
            && s'.shared.clock == clock + 5 && s'.shared.cpu == Some(0)
  {
    var tick := Environment(Behaviour(Start(g), labels).shared.(clock := clock + 5));
    OneSample(g, labels, clock);
    Then(Start(g), labels + [Run(7)], tick);
    more := labels + [Run(7)] + [tick];
  }

  lemma {:induction false} SampleRound(g: Shared, labels: seq<Label>) returns (more: seq<Label>)
    requires var s := Behaviour(Start(g), labels);
             Example(s, Sample) && s.scripts[7].samples == [] && s.shared.clock == 0 && s.shared.cpu == Some(0)
    ensures Example(Behaviour(Start(g), more), Check(Last, Exists))
  {
    var one := TimeForSample(g, labels, 0);
    var two := TimeForSample(g, one, 5);
    OneSample(g, two, 10);
    more := two + [Run(7)];
  }
}
