/** What each round of checks and each nap of the reaper is for: a script writes its stamp only after it
    saw no client and its own TTL, it leaves whatever check fails, and no nap outlasts the due time. */
module ReaperRounds {
  import opened Outcomes
  import opened Reaper

  // ---------- numbers as the script tests them ----------

  lemma {:induction false} ValuePositive(s: string)
    requires Digits(s) && s != [] && s[0] != '0'
    ensures Value(s) > 0
  {
    if |s| == 1 {
      assert s[..0] == [];
    } else {
      ValuePositive(s[..|s| - 1]);
    }
  }

  lemma {:induction false} DecimalOfValue(s: string)
    requires Digits(s) && s != [] && (s[0] == '0' ==> |s| == 1)
    ensures Decimal(Value(s)) == s
  {
    var (init, last) := (s[..|s| - 1], s[|s| - 1]);
    assert s == init + [last] && '0' + (last - '0') as nat as char == last;
    if |s| == 1 {
      assert Value(init) == 0;
    } else {
      DecimalOfValue(init);
      ValuePositive(init);
      assert Value(s) / 10 == Value(init) && Value(s) % 10 == (last - '0') as nat;
    }
  }

  lemma {:induction false} Pow10Monotone(a: nat, b: nat)
    requires a <= b
    ensures 0 < Pow10(a) <= Pow10(b)
    decreases b
  {
    if a == b {
      if a > 0 {
        Pow10Monotone(a - 1, a - 1);
      }
    } else {
      Pow10Monotone(a, b - 1);
    }
  }

  /** A number has at most `k` digits exactly when it is below the power of ten. */
  lemma {:induction false} DigitsCount(n: nat, k: nat)
    requires k > 0
    ensures Digits(Decimal(n)) && (|Decimal(n)| <= k <==> n < Pow10(k))
  {
    DecimalHasDigits(n);
    if |Decimal(n)| <= k {
      AcceptedTtlBound(Decimal(n));
      Pow10Monotone(|Decimal(n)|, k);
    }
    if n < Pow10(k) {
      DecimalReads(n, k);
    }
  }

  lemma {:induction false} DecimalHasDigits(n: nat)
    ensures Digits(Decimal(n)) && Value(Decimal(n)) == n && Decimal(n) != []
    decreases n
  {
    if n < 10 {
      assert Decimal(n)[..0] == [];
    } else {
      DecimalHasDigits(n / 10);
      var head := Decimal(n / 10);
      assert Decimal(n)[..|Decimal(n)| - 1] == head;
    }
  }

  lemma {:induction false} BigPowers()
    ensures Pow10(9) == MAX_TTL_SECS + 1 && Pow10(11) == CLOCK_LIMIT
  {
    assert Pow10(5) == 100_000;
    assert Pow10(9) == 10 * Pow10(8) == 100 * Pow10(7) == 1000 * Pow10(6) == 10000 * Pow10(5);
    assert Pow10(11) == 10 * Pow10(10) == 100 * Pow10(9);
  }

  /** A number up to the limit, in decimal. */
  ghost predicate TtlText(s: string) {
    exists n: nat :: n <= MAX_TTL_SECS && s == Decimal(n)
  }

  /** The script accepts exactly such texts as a TTL. */
  lemma {:induction false} AcceptedTtlsAreDecimals(s: string)
    ensures AcceptedTtl(s) <==> TtlText(s)
  {
    BigPowers();
    if AcceptedTtl(s) {
      DecimalOfValue(s);
      AcceptedTtlBound(s);
      Pow10Monotone(|s|, 9);
    }
    if n: nat :| n <= MAX_TTL_SECS && s == Decimal(n) {
      DecimalReads(n, 9);
    }
  }

  /** It accepts as a clock reading exactly what has eleven digits or fewer. */
  lemma {:induction false} AcceptedClocks(clock: nat)
    ensures clock < CLOCK_LIMIT <==> |Decimal(clock)| <= 11
  {
    BigPowers();
    DigitsCount(clock, 11);
  }

  // ---------- when a script goes on and when it leaves ----------

  /** What takes a script away at a command it makes awake. */
  ghost predicate MustLeave(g: Shared, r: Script) {
    match r.pc
    case ReadTtl => g.session.None? || !TtlText(g.session.value.ttl)
    case Check(_, Exists) => g.session.None?
    case Check(_, Detached) => g.session.None? || g.session.value.attached > 0
    case Check(_, SameTtl) => g.session.None? || g.session.value.ttl != r.limit
    case Check(_, OwnStamp) => r.stamp.Some? && (g.session.None? || g.session.value.detachedAt != r.stamp)
    case ReadStart => |Decimal(g.clock)| > 11
    case Write => g.session.None?
    case ReadClock => |Decimal(g.clock)| > 11
    case ListPanes => g.session.None?
    case Sample => g.cpu.None? || (r.samples != [] && g.cpu.value != r.sum)
    case Kill => true
  }

  predicate Asleep(g: Shared, r: Script) {
    (r.pc.Check? || r.pc.Sample?) && g.clock < r.wake
  }

  /** Asleep a script does nothing. Awake it is gone after a command exactly when there is cause, in
      every round of checks alike. */
  lemma {:induction false} WhenScriptLeaves(s: System, pid: nat)
    requires pid in s.scripts && (s.scripts[pid].pc.ReadStart? ==> Digits(s.scripts[pid].limit))
    ensures var (g, r, s') := (s.shared, s.scripts[pid], Next(s, Run(pid)));
            && (Asleep(g, r) ==> s'.shared == g && s'.scripts == s.scripts)
            && (!Asleep(g, r) ==> (pid !in s'.scripts <==> MustLeave(g, r)))
  {
    var (g, r) := (s.shared, s.scripts[pid]);
    AcceptedClocks(g.clock);
    if g.session.Some? {
      AcceptedTtlsAreDecimals(g.session.value.ttl);
    }
  }

  /** A script changes nothing of the session but by writing its stamp into it and by ending it. */
  lemma {:induction false} OnlyStampAndKill(s: System, pid: nat)
    requires pid in s.scripts
    ensures var (g, r, g') := (s.shared, s.scripts[pid], Next(s, Run(pid)).shared);
            && g'.clock == g.clock && g'.cpu == g.cpu
            && (g'.session != g.session ==> (r.pc.Write? && g.session.Some?) || r.pc.Kill?)
            && (r.pc.Write? && g.session.Some? ==> g'.session == Some(g.session.value.(detachedAt := r.stamp)))
            && (r.pc.Kill? ==> g'.session.None?)
  {
  }

  // ---------- before the write, and the naps ----------

  ghost predicate NoClient(past: seq<Shared>, i: nat) {
    i < |past| && past[i].session.Some? && past[i].session.value.attached == 0
  }

  ghost predicate UnderTtl(past: seq<Shared>, i: nat, limit: string) {
    i < |past| && past[i].session.Some? && past[i].session.value.ttl == limit
  }

  /** The script has passed that check of its first round, and has not written yet. */
  predicate SawNoClient(pc: Pc) {
    pc.ReadStart? || pc.Write? || (pc.Check? && pc.stage == First && (pc.part == SameTtl || pc.part == OwnStamp))
  }

  predicate SawTtl(pc: Pc) {
    pc.ReadStart? || pc.Write? || (pc.Check? && pc.stage == First && pc.part == OwnStamp)
  }

  /** A nap ends five minutes after the reading it was taken at, or at the due time if that is sooner. */
  ghost predicate Napping(past: seq<Shared>, r: Script) {
    && r.sawClock < |past| && past[r.sawClock].clock < r.due
    && past[r.sawClock].clock < r.wake <= r.due && r.wake <= past[r.sawClock].clock + 300
    && (r.wake == r.due || r.wake == past[r.sawClock].clock + 300)
  }

  ghost predicate Vetted(past: seq<Shared>, r: Script) {
    && (SawNoClient(r.pc) ==> NoClient(past, r.sawDetached))
    && (SawTtl(r.pc) ==> r.sawDetached < r.sawTtl && UnderTtl(past, r.sawTtl, r.limit))
    && (Written(r) ==>
          && r.firstDetached < r.firstTtl < r.wrote <= |past|
          && NoClient(past, r.firstDetached) && UnderTtl(past, r.firstTtl, r.limit))
    && (r.pc.Check? && r.pc.stage == Waiting ==> Napping(past, r))
    && (Written(r) ==> !r.pc.ReadTtl?)
  }

  lemma {:induction false} VettedLater(past: seq<Shared>, r: Script, g: Shared)
    requires Vetted(past, r)
    ensures Vetted(past + [g], r)
  {
  }

  lemma {:induction false} CommandKeepsVetted(s: System, pid: nat, r: Script)
    requires Vetted(s.past, r)
    ensures var (_, r') := Command(s.shared, |s.past|, pid, r);
            r'.Some? ==> Vetted(s.past + [s.shared], r'.value)
  {
    VettedLater(s.past, r, s.shared);
    if r.pc.Check? && r.pc.stage == First {
      FirstRoundKeepsVetted(s, pid, r);
    } else if r.pc.Check? {
      CheckKeepsVetted(s, pid, r);
    } else if r.pc.ReadClock? {
      ClockKeepsVetted(s, pid, r);
    }
  }

  lemma {:induction false} FirstRoundKeepsVetted(s: System, pid: nat, r: Script)
    requires Vetted(s.past, r) && Vetted(s.past + [s.shared], r) && r.pc.Check? && r.pc.stage == First
    ensures var (_, r') := Command(s.shared, |s.past|, pid, r);
            r'.Some? ==> Vetted(s.past + [s.shared], r'.value)
  {
    assert (s.past + [s.shared])[|s.past|] == s.shared;
  }

  lemma {:induction false} CheckKeepsVetted(s: System, pid: nat, r: Script)
    requires Vetted(s.past, r) && Vetted(s.past + [s.shared], r) && r.pc.Check? && r.pc.stage != First
    ensures var (_, r') := Command(s.shared, |s.past|, pid, r);
            r'.Some? ==> Vetted(s.past + [s.shared], r'.value)
  {
    assert (s.past + [s.shared])[|s.past|] == s.shared;
  }

  lemma {:induction false} ClockKeepsVetted(s: System, pid: nat, r: Script)
    requires Vetted(s.past, r) && Vetted(s.past + [s.shared], r) && r.pc.ReadClock?
    ensures var (_, r') := Command(s.shared, |s.past|, pid, r);
            r'.Some? ==> Vetted(s.past + [s.shared], r'.value)
  {
    assert (s.past + [s.shared])[|s.past|] == s.shared;
  }

  ghost predicate AllVetted(s: System) {
    forall pid | pid in s.scripts :: Vetted(s.past, s.scripts[pid])
  }

  lemma {:induction false} NextKeepsVetted(s: System, l: Label)
    requires AllVetted(s)
    ensures AllVetted(Next(s, l))
  {
    var s' := Next(s, l);
    if s' != s {
      forall pid | pid in s'.scripts ensures Vetted(s'.past, s'.scripts[pid]) {
        if l == Run(pid) {
          CommandKeepsVetted(s, pid, s.scripts[pid]);
        } else if pid in s.scripts {
          VettedLater(s.past, s.scripts[pid], s.shared);
        }
      }
    }
  }

  lemma {:induction false} BehaviourKeepsVetted(g: Shared, labels: seq<Label>)
    ensures AllVetted(Behaviour(Start(g), labels))
  {
    if labels == [] {
    } else {
      BehaviourKeepsVetted(g, labels[..|labels| - 1]);
      NextKeepsVetted(Behaviour(Start(g), labels[..|labels| - 1]), labels[|labels| - 1]);
    }
  }

  /** Over every interleaving: a script that has written its stamp had seen the session without a client
      and then under its TTL, in that order and before it wrote. */
  lemma {:induction false} WritersLookedFirst(g: Shared, labels: seq<Label>, pid: nat)
    requires pid in Behaviour(Start(g), labels).scripts && Written(Behaviour(Start(g), labels).scripts[pid])
    ensures var s := Behaviour(Start(g), labels);
            var r := s.scripts[pid];
            && r.firstDetached < r.firstTtl < r.wrote <= |s.past|
            && s.past[r.firstDetached].session.Some? && s.past[r.firstDetached].session.value.attached == 0
            && s.past[r.firstTtl].session.Some? && s.past[r.firstTtl].session.value.ttl == r.limit
            && StampOf(At(s, r.wrote)) == r.stamp
  {
    BehaviourKeepsVetted(g, labels);
    BehaviourKeepsInv(g, labels);
    var s := Behaviour(Start(g), labels);
    assert Vetted(s.past, s.scripts[pid]) && Good(s, pid, s.scripts[pid]);
  }

  /** Over every interleaving: no nap lasts beyond the due time, nor more than five minutes. */
  lemma {:induction false} NapsEndInTime(g: Shared, labels: seq<Label>, pid: nat)
    requires var s := Behaviour(Start(g), labels);
             pid in s.scripts && s.scripts[pid].pc.Check? && s.scripts[pid].pc.stage == Waiting
    ensures var s := Behaviour(Start(g), labels);
            var r := s.scripts[pid];
            && r.sawClock < |s.past| && s.past[r.sawClock].clock < r.wake
            && r.wake == if r.due <= s.past[r.sawClock].clock + 300 then r.due else s.past[r.sawClock].clock + 300
  {
    BehaviourKeepsVetted(g, labels);
    assert Vetted(Behaviour(Start(g), labels).past, Behaviour(Start(g), labels).scripts[pid]);
  }
}
