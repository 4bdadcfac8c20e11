/** A bounded queue of distinct ids: a new one that finds it full displaces the oldest. */
module RecentIds {
  predicate NoRepeats(ids: seq<string>) {
    forall i, j | 0 <= i < j < |ids| :: ids[i] != ids[j]
  }

  function Inserted(ids: seq<string>, id: string, cap: nat): seq<string> {
    if id in ids then ids else (if |ids| >= cap && |ids| > 0 then ids[1..] else ids) + [id]
  }

  function Taken(ids: seq<string>, id: string): seq<string> {
    if ids == [] then [] else if ids[0] == id then ids[1..] else [ids[0]] + Taken(ids[1..], id)
  }

  /** Taking an id removes it and nothing else. */
  lemma {:induction false} TakenRemovesOne(ids: seq<string>, id: string)
    requires NoRepeats(ids)
    ensures NoRepeats(Taken(ids, id)) && forall x :: x in Taken(ids, id) <==> x in ids && x != id
    ensures |Taken(ids, id)| == if id in ids then |ids| - 1 else |ids|
  {
    if ids == [] {
    } else {
      forall x | x in ids[1..] ensures x != ids[0] {
        var j :| 0 <= j < |ids[1..]| && ids[1..][j] == x;
        assert ids[j + 1] == x;
      }
      if ids[0] != id {
        TakenRemovesOne(ids[1..], id);
        var t := Taken(ids[1..], id);
        assert Taken(ids, id) == [ids[0]] + t;
        forall i, j | 0 <= i < j < |t| + 1 ensures ([ids[0]] + t)[i] != ([ids[0]] + t)[j] {
          assert t[j - 1] in t;
        }
      }
    }
  }

  class Recent {
    const cap: nat
    var ids: seq<string>

    constructor (cap: nat)
      ensures ids == [] && this.cap == cap
    {
      this.cap, ids := cap, [];
    }

    method Contains(id: string) returns (found: bool)
      ensures found <==> id in ids
    {
      for i := 0 to |ids|
        invariant id !in ids[..i]
      {
        if ids[i] == id {
          return true;
        }
      }
      return false;
    }

    method Insert(id: string)
      modifies this
      ensures ids == Inserted(old(ids), id, cap)
    {
      var found := Contains(id);
      if found {
        return;
      }
      if |ids| >= cap && |ids| > 0 {
        ids := ids[1..];
      }
      ids := ids + [id];
    }

    method Take(id: string) returns (taken: bool)
      modifies this
      ensures ids == Taken(old(ids), id)
      ensures taken <==> id in old(ids)
    {
      for i := 0 to |ids|
        invariant ids == old(ids) && id !in ids[..i]
        invariant Taken(ids, id) == ids[..i] + Taken(ids[i..], id)
      {
        if ids[i] == id {
          assert ids[i..][1..] == ids[i + 1..];
          ids := ids[..i] + ids[i + 1..];
          return true;
        }
        assert ids[i..][1..] == ids[i + 1..];
        assert ids[..i] + ([ids[i]] + Taken(ids[i + 1..], id)) == ids[..i + 1] + Taken(ids[i + 1..], id);
      }
      assert ids[|ids|..] == [] && ids[..|ids|] == ids;
      return false;
    }
  }
}

/** Host-key prompts that wait for the user, and cancels that arrive before their prompt does. */
module PendingConflicts {
  import opened Outcomes
  import opened RecentIds

  const MAX_EARLY_ABORTS := 32

  datatype Action = AddNew | Replace | Abort

  /** `waiting` maps a session to the number of its prompt; `told` is what each prompt was told. */
  datatype Slots = Slots(waiting: map<string, nat>, aborted: seq<string>, prompts: nat, told: map<nat, Action>)

  datatype Op = Resolve(session: string, action: Action) | Cancel(session: string) | Wait(session: string)

  function Told(s: Slots, session: string, action: Action): Slots
    requires session in s.waiting
  {
    s.(waiting := s.waiting - {session}, told := s.told[s.waiting[session] := action])
  }

  function Step(s: Slots, op: Op): Slots {
    match op
    case Resolve(id, action) => if id in s.waiting then Told(s, id, action) else s
    case Cancel(id) =>
      if id in s.waiting then Told(s, id, Abort) else s.(aborted := Inserted(s.aborted, id, MAX_EARLY_ABORTS))
    case Wait(id) =>
      if id in s.aborted then s.(aborted := Taken(s.aborted, id))
      else s.(waiting := s.waiting[id := s.prompts], prompts := s.prompts + 1)
  }

  function Run(s: Slots, ops: seq<Op>): Slots {
    if ops == [] then s else Step(Run(s, ops[..|ops| - 1]), ops[|ops| - 1])
  }

  /** No session is both waiting and cancelled early; the early cancels are few, distinct, and a
      prompt that still waits has been told nothing. */
  ghost predicate Inv(s: Slots) {
    && |s.aborted| <= MAX_EARLY_ABORTS && NoRepeats(s.aborted)
    && (forall id | id in s.waiting :: id !in s.aborted && s.waiting[id] < s.prompts && s.waiting[id] !in s.told)
    && (forall a, b | a in s.waiting && b in s.waiting && a != b :: s.waiting[a] != s.waiting[b])
    && (forall n | n in s.told :: n < s.prompts)
  }

  lemma {:induction false} StepKeepsInv(s: Slots, op: Op)
    requires Inv(s)
    ensures Inv(Step(s, op))
  {
    if op.Wait? {
      TakenRemovesOne(s.aborted, op.session);
    }
  }

  lemma {:induction false} RunKeepsInv(ops: seq<Op>)
    ensures Inv(Run(Slots(map[], [], 0, map[]), ops))
  {
    if ops == [] {
    } else {
      RunKeepsInv(ops[..|ops| - 1]);
      StepKeepsInv(Run(Slots(map[], [], 0, map[]), ops[..|ops| - 1]), ops[|ops| - 1]);
    }
  }

  /** A prompt is told something at most once. */
  lemma {:induction false} ToldOnce(s: Slots, op: Op, n: nat)
    requires Inv(s) && n in s.told
    ensures n in Step(s, op).told && Step(s, op).told[n] == s.told[n]
  {
  }

  // ---------- how long an early cancel lasts ----------

  /** How many cancels of the run add an id that was neither waiting nor cancelled already. */
  function NewCancels(s: Slots, ops: seq<Op>): nat {
    if ops == [] then 0
    else
      var (before, op) := (Run(s, ops[..|ops| - 1]), ops[|ops| - 1]);
      NewCancels(s, ops[..|ops| - 1]) +
      if op.Cancel? && op.session !in before.waiting && op.session !in before.aborted then 1 else 0
  }

  /** The number of early cancels that arrived after the one of `id`. */
  function Behind(ids: seq<string>, id: string): nat
    requires id in ids
  {
    if ids[0] == id then |ids| - 1 else Behind(ids[1..], id)
  }

  /** `x` is one of those. */
  predicate Follows(ids: seq<string>, id: string, x: string)
    requires id in ids
  {
    if ids[0] == id then x in ids[1..] else Follows(ids[1..], id, x)
  }

  lemma {:induction false} BehindGrows(ids: seq<string>, id: string, x: string)
    requires id in ids
    ensures Behind(ids + [x], id) == Behind(ids, id) + 1
  {
    if ids[0] == id {
      assert (ids + [x])[0] == id;
    } else {
      assert (ids + [x])[1..] == ids[1..] + [x] && (ids + [x])[0] == ids[0];
      BehindGrows(ids[1..], id, x);
    }
  }

  lemma {:induction false} BehindAfterTake(ids: seq<string>, id: string, x: string)
    requires id in ids && x != id && NoRepeats(ids)
    ensures id in Taken(ids, x)
    ensures Behind(Taken(ids, x), id) == Behind(ids, id) - if Follows(ids, id, x) then 1 else 0
  {
    TakenRemovesOne(ids, x);
    if ids[0] == id {
      TakenRemovesOne(ids[1..], x);
      assert Taken(ids, x) == [id] + Taken(ids[1..], x);
    } else if ids[0] != x {
      BehindAfterTake(ids[1..], id, x);
      assert Taken(ids, x)[1..] == Taken(ids[1..], x);
    } else {
      assert Taken(ids, x) == ids[1..];
      forall j | 0 <= j < |ids[1..]| ensures ids[1..][j] != x {
        assert ids[1..][j] == ids[j + 1];
      }
      FollowsIsThere(ids[1..], id, x);
    }
  }

  lemma {:induction false} FollowsIsThere(ids: seq<string>, id: string, x: string)
    requires id in ids
    ensures Follows(ids, id, x) ==> x in ids
  {
    if ids[0] == id {
    } else {
      FollowsIsThere(ids[1..], id, x);
    }
  }

  lemma {:induction false} BehindBound(ids: seq<string>, id: string)
    requires id in ids
    ensures Behind(ids, id) < |ids| && (ids[0] != id ==> Behind(ids, id) < |ids| - 1)
  {
    if ids[0] == id {
    } else {
      BehindBound(ids[1..], id);
    }
  }

  /** One more new id pushes `id` out exactly when 31 others arrived after it. */
  lemma {:induction false} NewIdPushes(ids: seq<string>, id: string, x: string)
    requires id in ids && x !in ids && NoRepeats(ids) && |ids| <= MAX_EARLY_ABORTS
    ensures var ids' := Inserted(ids, x, MAX_EARLY_ABORTS);
            && (id in ids' <==> Behind(ids, id) + 1 < MAX_EARLY_ABORTS)
            && (id in ids' ==> Behind(ids', id) == Behind(ids, id) + 1)
  {
    BehindBound(ids, id);
    if |ids| >= MAX_EARLY_ABORTS {
      if ids[0] == id {
        forall j | 0 <= j < |ids[1..]| ensures ids[1..][j] != id {
          assert ids[1..][j] == ids[j + 1];
        }
      } else {
        BehindGrows(ids[1..], id, x);
      }
    } else {
      BehindGrows(ids, id, x);
    }
  }

  /** An early cancel stands as long as fewer than 32 new ids were cancelled after it, whatever else
      happens, until its own session asks. */
  lemma {:induction false} EarlyCancelStands(s: Slots, id: string, ops: seq<Op>)
    requires Inv(s) && id in s.aborted
    requires forall op | op in ops :: op != Wait(id)
    requires Behind(s.aborted, id) + NewCancels(s, ops) < 32
    ensures var s' := Run(s, ops);
            Inv(s') && id in s'.aborted && Behind(s'.aborted, id) <= Behind(s.aborted, id) + NewCancels(s, ops)
  {
    if ops == [] {
    } else {
      var init, op := ops[..|ops| - 1], ops[|ops| - 1];
      assert op in ops && forall o | o in init :: o in ops;
      EarlyCancelStands(s, id, init);
      var b := Run(s, init);
      StepKeepsInv(b, op);
      if op.Wait? && op.session in b.aborted {
        BehindAfterTake(b.aborted, id, op.session);
      }
      if op.Cancel? && op.session !in b.waiting && op.session !in b.aborted {
        NewIdPushes(b.aborted, id, op.session);
      }
    }
  }

  /** How far an operation moves the number of early cancels behind that of `id`: a new one adds to it,
      and a session that asks leaves it. */
  function Change(s: Slots, id: string, op: Op): int {
    match op
    case Resolve(_, _) => 0
    case Cancel(x) => if x !in s.waiting && x !in s.aborted then 1 else 0
    case Wait(x) => if id in s.aborted && Follows(s.aborted, id, x) then -1 else 0
  }

  function Newer(s: Slots, id: string, ops: seq<Op>): int
    requires id in s.aborted
  {
    if ops == [] then Behind(s.aborted, id)
    else Newer(s, id, ops[..|ops| - 1]) + Change(Run(s, ops[..|ops| - 1]), id, ops[|ops| - 1])
  }

  /** The early cancel of `id` is there at every moment of the run. */
  ghost predicate Stands(s: Slots, id: string, ops: seq<Op>) {
    id in Run(s, ops).aborted && (ops != [] ==> Stands(s, id, ops[..|ops| - 1]))
  }

  /** At every moment of the run fewer than 32 newer ones are there. */
  ghost predicate Fits(s: Slots, id: string, ops: seq<Op>)
    requires id in s.aborted
  {
    Newer(s, id, ops) < 32 && (ops != [] ==> Fits(s, id, ops[..|ops| - 1]))
  }

  lemma {:induction false} OperationMoves(s: Slots, id: string, op: Op)
    requires Inv(s) && id in s.aborted && op != Wait(id)
    ensures Inv(Step(s, op))
    ensures id in Step(s, op).aborted <==> Behind(s.aborted, id) + Change(s, id, op) < MAX_EARLY_ABORTS
    ensures id in Step(s, op).aborted ==> Behind(Step(s, op).aborted, id) == Behind(s.aborted, id) + Change(s, id, op)
  {
    StepKeepsInv(s, op);
    BehindBound(s.aborted, id);
    if op.Wait? {
      if op.session in s.aborted {
        BehindAfterTake(s.aborted, id, op.session);
      } else {
        FollowsIsThere(s.aborted, id, op.session);
      }
    }
    if op.Cancel? && op.session !in s.waiting && op.session !in s.aborted {
      NewIdPushes(s.aborted, id, op.session);
    }
  }

  /** The exact limit: until its own session asks, an early cancel is there all the time exactly while
      fewer than 32 newer ones are. Repeats of it count for nothing. */
  lemma {:induction false} EarlyCancelLimit(s: Slots, id: string, ops: seq<Op>)
    requires Inv(s) && id in s.aborted
    requires forall op | op in ops :: op != Wait(id)
    ensures Inv(Run(s, ops))
    ensures Stands(s, id, ops) <==> Fits(s, id, ops)
    ensures Stands(s, id, ops) ==> Behind(Run(s, ops).aborted, id) == Newer(s, id, ops)
  {
    if ops == [] {
      BehindBound(s.aborted, id);
    } else {
      var init, op := ops[..|ops| - 1], ops[|ops| - 1];
      assert op in ops && forall o | o in init :: o in ops;
      EarlyCancelLimit(s, id, init);
      StepKeepsInv(Run(s, init), op);
      if Stands(s, id, init) {
        OperationMoves(Run(s, init), id, op);
      }
    }
  }

  /** Cancelling before the prompt refuses exactly the next prompt of that session. */
  lemma {:induction false} CancelRefusesTheNextPromptOnly(s: Slots, id: string, ops: seq<Op>)
    requires Inv(s) && id !in s.waiting && id !in s.aborted
    requires forall op | op in ops :: op != Wait(id)
    requires NewCancels(Step(s, Cancel(id)), ops) < 32
    ensures var t := Run(Step(s, Cancel(id)), ops);
            && id in t.aborted && id !in t.waiting
            && id !in Step(t, Wait(id)).aborted && id in Step(Step(t, Wait(id)), Wait(id)).waiting
  {
    var t := Step(s, Cancel(id));
    StepKeepsInv(s, Cancel(id));
    LastHasNoneBehind(if |s.aborted| >= MAX_EARLY_ABORTS then s.aborted[1..] else s.aborted, id);
    EarlyCancelStands(t, id, ops);
    TakenRemovesOne(Run(t, ops).aborted, id);
  }

  lemma {:induction false} LastHasNoneBehind(ids: seq<string>, id: string)
    requires id !in ids
    ensures id in ids + [id] && Behind(ids + [id], id) == 0
  {
    assert (ids + [id])[|ids|] == id;
    if ids == [] {
    } else {
      assert (ids + [id])[1..] == ids[1..] + [id] && (ids + [id])[0] == ids[0] && ids[0] in ids;
      LastHasNoneBehind(ids[1..], id);
    }
  }

  /** Cancelling again changes nothing, the place in the queue included. */
  lemma {:induction false} RepeatDoesNotRenew(s: Slots, id: string)
    requires Inv(s) && id in s.aborted
    ensures Step(s, Cancel(id)) == s
  {
  }

  // ---------- what a prompt hears ----------

  /** What becomes of a prompt while `ops` happen: None as long as it waits, else the action it is told,
      or no action if a further prompt of its session takes its place. The first operation that names the
      session decides. */
  function Outcome(session: string, ops: seq<Op>): Option<Option<Action>> {
    if ops == [] then None else Decided(Outcome(session, ops[..|ops| - 1]), session, ops[|ops| - 1])
  }

  function Decided(before: Option<Option<Action>>, session: string, op: Op): Option<Option<Action>> {
    if before.Some? || op.session != session then before
    else
      match op
      case Resolve(_, action) => Some(Some(action))
      case Cancel(_) => Some(Some(Abort))
      case Wait(_) => Some(None)
  }

  /** Prompt `n` of the session stands as `o` says: it waits, was told something, or was replaced. */
  ghost predicate PromptAt(s: Slots, session: string, n: nat, o: Option<Option<Action>>) {
    && n < s.prompts
    && (o.None? ==> session in s.waiting && s.waiting[session] == n)
    && (o.Some? ==> forall id | id in s.waiting :: s.waiting[id] != n)
    && (n in s.told <==> o.Some? && o.value.Some?)
    && (n in s.told ==> s.told[n] == o.value.value)
  }

  lemma {:induction false} PromptMoves(s: Slots, session: string, n: nat, o: Option<Option<Action>>, op: Op)
    requires Inv(s) && PromptAt(s, session, n, o)
    ensures PromptAt(Step(s, op), session, n, Decided(o, session, op))
  {
    StepKeepsInv(s, op);
  }

  /** A prompt hears exactly that, whatever other sessions do. */
  lemma {:induction false} PromptHears(s: Slots, session: string, ops: seq<Op>)
    requires Inv(s) && session !in s.aborted
    ensures Inv(Run(Step(s, Wait(session)), ops))
    ensures PromptAt(Run(Step(s, Wait(session)), ops), session, s.prompts, Outcome(session, ops))
  {
    var start := Step(s, Wait(session));
    if ops == [] {
      StepKeepsInv(s, Wait(session));
    } else {
      var init, op := ops[..|ops| - 1], ops[|ops| - 1];
      PromptHears(s, session, init);
      StepKeepsInv(Run(start, init), op);
      PromptMoves(Run(start, init), session, s.prompts, Outcome(session, init), op);
    }
  }

  // ---------- the code ----------

  class Pending {
    var waiting: map<string, nat>
    const aborted: Recent
    var prompts: nat
    var told: map<nat, Action>

    function Now(): Slots
      reads this, aborted
    {
      Slots(waiting, aborted.ids, prompts, told)
    }

    ghost predicate Valid()
      reads this, aborted
    {
      aborted.cap == MAX_EARLY_ABORTS && Inv(Now())
    }

    constructor ()
      ensures Valid() && Now() == Slots(map[], [], 0, map[]) && fresh(aborted)
    {
      waiting, prompts, told := map[], 0, map[];
      aborted := new Recent(MAX_EARLY_ABORTS);
    }

    method Resolve(session: string, action: Action)
      requires Valid()
      modifies this
      ensures Valid() && Now() == Step(old(Now()), Op.Resolve(session, action))
    {
      StepKeepsInv(Now(), Op.Resolve(session, action));
      if session in waiting {
        told := told[waiting[session] := action];
        waiting := waiting - {session};
      }
    }

    method Cancel(session: string)
      requires Valid()
      modifies this, aborted
      ensures Valid() && Now() == Step(old(Now()), Op.Cancel(session))
    {
      StepKeepsInv(Now(), Op.Cancel(session));
      if session in waiting {
        told := told[waiting[session] := Abort];
        waiting := waiting - {session};
        return;
      }
      aborted.Insert(session);
    }

    /** Gives a new prompt, or none if this session's early cancel is there, which is then spent. */
    method Wait(session: string) returns (prompt: Option<nat>)
      requires Valid()
      modifies this, aborted
      ensures Valid() && Now() == Step(old(Now()), Op.Wait(session))
      ensures prompt == if session in old(aborted.ids) then None else Some(old(prompts))
    {
      StepKeepsInv(Now(), Op.Wait(session));
      var refused := aborted.Take(session);
      if refused {
        return None;
      }
      AbsentTakesNothing(old(aborted.ids), session);
      waiting := waiting[session := prompts];
      prompts := prompts + 1;
      return Some(prompts - 1);
    }

    /** What the prompt hears while all this happens. */
    method Receive(prompt: nat, meanwhile: seq<Op>) returns (reply: Option<Action>)
      requires Valid()
      modifies this, aborted
      ensures Valid() && Now() == Run(old(Now()), meanwhile)
      ensures reply == if prompt in told then Some(told[prompt]) else None
    {
      for i := 0 to |meanwhile|
        invariant Valid() && Now() == Run(old(Now()), meanwhile[..i])
      {
        assert meanwhile[..i + 1][..i] == meanwhile[..i];
        match meanwhile[i]
        case Resolve(session, action) => Resolve(session, action);
        case Cancel(session) => Cancel(session);
        case Wait(session) => var _ := Wait(session);
      }
      assert meanwhile[..|meanwhile|] == meanwhile;
      reply := if prompt in told then Some(told[prompt]) else None;
    }
  }

  lemma {:induction false} AbsentTakesNothing(ids: seq<string>, id: string)
    requires id !in ids
    ensures Taken(ids, id) == ids
  {
    if ids == [] {
    } else {
      AbsentTakesNothing(ids[1..], id);
    }
  }
}
