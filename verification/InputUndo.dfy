/** Undo and redo of text fields: snapshots behind and ahead of the present value. */
module InputUndo {
  import opened Outcomes

  const MAX_HISTORY: nat := 100
  const PUSH_INTERVAL: nat := 500

  datatype History = History(past: seq<string>, future: seq<string>, lastPushAt: nat)

  datatype Field = Field(value: string, history: Option<History>)

  /** `Assigned`: the program sets the value, and no input event comes of it. */
  datatype Event = Input(value: string, now: nat) | Undo | Redo | Assigned(value: string)

  function LastOf(s: seq<string>): seq<string> {
    if |s| > MAX_HISTORY then s[|s| - MAX_HISTORY..] else s
  }

  function HistoryOf(f: Field): History {
    if f.history.Some? then f.history.value else History([f.value], [], 0)
  }

  /** A quiet spell since the last snapshot starts a new one; within a burst the last is overwritten. */
  function Typed(f: Field, value: string, now: nat): Field {
    var h := HistoryOf(Field(value, f.history));
    Field(value, Some(
      if now > h.lastPushAt + PUSH_INTERVAL then History(LastOf(h.past + [value]), [], now)
      else h.(past := (if h.past == [] then [] else h.past[..|h.past| - 1]) + [value])))
  }

  function Undone(f: Field): Field {
    var h := HistoryOf(f);
    var n := |h.past|;
    if n <= 1 then f.(history := Some(h))
    else Field(h.past[n - 2], Some(h.(past := h.past[..n - 1], future := [h.past[n - 1]] + h.future)))
  }

  function Redone(f: Field): Field {
    var h := HistoryOf(f);
    if h.future == [] then f.(history := Some(h))
    else Field(h.future[0], Some(h.(past := LastOf(h.past + [h.future[0]]), future := h.future[1..])))
  }

  function Step(f: Field, e: Event): Field {
    match e
    case Input(value, now) => Typed(f, value, now)
    case Undo => Undone(f)
    case Redo => Redone(f)
    case Assigned(value) => f.(value := value)
  }

  function Run(f: Field, es: seq<Event>): Field {
    if es == [] then f else Step(Run(f, es[..|es| - 1]), es[|es| - 1])
  }

  /** A history has a present, and both stacks together fit the limit. */
  ghost predicate Bounded(f: Field) {
    f.history.Some? ==> f.history.value.past != [] && |f.history.value.past| + |f.history.value.future| <= 100
  }

  /** The last snapshot is what the field shows, too. */
  ghost predicate Inv(f: Field) {
    Bounded(f) && (f.history.Some? ==> f.history.value.past[|f.history.value.past| - 1] == f.value)
  }

  lemma {:induction false} StepKeepsInv(f: Field, e: Event)
    requires Bounded(f)
    ensures Bounded(Step(f, e))
    ensures Inv(f) && !e.Assigned? ==> Inv(Step(f, e))
  {
  }

  lemma {:induction false} RunKeepsInv(value: string, es: seq<Event>)
    ensures Bounded(Run(Field(value, None), es))
    ensures (forall e | e in es :: !e.Assigned?) ==> Inv(Run(Field(value, None), es))
  {
    if es == [] {
    } else {
      var init, e := es[..|es| - 1], es[|es| - 1];
      RunKeepsInv(value, init);
      StepKeepsInv(Run(Field(value, None), init), e);
      assert e in es && forall x | x in init :: x in es;
    }
  }

  /** All snapshots, those undone included. */
  function Line(f: Field): seq<string> {
    HistoryOf(f).past + HistoryOf(f).future
  }

  /** Undo and redo move the present along one line of snapshots; the limit drops none of them. */
  lemma {:induction false} LineIsConserved(f: Field, e: Event)
    requires Bounded(f) && (e.Undo? || e.Redo?)
    ensures Line(Step(f, e)) == Line(f)
  {
  }

  function UndoneTimes(f: Field, k: nat): Field {
    if k == 0 then f else Undone(UndoneTimes(f, k - 1))
  }

  function RedoneTimes(f: Field, k: nat): Field {
    if k == 0 then f else Redone(RedoneTimes(f, k - 1))
  }

  /** The field with the present moved to the `n`th snapshot of its line. */
  function At(f: Field, n: nat): Field
    requires f.history.Some? && 0 < n <= |Line(f)|
  {
    var (h, line) := (f.history.value, Line(f));
    Field(line[n - 1], Some(h.(past := line[..n], future := line[n..])))
  }

  lemma {:induction false} UndoAt(f: Field, m: nat)
    requires Inv(f) && f.history.Some? && 0 < m <= |Line(f)|
    ensures Undone(At(f, m)) == At(f, if m > 1 then m - 1 else 1)
  {
    var line := Line(f);
    if m > 1 {
      assert line[..m][..m - 1] == line[..m - 1];
      assert [line[..m][m - 1]] + line[m..] == line[m - 1..];
    }
  }

  lemma {:induction false} RedoAt(f: Field, m: nat)
    requires Inv(f) && f.history.Some? && 0 < m <= |Line(f)|
    ensures Redone(At(f, m)) == At(f, if m < |Line(f)| then m + 1 else m)
  {
    var line := Line(f);
    if m < |line| {
      assert line[..m] + [line[m..][0]] == line[..m + 1];
      assert line[m..][1..] == line[m + 1..];
    }
  }

  lemma {:induction false} UndosMoveBack(f: Field, k: nat)
    requires Inv(f) && f.history.Some?
    ensures var n := |f.history.value.past|; UndoneTimes(f, k) == At(f, if k < n then n - k else 1)
  {
    var h := f.history.value;
    var (line, n) := (Line(f), |h.past|);
    if k == 0 {
      assert line[..n] == h.past && line[n..] == h.future;
    } else {
      UndosMoveBack(f, k - 1);
      UndoAt(f, if k - 1 < n then n - (k - 1) else 1);
    }
  }

  lemma {:induction false} RedosMoveOn(f: Field, m: nat, k: nat)
    requires Inv(f) && f.history.Some? && 0 < m <= |Line(f)|
    ensures var total := |Line(f)|;
            RedoneTimes(At(f, m), k) == At(f, if m + k < total then m + k else total)
  {
    if k == 0 {
    } else {
      var (total, before) := (|Line(f)|, if m + k - 1 < |Line(f)| then m + k - 1 else |Line(f)|);
      RedosMoveOn(f, m, k - 1);
      assert RedoneTimes(At(f, m), k) == Redone(At(f, before));
      RedoAt(f, before);
    }
  }

  /** Where `k` undos and then `k` redos leave the present. */
  function RoundTrip(f: Field, k: nat): (m: nat)
    requires Inv(f) && f.history.Some?
    ensures 0 < m <= |Line(f)|
  {
    var n := |f.history.value.past|;
    if k < n then n else if k + 1 < |Line(f)| then k + 1 else |Line(f)|
  }

  lemma {:induction false} ComesTo(f: Field, k: nat)
    requires Inv(f) && f.history.Some?
    ensures RedoneTimes(UndoneTimes(f, k), k) == At(f, RoundTrip(f, k))
  {
    var n := |f.history.value.past|;
    UndosMoveBack(f, k);
    RedosMoveOn(f, if k < n then n - k else 1, k);
  }

  lemma {:induction false} PresentIsLast(f: Field)
    requires Inv(f) && f.history.Some?
    ensures At(f, |f.history.value.past|) == f
  {
    var n := |f.history.value.past|;
    assert Line(f)[..n] == f.history.value.past && Line(f)[n..] == f.history.value.future;
  }

  /** In a field that shows its last snapshot, as many redos as undos bring back both stacks and the
      value exactly when the undos did not run into the start, or there was nothing to redo. */
  lemma {:induction false} RedosRestoreShown(f: Field, k: nat)
    requires Inv(f) && f.history.Some?
    ensures RedoneTimes(UndoneTimes(f, k), k) == f <==>
              k < |f.history.value.past| || f.history.value.future == []
  {
    var m := RoundTrip(f, k);
    ComesTo(f, k);
    PresentIsLast(f);
    assert |At(f, m).history.value.past| == m;
  }

  /** In a field with a history: one that shows something else gets that back only if nothing moved. */
  lemma {:induction false} RedosRestoreHistory(f: Field, k: nat)
    requires Bounded(f) && f.history.Some?
    ensures RedoneTimes(UndoneTimes(f, k), k) == f <==> Restorable(f, k)
  {
    var (past, future) := (f.history.value.past, f.history.value.future);
    var shown := f.(value := past[|past| - 1]);
    if shown == f {
      RedosRestoreShown(f, k);
    } else if |past| == 1 && future == [] {
      UndosStay(f, k);
      RedosStay(f, k);
    } else if k > 0 {
      MovedShowsSnapshot(f, k);
      EndsOnSnapshot(shown, k);
    }
  }

  predicate Restorable(f: Field, k: nat) {
    var (past, future) := (HistoryOf(f).past, HistoryOf(f).future);
    || k == 0
    || (|past| == 1 && future == [])
    || (past != [] && past[|past| - 1] == f.value && (k < |past| || future == []))
  }

  /** The same for every field, one without a history included, which only gets an empty one. */
  lemma {:induction false} RedosRestore(f: Field, k: nat)
    requires Bounded(f)
    ensures var g := RedoneTimes(UndoneTimes(f, k), k);
            g.value == f.value && HistoryOf(g) == HistoryOf(f) <==> Restorable(f, k)
  {
    if f.history.Some? {
      RedosRestoreHistory(f, k);
      KeepsHistory(f, k);
    } else {
      var g := f.(history := Some(HistoryOf(f)));
      if k > 0 {
        assert Undone(f) == g && Undone(g) == g;
        UndosMakeHistory(f, k);
        RedosStay(g, k);
      }
    }
  }

  lemma {:induction false} UndosMakeHistory(f: Field, k: nat)
    requires f.history.None? && k > 0
    ensures UndoneTimes(f, k) == f.(history := Some(HistoryOf(f)))
  {
    if k == 1 {
      assert UndoneTimes(f, 0) == f;
    } else {
      UndosMakeHistory(f, k - 1);
    }
  }

  lemma {:induction false} KeepsHistory(f: Field, k: nat)
    requires f.history.Some?
    ensures UndoneTimes(f, k).history.Some? && RedoneTimes(UndoneTimes(f, k), k).history.Some?
  {
    UndosKeepHistory(f, k);
    RedosKeepHistory(UndoneTimes(f, k), k);
  }

  lemma {:induction false} UndosKeepHistory(f: Field, k: nat)
    requires f.history.Some?
    ensures UndoneTimes(f, k).history.Some?
  {
    if k == 0 {
    } else {
      UndosKeepHistory(f, k - 1);
    }
  }

  lemma {:induction false} RedosKeepHistory(f: Field, k: nat)
    requires f.history.Some?
    ensures RedoneTimes(f, k).history.Some?
  {
    if k == 0 {
    } else {
      RedosKeepHistory(f, k - 1);
    }
  }

  lemma {:induction false} EndsOnSnapshot(f: Field, k: nat)
    requires Inv(f) && f.history.Some?
    ensures var f' := RedoneTimes(UndoneTimes(f, k), k);
            && f'.history.Some? && f'.history.value.past != []
            && f'.value == f'.history.value.past[|f'.history.value.past| - 1]
  {
    ComesTo(f, k);
    var m := RoundTrip(f, k);
    assert At(f, m).history.value.past[m - 1] == Line(f)[m - 1];
  }

  lemma {:induction false} RedosStay(f: Field, k: nat)
    requires f.history.Some? && f.history.value.future == []
    ensures RedoneTimes(f, k) == f
  {
    if k == 0 {
    } else {
      RedosStay(f, k - 1);
      assert Redone(f) == f;
    }
  }

  /** As soon as one undo or redo moves the present, it no longer matters what the field showed. */
  lemma {:induction false} MovedShowsSnapshot(f: Field, k: nat)
    requires Bounded(f) && f.history.Some? && k > 0
    requires |f.history.value.past| > 1 || f.history.value.future != []
    ensures var shown := f.(value := f.history.value.past[|f.history.value.past| - 1]);
            RedoneTimes(UndoneTimes(f, k), k) == RedoneTimes(UndoneTimes(shown, k), k)
  {
    var past := f.history.value.past;
    var shown := f.(value := past[|past| - 1]);
    if |past| > 1 {
      UndosForgetValue(f, shown, k);
    } else {
      UndosStay(f, k);
      UndosStay(shown, k);
      RedosForgetValue(f, shown, k);
    }
  }

  lemma {:induction false} UndosForgetValue(f: Field, g: Field, k: nat)
    requires k > 0 && f.history.Some? && |f.history.value.past| > 1 && g.history == f.history
    ensures UndoneTimes(f, k) == UndoneTimes(g, k)
  {
    if k == 1 {
      assert UndoneTimes(f, 0) == f && UndoneTimes(g, 0) == g;
    } else {
      UndosForgetValue(f, g, k - 1);
    }
  }

  lemma {:induction false} RedosForgetValue(f: Field, g: Field, k: nat)
    requires k > 0 && f.history.Some? && f.history.value.future != [] && g.history == f.history
    ensures RedoneTimes(f, k) == RedoneTimes(g, k)
  {
    if k == 1 {
      assert RedoneTimes(f, 0) == f && RedoneTimes(g, 0) == g;
    } else {
      RedosForgetValue(f, g, k - 1);
    }
  }

  lemma {:induction false} UndosStay(f: Field, k: nat)
    requires f.history.Some? && |f.history.value.past| == 1
    ensures UndoneTimes(f, k) == f
  {
    if k == 0 {
    } else {
      UndosStay(f, k - 1);
      assert Undone(f) == f;
    }
  }

  /** The snapshots an edit leaves behind its own: all of them if it starts a new one, the oldest going
      if there are too many, and all but the last if it overwrites that within a burst. */
  function KeptBy(h: History, now: nat): seq<string> {
    if now > h.lastPushAt + 500 then
      if |h.past| < 100 then h.past else h.past[|h.past| - 100 + 1..]
    else if h.past == [] then []
    else h.past[..|h.past| - 1]
  }

  lemma {:induction false} TypedPast(f: Field, typed: string, now: nat)
    requires Bounded(f) && f.history.Some?
    ensures Typed(f, typed, now).history.value.past == KeptBy(f.history.value, now) + [typed]
    ensures Typed(f, typed, now).value == typed
  {
    var h := f.history.value;
    if now > h.lastPushAt + 500 && |h.past| == 100 {
      assert (h.past + [typed])[1..] == h.past[1..] + [typed];
    }
  }

  /** What the field shows after as many undos of an edit. */
  lemma {:induction false} UndosAfterEdit(f: Field, typed: string, now: nat, k: nat)
    requires Bounded(f) && f.history.Some?
    ensures var kept := KeptBy(f.history.value, now);
            UndoneTimes(Typed(f, typed, now), k).value ==
            if k == 0 || kept == [] then typed else kept[if k < |kept| then |kept| - k else 0]
  {
    var (f', kept) := (Typed(f, typed, now), KeptBy(f.history.value, now));
    TypedPast(f, typed, now);
    EditIsShown(f, typed, now);
    UndosMoveBack(f', k);
    var n := if k < |kept| + 1 then |kept| + 1 - k else 1;
    assert Line(f')[n - 1] == (kept + [typed])[n - 1];
  }

  lemma {:induction false} EditIsShown(f: Field, typed: string, now: nat)
    requires Bounded(f)
    ensures Inv(Typed(f, typed, now)) && Typed(f, typed, now).history.Some?
  {
  }

  /** That many undos of an edit bring the replaced text back exactly when the field has a history and
      the snapshot they come to is that text. */
  lemma {:induction false} WhenEditsUndo(f: Field, typed: string, now: nat, k: nat)
    requires Bounded(f) && typed != f.value
    ensures UndoneTimes(Typed(f, typed, now), k).value == f.value <==>
              f.history.Some? && k > 0 &&
              var kept := KeptBy(f.history.value, now);
              kept != [] && kept[if k < |kept| then |kept| - k else 0] == f.value
  {
    if f.history.Some? {
      UndosAfterEdit(f, typed, now, k);
    } else {
      FirstEditCannotBeUndone(f.value, typed, now, k);
      assert f == Field(f.value, None);
    }
  }

  /** So an edit can be undone at all exactly when the replaced text is among the snapshots it leaves. */
  lemma {:induction false} EditsThatCanBeUndone(f: Field, typed: string, now: nat)
    requires Bounded(f) && typed != f.value
    ensures (exists k :: UndoneTimes(Typed(f, typed, now), k).value == f.value) <==>
              f.history.Some? && f.value in KeptBy(f.history.value, now)
  {
    if k :| UndoneTimes(Typed(f, typed, now), k).value == f.value {
      WhenEditsUndo(f, typed, now, k);
    }
    if f.history.Some? && f.value in KeptBy(f.history.value, now) {
      var kept := KeptBy(f.history.value, now);
      var i :| 0 <= i < |kept| && kept[i] == f.value;
      WhenEditsUndo(f, typed, now, |kept| - i);
    }
  }

  /** Undo and redo make a history of what the field shows if there is none, so that the first edit after
      them can be undone. */
  lemma {:induction false} KeysMakeHistory(f: Field, e: Event)
    requires e.Undo? || e.Redo?
    ensures Step(f, e).history.Some?
    ensures f.history.None? ==> Step(f, e) == Field(f.value, Some(History([f.value], [], 0)))
  {
  }

  // ---------- bursts ----------

  /** When the last snapshot was started, by the times of the edits alone. */
  function LastStart(es: seq<Event>): nat {
    if es == [] then 0
    else
      var (before, e) := (LastStart(es[..|es| - 1]), es[|es| - 1]);
      if e.Input? && e.now > before + 500 then e.now else before
  }

  /** Over every run a snapshot is started by exactly the edits that come more than half a second after
      the one that started the last; undo and redo start none. */
  lemma {:induction false} BurstsAreTimed(value: string, es: seq<Event>)
    ensures HistoryOf(Run(Field(value, None), es)).lastPushAt == LastStart(es)
  {
    if es == [] {
    } else {
      BurstsAreTimed(value, es[..|es| - 1]);
    }
  }

  /** An edit puts its text behind the snapshots it leaves; one that starts a snapshot clears what could
      be redone, one within a burst leaves it. */
  lemma {:induction false} EditsMoveStacks(f: Field, typed: string, now: nat)
    requires Bounded(f) && f.history.Some?
    ensures var (h, f') := (f.history.value, Typed(f, typed, now));
            && f'.value == typed && f'.history.Some?
            && f'.history.value.past == KeptBy(h, now) + [typed]
            && f'.history.value.future == if now > h.lastPushAt + 500 then [] else h.future
  {
    TypedPast(f, typed, now);
  }

  /** In a field that shows its last snapshot, one undo takes back an edit that starts a new one. */
  lemma {:induction false} NewSnapshotsUndo(f: Field, typed: string, now: nat)
    requires Inv(f) && typed != f.value
    requires f.history.Some? && now > f.history.value.lastPushAt + 500
    ensures UndoneTimes(Typed(f, typed, now), 1).value == f.value
  {
    WhenEditsUndo(f, typed, now, 1);
  }

  /** The first edit cannot be undone, by any number of undos: the history is created with the value
      already typed. */
  lemma {:induction false} FirstEditCannotBeUndone(before: string, typed: string, now: nat, k: nat)
    ensures UndoneTimes(Typed(Field(before, None), typed, now), k).value == typed
  {
    var f := Typed(Field(before, None), typed, now);
    var past := f.history.value.past;
    assert past == (if now > PUSH_INTERVAL then [typed, typed] else [typed]);
    UndosMoveBack(f, k);
  }

  class TextField {
    var value: string
    var history: Option<History>

    function Now(): Field
      reads this
    {
      Field(value, history)
    }

    constructor (value: string)
      ensures Now() == Field(value, None)
    {
      this.value, history := value, None;
    }

    method GetOrCreate() returns (h: History)
      modifies this`history
      ensures h == HistoryOf(old(Now())) && history == Some(h)
    {
      if history.None? {
        history := Some(History([value], [], 0));
      }
      h := history.value;
    }

    method OnInput(newValue: string, now: nat)
      modifies this
      ensures Now() == Typed(old(Now()), newValue, now)
    {
      value := newValue;
      var h := GetOrCreate();
      if now > h.lastPushAt + PUSH_INTERVAL {
        history := Some(History(LastOf(h.past + [newValue]), [], now));
      } else {
        history := Some(h.(past := (if h.past == [] then [] else h.past[..|h.past| - 1]) + [newValue]));
      }
    }

    method Assign(newValue: string)
      modifies this`value
      ensures Now() == Step(old(Now()), Assigned(newValue))
    {
      value := newValue;
    }

    method OnUndo()
      modifies this
      ensures Now() == Undone(old(Now()))
    {
      var h := GetOrCreate();
      if |h.past| <= 1 {
        return;
      }
      var current, past := h.past[|h.past| - 1], h.past[..|h.past| - 1];
      history := Some(h.(past := past, future := [current] + h.future));
      value := past[|past| - 1];
    }

    method OnRedo()
      modifies this
      ensures Now() == Redone(old(Now()))
    {
      var h := GetOrCreate();
      if h.future == [] {
        return;
      }
      var next := h.future[0];
      history := Some(h.(past := LastOf(h.past + [next]), future := h.future[1..]));
      value := next;
    }
  }
}
