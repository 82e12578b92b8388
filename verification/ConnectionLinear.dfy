/** GetConnection, with its two critical sections, behaves as one indivisible operation. */
module ConnectionLinear {
  import opened Prelude
  import opened Connections
  import opened ConnectionRegistry
  import opened ConnectionMachine

  predicate Responds(l: Label, t: Tid)
  {
    (l.LockedRefuse? || l.LockedHit? || l.LockedCreate?) && l.t == t
  }

  /** Thread `t` calls GetConnection(k) at step `i` and returns at step `j`. */
  ghost predicate Call(run: Run, i: nat, j: nat, t: Tid, k: Key)
  {
    && ValidRun(run) && i <= j < |run.labels|
    && if i == j then run.labels[i] == LookupHit(t, k)
       else run.labels[i] == LookupMiss(t, k) && Responds(run.labels[j], t)
            && forall m: nat :: i < m < j ==> !Acts(run.labels[m], t)
  }

  /** Between its two sections the caller remembers its key. */
  lemma {:induction false} BetweenSections(run: Run, i: nat, j: nat, t: Tid, k: Key, m: nat)
    requires Call(run, i, j, t, k) && i < m <= j
    ensures PcOf(run.states[m], t) == Missed(k)
  {
    assert StepAt(run, m - 1);
    if m > i + 1 {
      BetweenSections(run, i, j, t, k, m - 1);
      assert !Acts(run.labels[m - 1], t);
      OnlyOwnStepsMove(run.states[m - 1], run.labels[m - 1], t);
    }
  }

  ghost function Response(run: Run, i: nat, j: nat, t: Tid, k: Key): Result<Handle>
    requires Call(run, i, j, t, k)
  {
    assert StepAt(run, j);
    if run.labels[j].LockedRefuse? then Err
    else if PcOf(run.states[j + 1], t).Holding? then Ok(PcOf(run.states[j + 1], t).h) else Err
  }

  /** A DisableFor call holds the write lock: the flag is set and the map not yet dropped. */
  predicate DisableInProgress(s: State)
  {
    s.writer.Some? && PcOf(s, s.writer.value).Cleaning? && PcOf(s, s.writer.value).mode.Disabling?
  }

  /** Nobody holds the lock, creation is disabled and `k` has no Connection. */
  predicate RefusesAt(s: State, k: Key)
  {
    s.writer.None? && AtomicGet(s.registry, k).Refused?
  }

  lemma RefusalStep(s: State, l: Label, k: Key)
    requires Enabled(s, l)
    requires !(s.registry.disabled && !DisableInProgress(s))
    requires Apply(s, l).registry.disabled && !DisableInProgress(Apply(s, l))
    ensures RefusesAt(Apply(s, l), k)
  {
  }

  /** If creation is disabled after a miss, the key was absent and disabled at some instant since. */
  lemma {:induction false} RefusalInstant(run: Run, i: nat, n: nat, t: Tid, k: Key)
    requires ValidRun(run) && i <= n < |run.states| && i < |run.labels| && run.labels[i] == LookupMiss(t, k)
    requires run.states[n].registry.disabled && !DisableInProgress(run.states[n])
    ensures exists m: nat :: i <= m <= n && RefusesAt(run.states[m], k)
  {
    if n == i {
      assert StepAt(run, i);
      assert RefusesAt(run.states[i], k);
    } else {
      assert StepAt(run, n - 1);
      var s := run.states[n - 1];
      if s.registry.disabled && !DisableInProgress(s) {
        RefusalInstant(run, i, n - 1, t, k);
      } else {
        RefusalStep(s, run.labels[n - 1], k);
      }
    }
  }

  /** The response `r` at step `j` is what the indivisible operation gives at instant `m`. */
  ghost predicate Explains(run: Run, m: nat, j: nat, k: Key, r: Result<Handle>)
    requires |run.states| == |run.labels| + 1 && m <= j < |run.labels|
  {
    var s := run.states[m];
    && s.writer.None?
    && match AtomicGet(s.registry, k)
       case Found(h) => r == Ok(h) && run.states[j + 1].registry == run.states[j].registry
       case Refused => r == Err && run.states[j + 1].registry == run.states[j].registry
       case Absent =>
         && m == j && r.Ok? && r.value !in s.slots
         && run.states[j + 1].registry == Store(s.registry, k, r.value)
  }

  /**
   Linearizability: each call has an instant between its invocation and its
   return at which the indivisible operation gives the same answer and the same
   effect on the map. Creations take effect at the return. The caller is left
   with the Connection it was answered, or without one.
   */
  lemma GetConnectionIsLinearizable(run: Run, i: nat, j: nat, t: Tid, k: Key)
    requires Call(run, i, j, t, k)
    ensures exists m: nat :: i <= m <= j && Explains(run, m, j, k, Response(run, i, j, t, k))
    ensures PcOf(run.states[j + 1], t) ==
            match Response(run, i, j, t, k) case Ok(h) => Holding(h) case Err => Idle
  {
    var r := Response(run, i, j, t, k);
    if i < j {
      BetweenSections(run, i, j, t, k, j);
    }
    assert StepAt(run, j);
    if run.labels[j].LockedRefuse? {
      RefusalInstant(run, i, j, t, k);
      var m: nat :| i <= m <= j && RefusesAt(run.states[m], k);
      assert Explains(run, m, j, k, r);
    } else {
      assert Explains(run, j, j, k, r);
    }
  }

  /**
   A call that missed is refused iff creation is disabled when it gets the lock,
   also if the key is registered by then; otherwise it gets what is registered,
   or a Connection that is new and empty.
   */
  lemma AnswerAfterMiss(run: Run, i: nat, j: nat, t: Tid, k: Key)
    requires Call(run, i, j, t, k) && i < j
    ensures var s, s', r := run.states[j], run.states[j + 1], Response(run, i, j, t, k);
            && (r.Err? <==> s.registry.disabled)
            && (r.Ok? && k in s.registry.connMap ==> r.value == s.registry.connMap[k] && s'.slots == s.slots)
            && (r.Ok? && k !in s.registry.connMap ==> r.value !in s.slots && s'.slots == s.slots[r.value := EMPTY])
  {
    BetweenSections(run, i, j, t, k, j);
    assert StepAt(run, j);
  }

  /** The step takes the entry of `k` away or replaces it. */
  predicate Resets(l: Label, k: Key)
  {
    l.CleanEnd? || (l.AddExisting? && l.meta.Some? && l.k == k)
  }

  predicate Maps(s: State, k: Key, h: Handle)
  {
    k in s.registry.connMap && s.registry.connMap[k] == h
  }

  lemma {:induction false} EntryStays(run: Run, i: nat, j: nat, k: Key, h: Handle)
    requires ValidRun(run) && i <= j < |run.states| && Maps(run.states[i], k, h)
    requires forall m: nat :: i <= m < j ==> !Resets(run.labels[m], k)
    ensures Maps(run.states[j], k, h)
  {
    if i < j {
      EntryStays(run, i, j - 1, k, h);
      assert StepAt(run, j - 1);
      assert !Resets(run.labels[j - 1], k);
    }
  }

  /** Between two events that reset or overwrite a key, all its callers get the same Connection. */
  lemma CallersShareConnection(run: Run, i1: nat, j1: nat, t1: Tid, i2: nat, j2: nat, t2: Tid, k: Key)
    requires Call(run, i1, j1, t1, k) && Call(run, i2, j2, t2, k) && j1 < j2
    requires Response(run, i1, j1, t1, k).Ok? && Response(run, i2, j2, t2, k).Ok?
    requires forall m: nat :: j1 < m < j2 ==> !Resets(run.labels[m], k)
    ensures Response(run, i1, j1, t1, k) == Response(run, i2, j2, t2, k)
  {
    var h := Response(run, i1, j1, t1, k).value;
    if i1 < j1 {
      BetweenSections(run, i1, j1, t1, k, j1);
    }
    if i2 < j2 {
      BetweenSections(run, i2, j2, t2, k, j2);
    }
    assert StepAt(run, j1);
    assert Maps(run.states[j1 + 1], k, h);
    EntryStays(run, j1 + 1, j2, k, h);
    assert StepAt(run, j2);
  }

  lemma {:induction false} KeyStays(run: Run, i: nat, j: nat, k: Key)
    requires ValidRun(run) && i <= j < |run.states|
    requires k in run.states[i].registry.connMap && k !in run.states[j].registry.connMap
    ensures exists m: nat :: i <= m < j && run.labels[m].CleanEnd?
  {
    assert StepAt(run, j - 1);
    if k in run.states[j - 1].registry.connMap {
      assert run.labels[j - 1].CleanEnd?;
    } else {
      KeyStays(run, i, j - 1, k);
    }
  }

  /** GetConnection creates a second Connection for a key only after a cleanup dropped the map. */
  lemma AtMostOneCreation(run: Run, i: nat, j: nat, k: Key)
    requires ValidRun(run) && i < j < |run.labels|
    requires run.labels[i].LockedCreate? && PcOf(run.states[i], run.labels[i].t) == Missed(k)
    requires run.labels[j].LockedCreate? && PcOf(run.states[j], run.labels[j].t) == Missed(k)
    ensures exists m: nat :: i < m < j && run.labels[m].CleanEnd?
  {
    assert StepAt(run, i);
    assert StepAt(run, j);
    KeyStays(run, i + 1, j, k);
  }
}
