/** What holds while connection creation is disabled, and for how long. */
module ConnectionDisable {
  import opened Prelude
  import opened Connections
  import opened ConnectionRegistry
  import opened ConnectionMachine
  import opened ConnectionLinear
  import opened ConnectionSafety

  /** Creation is disabled and the DisableFor call that did it has returned. */
  predicate IsDisabled(s: State)
  {
    s.registry.disabled && !DisableInProgress(s)
  }

  /** While disabled, the timer of the last DisableFor is pending. */
  predicate TimerPending(s: State)
  {
    && (forall id <- s.timers :: id < s.epoch)
    && (IsDisabled(s) ==> s.epoch > 0 && s.epoch - 1 in s.timers && s.timers[s.epoch - 1] == s.deadline)
  }

  /** While disabled, every entry was added by AddExistingConnection since the last DisableFor. */
  predicate OnlyAdded(s: State)
  {
    IsDisabled(s) ==>
      forall k <- s.registry.connMap ::
        s.registry.connMap[k] in s.origins && s.origins[s.registry.connMap[k]] == Added(s.epoch)
  }

  predicate DisabledInv(s: State)
  {
    TimerPending(s) && OnlyAdded(s)
  }

  lemma TimerStep(s: State, l: Label)
    requires Locked(s) && TimerPending(s) && Enabled(s, l)
    ensures TimerPending(Apply(s, l))
  {
  }

  lemma OnlyAddedStep(s: State, l: Label)
    requires KnownHandles(s) && Locked(s) && OnlyAdded(s) && Enabled(s, l)
    ensures OnlyAdded(Apply(s, l))
  {
  }

  lemma {:induction false} DisabledAlways(run: Run, i: nat)
    requires ValidRun(run) && i < |run.states|
    ensures DisabledInv(run.states[i])
  {
    if i > 0 {
      DisabledAlways(run, i - 1);
      InvAlways(run, i - 1);
      assert StepAt(run, i - 1);
      TimerStep(run.states[i - 1], run.labels[i - 1]);
      OnlyAddedStep(run.states[i - 1], run.labels[i - 1]);
    }
  }

  /** The entry was made by this handover, after the last DisableFor. */
  predicate AddedAt(run: Run, m: nat, n: nat, k: Key)
    requires m < |run.labels| && m < |run.states| && n < |run.states| && k in run.states[n].registry.connMap
  {
    var l := run.labels[m];
    && l.AddExisting? && l.meta.Some? && l.k == k && l.h == run.states[n].registry.connMap[k]
    && run.states[m].epoch == run.states[n].epoch
  }

  /** While disabled, every entry comes from an AddExistingConnection call since the last DisableFor. */
  lemma {:induction false} EntriesAddedSince(run: Run, n: nat, k: Key)
    requires ValidRun(run) && n < |run.states| && IsDisabled(run.states[n]) && k in run.states[n].registry.connMap
    ensures exists m: nat :: m < n && AddedAt(run, m, n, k)
  {
    assert StepAt(run, n - 1);
    InvAlways(run, n - 1);
    EntryStep(run.states[n - 1], run.labels[n - 1], k);
    if run.labels[n - 1].AddExisting? && run.labels[n - 1].meta.Some? && run.labels[n - 1].k == k {
      assert AddedAt(run, n - 1, n, k);
    } else {
      EntriesAddedSince(run, n - 1, k);
      var m: nat :| m < n - 1 && AddedAt(run, m, n - 1, k);
      assert AddedAt(run, m, n, k);
    }
  }

  /** An entry of a disabled state was there before, in a disabled state too, or has just been added. */
  lemma EntryStep(s: State, l: Label, k: Key)
    requires Locked(s) && Enabled(s, l) && IsDisabled(Apply(s, l)) && k in Apply(s, l).registry.connMap
    ensures (l.AddExisting? && l.meta.Some? && l.k == k && Apply(s, l).registry.connMap[k] == l.h && Apply(s, l).epoch == s.epoch)
            || (IsDisabled(s) && k in s.registry.connMap && s.registry.connMap[k] == Apply(s, l).registry.connMap[k]
                && Apply(s, l).epoch == s.epoch)
  {
  }

  /** Enable ends the disablement at once and leaves everything else alone. */
  lemma EnableEnables(run: Run, i: nat)
    requires ValidRun(run) && i < |run.labels| && run.labels[i].Enable?
    ensures run.states[i + 1] == run.states[i].(registry := Registry(run.states[i].registry.connMap, false))
    ensures !IsDisabled(run.states[i + 1])
  {
    assert StepAt(run, i);
  }

  /** No step taken while disabled creates a Connection. */
  lemma NothingCreatedWhileDisabled(run: Run, i: nat)
    requires ValidRun(run) && i < |run.labels| && run.states[i].registry.disabled
    ensures !run.labels[i].LockedCreate?
    ensures forall h <- run.states[i + 1].slots :: h !in run.states[i].slots ==>
      run.labels[i].AddExisting? && h == run.labels[i].h
  {
    assert StepAt(run, i);
  }

  /**
   Disabling binds GetConnection only: a conn can still be added, and a thread
   that got its Connection before can still dial.
   */
  lemma DisablingBindsOnlyGetConnection(run: Run, t: Tid, c: ConnId, m: Metadata, k: Key, h: Handle)
    requires ValidRun(run) && IsDisabled(Last(run)) && Last(run).writer.None?
    requires c !in Last(run).conns && h !in Last(run).slots
    ensures var add := AddExisting(k, c, Some(m), h);
            && Enabled(Last(run), add) && Maps(Apply(Last(run), add), k, h) && Stores(Apply(Last(run), add), h, c)
            && IsDisabled(Apply(Last(run), add))
    ensures PcOf(Last(run), t).Holding? && PcOf(Last(run), t).h in Last(run).slots
            && Last(run).slots[PcOf(Last(run), t).h].conn.None? ==>
              var dial := GetConn(t, Dialed(c, m));
              && Enabled(Last(run), dial) && Stores(Apply(Last(run), dial), PcOf(Last(run), t).h, c)
              && IsDisabled(Apply(Last(run), dial))
  {
    InvAlways(run, |run.labels|);
  }

  /** Once due, the timer of the last DisableFor can fire, and firing it ends the disablement. */
  lemma DueTimerEnables(run: Run, i: nat)
    requires ValidRun(run) && i < |run.states|
    requires IsDisabled(run.states[i]) && run.states[i].writer.None?
    requires run.states[i].deadline <= run.states[i].now
    ensures var s := run.states[i];
            && s.epoch > 0 && Enabled(s, Fire(s.epoch - 1))
            && !Apply(s, Fire(s.epoch - 1)).registry.disabled
            && Apply(s, Fire(s.epoch - 1)).timers.Keys == s.timers.Keys - {s.epoch - 1}
  {
    DisabledAlways(run, i);
  }

  /** Time does not pass a due timer: callbacks run promptly. */
  ghost predicate Prompt(run: Run)
  {
    forall i: nat {:trigger run.labels[i]} :: i < |run.labels| && i < |run.states| && run.labels[i].Tick? ==>
      forall id <- run.states[i].timers :: run.states[i].timers[id] > run.states[i].now
  }

  predicate NoneOverdue(s: State)
  {
    forall id <- s.timers :: s.now <= s.timers[id]
  }

  lemma {:induction false} PromptNoneOverdue(run: Run, i: nat)
    requires ValidRun(run) && Prompt(run) && i < |run.states|
    ensures NoneOverdue(run.states[i])
  {
    if i > 0 {
      PromptNoneOverdue(run, i - 1);
      assert StepAt(run, i - 1);
    }
  }

  /** With prompt timers, creation is enabled again once the last DisableFor's deadline has passed. */
  lemma ReenabledByDeadline(run: Run, i: nat)
    requires ValidRun(run) && Prompt(run) && i < |run.states|
    requires run.states[i].now > run.states[i].deadline
    ensures !IsDisabled(run.states[i])
  {
    DisabledAlways(run, i);
    PromptNoneOverdue(run, i);
  }

  // How long one DisableFor lasts

  /** No other Enable or DisableFor call takes part between `i` and `j`. */
  ghost predicate Quiet(run: Run, i: nat, j: nat)
  {
    && ValidRun(run) && i <= j < |run.states|
    && forall m: nat :: i <= m < j ==> !run.labels[m].Enable? && !EndsDisable(run.states[m], run.labels[m])
  }

  /** The step completes a DisableFor call. */
  predicate EndsDisable(s: State, l: Label)
  {
    l.CleanEnd? && PcOf(s, l.t).Cleaning? && PcOf(s, l.t).mode.Disabling?
  }

  lemma {:induction false} TimersShrink(run: Run, i: nat, j: nat)
    requires Quiet(run, i, j)
    ensures run.states[i].now <= run.states[j].now
    ensures forall id <- run.states[j].timers ::
      id in run.states[i].timers && run.states[j].timers[id] == run.states[i].timers[id]
  {
    if i < j {
      TimersShrink(run, i, j - 1);
      assert StepAt(run, j - 1);
      assert !EndsDisable(run.states[j - 1], run.labels[j - 1]);
    }
  }

  /** Nothing but a timer ends the disablement in a quiet stretch. */
  lemma {:induction false} StaysDisabled(run: Run, i: nat, j: nat, due: int)
    requires Quiet(run, i, j) && run.states[i].registry.disabled && run.states[j].now < due
    requires forall id <- run.states[i].timers :: due <= run.states[i].timers[id]
    ensures run.states[j].registry.disabled
  {
    if i < j {
      assert StepAt(run, j - 1);
      StaysDisabled(run, i, j - 1, due);
      TimersShrink(run, i, j - 1);
      assert !run.labels[j - 1].Enable?;
    }
  }

  /** A pending timer that is no longer pending has fired on time. */
  lemma {:induction false} FiredOnTime(run: Run, i: nat, j: nat, id: nat) returns (m: nat)
    requires Quiet(run, i, j) && Prompt(run)
    requires id in run.states[i].timers && id !in run.states[j].timers
    ensures i < m <= j && !run.states[m].registry.disabled
    ensures run.states[m].now == run.states[i].timers[id]
  {
    assert StepAt(run, j - 1);
    if id in run.states[j - 1].timers {
      m := j;
      TimersShrink(run, i, j - 1);
      PromptNoneOverdue(run, j - 1);
    } else {
      m := FiredOnTime(run, i, j - 1, id);
    }
  }

  /** From when on creation may be enabled again: the period counts from the end of the call, if it is positive. */
  function ExpectedEnd(now: int, period: int): int
  {
    if period <= 0 then now else now + period
  }

  /** A cleanup sets a timer, and the deadline with it, exactly when it was started to disable. */
  lemma CleanupSetsTimer(run: Run, b: nat, i: nat, t: Tid)
    requires Cleanup(run, b, i, t)
    ensures var s, s' := run.states[i], run.states[i + 1];
            match run.labels[b].mode
            case Plain => s'.timers == s.timers && s'.deadline == s.deadline && s'.registry.disabled == s.registry.disabled
            case Disabling(period) =>
              && s'.registry.disabled && s'.deadline == ExpectedEnd(s.now, period)
              && s.epoch !in s.timers && s'.timers == s.timers[s.epoch := s'.deadline]
  {
    InCleanup(run, b, i, t, i);
    assert StepAt(run, i);
    DisabledAlways(run, i);
    if run.labels[b].mode.Disabling? {
      DisableSet(run, i);
    }
  }

  /**
   "Disables new connection creations for given duration" holds exactly when no
   earlier DisableFor left a timer that is due sooner.
   */
  lemma DisableLastsIffNoEarlierTimer(run: Run, b: nat, i: nat, j: nat, t: Tid, period: int)
    requires Cleanup(run, b, i, t) && run.labels[b] == CleanBegin(t, Disabling(period))
    requires Prompt(run) && Quiet(run, i + 1, j) && ExpectedEnd(run.states[i].now, period) <= run.states[j].now
    ensures var due := ExpectedEnd(run.states[i].now, period);
            (forall m: nat :: i < m <= j && run.states[m].now < due ==> run.states[m].registry.disabled)
            <==> (forall id <- run.states[i].timers :: due <= run.states[i].timers[id])
  {
    var due := ExpectedEnd(run.states[i].now, period);
    CleanupSetsTimer(run, b, i, t);
    var earlier := run.states[i].timers;
    assert forall id <- earlier :: id in run.states[i + 1].timers && run.states[i + 1].timers[id] == earlier[id];
    if forall id <- earlier :: due <= earlier[id] {
      forall m: nat | i < m <= j && run.states[m].now < due
        ensures run.states[m].registry.disabled
      {
        StaysDisabled(run, i + 1, m, due);
      }
    } else {
      var id :| id in earlier && earlier[id] < due;
      PromptNoneOverdue(run, j);
      TimersShrink(run, i + 1, j);
      assert id !in run.states[j].timers;
      var m := FiredOnTime(run, i + 1, j, id);
    }
  }

  /** The flag is set from the start of a DisableFor call to its end. */
  predicate DisablingIsSet(s: State)
  {
    DisableInProgress(s) ==> s.registry.disabled
  }

  lemma {:induction false} DisablingIsSetAlways(run: Run, i: nat)
    requires ValidRun(run) && i < |run.states|
    ensures DisablingIsSet(run.states[i])
  {
    if i > 0 {
      DisablingIsSetAlways(run, i - 1);
      InvAlways(run, i - 1);
      assert StepAt(run, i - 1);
    }
  }

  lemma DisableSet(run: Run, i: nat)
    requires ValidRun(run) && i < |run.labels| && EndsDisable(run.states[i], run.labels[i])
    ensures run.states[i + 1].registry.disabled
  {
    InvAlways(run, i);
    DisablingIsSetAlways(run, i);
    assert StepAt(run, i);
  }

  /** Lets `n` units of time pass. */
  lemma {:induction false} Wait(run: Run, n: nat) returns (longer: Run)
    requires ValidRun(run)
    ensures ValidRun(longer) && Last(longer) == Last(run).(now := Last(run).now + n)
    ensures run.labels <= longer.labels
    ensures forall i: nat :: |run.labels| <= i < |longer.labels| ==> longer.labels[i].Tick?
  {
    longer := run;
    if n > 0 {
      longer := Wait(run, n - 1);
      longer := Extend(longer, Tick);
    }
  }

  /** A DisableFor call on an empty map, from start to end. */
  lemma Disable(run: Run, t: Tid, period: int) returns (longer: Run)
    requires ValidRun(run) && Last(run).writer.None? && PcOf(Last(run), t).Idle? && Last(run).registry.connMap == map[]
    ensures ValidRun(longer) && |longer.labels| == |run.labels| + 2 && run.labels <= longer.labels
    ensures forall i: nat :: |run.labels| <= i < |longer.labels| ==> longer.labels[i].CleanBegin? || longer.labels[i].CleanEnd?
    ensures var s, s' := Last(run), Last(longer);
            && s'.registry == Registry(map[], true) && s'.writer.None? && PcOf(s', t).Idle? && s'.now == s.now
            && s'.epoch == s.epoch + 1 && s'.deadline == Due(s.now, period)
            && s'.timers == s.timers[s.epoch := s'.deadline]
  {
    longer := Extend(run, CleanBegin(t, Disabling(period)));
    longer := Extend(longer, CleanEnd(t));
  }

  /** Two overlapping DisableFor calls: the shorter one's timer ends the longer one early. */
  lemma EarlierTimerCutsDisableShort(t: Tid, first: int, second: int) returns (run: Run)
    requires 0 < first < second
    ensures ValidRun(run) && forall i: nat :: i < |run.labels| ==> !run.labels[i].Enable?
    ensures Last(run).epoch == 2 && Last(run).deadline == second
    ensures Last(run).now == first && !Last(run).registry.disabled
  {
    run := Run([Init()], []);
    run := Disable(run, t, first);
    run := Disable(run, t, second);
    var waited := Wait(run, first);
    assert forall i: nat :: i < |run.labels| ==> waited.labels[i] == run.labels[i];
    run := Extend(waited, Fire(0));
  }
}
