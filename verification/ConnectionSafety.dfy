/** What every run of ConnectionMachine keeps about diam.Conns. */
module ConnectionSafety {
  import opened Prelude
  import opened Connections
  import opened ConnectionMachine

  /** The thread is past the unlock and will call Close() on `c` next. */
  predicate ClosesNext(pc: Pc, h: Handle, c: ConnId)
  {
    pc == Closing(h, c) || (pc.Cleaning? && pc.next == Some((h, c)))
  }

  predicate Committed(s: State, h: Handle, c: ConnId)
  {
    exists t <- s.threads :: ClosesNext(s.threads[t], h, c)
  }

  predicate Stores(s: State, h: Handle, c: ConnId)
  {
    h in s.slots && s.slots[h].conn == Some(c)
  }

  /** The step takes `c` out of `h`: a sender whose own write on `c` failed, or a cleanup. */
  predicate Removes(s: State, l: Label, h: Handle, c: ConnId)
  {
    || (l.DestroyLock? && PcOf(s, l.t) == Failed(h, c))
    || (l.CleanVisit? && l.h == h)
  }

  predicate KnownPc(s: State, pc: Pc)
  {
    match pc
    case Idle => true
    case Missed(_) => true
    case Dialing(h) => h in s.slots
    case Holding(h) => h in s.slots
    case Writing(h, c) => (h, c) in s.owned
    case Failed(h, c) => (h, c) in s.owned
    case Closing(h, c) => (h, c) in s.owned
    case Cleaning(left, next, _) => left <= s.slots.Keys && (next.Some? ==> next.value in s.owned)
  }

  /** Registered handles exist, and so does the history of each. */
  predicate KnownHandles(s: State)
  {
    && (forall k <- s.registry.connMap :: s.registry.connMap[k] in s.slots)
    && s.origins.Keys == s.slots.Keys
  }

  /** Stored and closed conns are owned; owned conns were opened for an existing Connection. */
  predicate KnownConns(s: State)
  {
    && s.closes <= s.owned
    && (forall p <- s.owned :: p.0 in s.slots && p.1 in s.conns)
    && (forall h <- s.slots :: s.slots[h].conn.Some? ==> (h, s.slots[h].conn.value) in s.owned)
  }

  predicate KnownThreads(s: State)
  {
    forall t <- s.threads :: KnownPc(s, s.threads[t])
  }

  /** The write lock is held exactly by a thread inside the cleanup loop. */
  predicate Locked(s: State)
  {
    && (forall t <- s.threads :: s.threads[t].Cleaning? <==> s.writer == Some(t))
    && (s.writer.Some? ==> s.writer.value in s.threads)
  }

  /** conn and metadata are set and cleared together. */
  predicate AllPaired(s: State)
  {
    forall h <- s.slots :: Paired(s.slots[h])
  }

  /** The conn a Connection stores was neither closed through it nor is about to be. */
  predicate StoredIsLive(s: State)
  {
    forall h <- s.slots :: s.slots[h].conn.Some? ==>
      && (h, s.slots[h].conn.value) !in s.closes
      && !Committed(s, h, s.slots[h].conn.value)
  }

  predicate Settled(s: State, h: Handle, c: ConnId)
  {
    || Stores(s, h, c)
    || (h, c) in s.closes
    || Committed(s, h, c)
  }

  /** Each conn is stored, closed, or some thread is committed to closing it. */
  predicate Accounted(s: State)
  {
    forall p <- s.owned :: Settled(s, p.0, p.1)
  }

  ghost predicate Inv(s: State)
  {
    Known(s) && Locked(s) && AllPaired(s) && StoredIsLive(s) && Accounted(s)
  }

  predicate Known(s: State)
  {
    KnownHandles(s) && KnownConns(s) && KnownThreads(s)
  }

  lemma KnownHandlesStep(s: State, l: Label)
    requires KnownHandles(s) && Enabled(s, l)
    ensures KnownHandles(Apply(s, l))
  {
  }

  /** Connections and ownership are never forgotten. */
  lemma Grows(s: State, l: Label)
    requires Enabled(s, l)
    ensures s.slots.Keys <= Apply(s, l).slots.Keys && s.owned <= Apply(s, l).owned && s.conns <= Apply(s, l).conns
  {
  }

  lemma OwnedStep(s: State, l: Label, p: (Handle, ConnId))
    requires KnownConns(s) && Enabled(s, l) && p in Apply(s, l).owned
    ensures p.0 in Apply(s, l).slots && p.1 in Apply(s, l).conns
  {
  }

  /** A stored conn was stored before, or is new to its Connection and now owned by it. */
  lemma StoredOrigin(s: State, l: Label, h: Handle, c: ConnId)
    requires KnownConns(s) && Enabled(s, l) && Stores(Apply(s, l), h, c)
    ensures (h, c) in Apply(s, l).owned
    ensures Stores(s, h, c) || (h, c) !in s.owned
  {
  }

  lemma ClosesStep(s: State, l: Label)
    requires KnownConns(s) && KnownThreads(s) && Enabled(s, l)
    ensures Apply(s, l).closes <= Apply(s, l).owned
  {
  }

  lemma KnownConnsStep(s: State, l: Label)
    requires KnownConns(s) && KnownThreads(s) && Enabled(s, l)
    ensures KnownConns(Apply(s, l))
  {
    var s' := Apply(s, l);
    ClosesStep(s, l);
    forall p | p in s'.owned {
      OwnedStep(s, l, p);
    }
    forall h | h in s'.slots && s'.slots[h].conn.Some?
      ensures (h, s'.slots[h].conn.value) in s'.owned
    {
      StoredOrigin(s, l, h, s'.slots[h].conn.value);
    }
  }

  lemma PcStaysKnown(s: State, s': State, pc: Pc)
    requires s.slots.Keys <= s'.slots.Keys && s.owned <= s'.owned && KnownPc(s, pc)
    ensures KnownPc(s', pc)
  {
  }

  predicate ByCleanup(l: Label)
  {
    l.CleanBegin? || l.CleanVisit? || l.CleanClose? || l.CleanEnd?
  }

  lemma CleanerPcKnown(s: State, l: Label, t: Tid)
    requires KnownHandles(s) && KnownConns(s) && KnownThreads(s) && Enabled(s, l) && t in Apply(s, l).threads
    requires t in s.threads ==> Apply(s, l).threads[t] != s.threads[t]
    requires ByCleanup(l)
    ensures KnownPc(Apply(s, l), Apply(s, l).threads[t])
  {
    if t in s.threads {
      assert KnownPc(s, s.threads[t]);
    }
  }

  lemma SenderPcKnown(s: State, l: Label, t: Tid)
    requires KnownHandles(s) && KnownConns(s) && KnownThreads(s) && Enabled(s, l) && t in Apply(s, l).threads
    requires t in s.threads ==> Apply(s, l).threads[t] != s.threads[t]
    requires !ByCleanup(l)
    ensures KnownPc(Apply(s, l), Apply(s, l).threads[t])
  {
    if t in s.threads {
      assert KnownPc(s, s.threads[t]);
    }
  }

  lemma KnownPcStep(s: State, l: Label, t: Tid)
    requires KnownHandles(s) && KnownConns(s) && KnownThreads(s) && Enabled(s, l) && t in Apply(s, l).threads
    ensures KnownPc(Apply(s, l), Apply(s, l).threads[t])
  {
    if t in s.threads && Apply(s, l).threads[t] == s.threads[t] {
      Grows(s, l);
      PcStaysKnown(s, Apply(s, l), s.threads[t]);
    } else if ByCleanup(l) {
      CleanerPcKnown(s, l, t);
    } else {
      SenderPcKnown(s, l, t);
    }
  }

  lemma KnownThreadsStep(s: State, l: Label)
    requires Known(s) && Enabled(s, l)
    ensures KnownThreads(Apply(s, l))
  {
    forall t | t in Apply(s, l).threads {
      KnownPcStep(s, l, t);
    }
  }

  lemma LockedStep(s: State, l: Label)
    requires Locked(s) && Enabled(s, l)
    ensures Locked(Apply(s, l))
  {
  }

  lemma PairedStep(s: State, l: Label)
    requires AllPaired(s) && Enabled(s, l)
    ensures AllPaired(Apply(s, l))
  {
  }

  /** A commitment to close is old, or made by the step that takes the conn out of its slot. */
  lemma CommittedOrigin(s: State, l: Label, h: Handle, c: ConnId)
    requires Enabled(s, l) && Committed(Apply(s, l), h, c)
    ensures Committed(s, h, c) || (Removes(s, l, h, c) && !Stores(Apply(s, l), h, c))
  {
    var s' := Apply(s, l);
    var t :| t in s'.threads && ClosesNext(s'.threads[t], h, c);
    if t in s.threads && ClosesNext(s.threads[t], h, c) {
      assert Committed(s, h, c);
    }
  }

  /** Close() is called on a conn only by a thread committed to it, or on one that was never stored. */
  lemma ClosesOrigin(s: State, l: Label, h: Handle, c: ConnId)
    requires Enabled(s, l) && (h, c) in Apply(s, l).closes
    ensures (h, c) in s.closes || Committed(s, h, c) || !Stores(Apply(s, l), h, c)
  {
    if (h, c) !in s.closes && (l.Close? || l.CleanClose?) {
      assert ClosesNext(s.threads[l.t], h, c);
    }
  }

  lemma LiveStepAt(s: State, l: Label, h: Handle, c: ConnId)
    requires Known(s) && StoredIsLive(s) && Enabled(s, l) && Stores(Apply(s, l), h, c)
    ensures (h, c) !in Apply(s, l).closes && !Committed(Apply(s, l), h, c)
  {
    StoredOrigin(s, l, h, c);
    if (h, c) in Apply(s, l).closes {
      ClosesOrigin(s, l, h, c);
    }
    if Committed(Apply(s, l), h, c) {
      CommittedOrigin(s, l, h, c);
    }
    if Committed(s, h, c) {
      CommittedIsOwned(s, h, c);
    }
  }

  lemma CommittedIsOwned(s: State, h: Handle, c: ConnId)
    requires KnownThreads(s) && Committed(s, h, c)
    ensures (h, c) in s.owned
  {
    var t :| t in s.threads && ClosesNext(s.threads[t], h, c);
    assert KnownPc(s, s.threads[t]);
  }

  lemma LiveStep(s: State, l: Label)
    requires Known(s) && StoredIsLive(s) && Enabled(s, l)
    ensures StoredIsLive(Apply(s, l))
  {
    var s' := Apply(s, l);
    forall h | h in s'.slots && s'.slots[h].conn.Some? {
      LiveStepAt(s, l, h, s'.slots[h].conn.value);
    }
  }

  /** The thread committed to a close either still is, or has just closed the conn. */
  lemma CommittedStep(s: State, l: Label, h: Handle, c: ConnId)
    requires Enabled(s, l) && Committed(s, h, c)
    ensures (h, c) in Apply(s, l).closes || Committed(Apply(s, l), h, c)
  {
    var t :| t in s.threads && ClosesNext(s.threads[t], h, c);
    assert (h, c) in Apply(s, l).closes || (t in Apply(s, l).threads && ClosesNext(Apply(s, l).threads[t], h, c));
  }

  lemma SettledStep(s: State, l: Label, h: Handle, c: ConnId)
    requires Enabled(s, l) && Known(s) && (h, c) in s.owned && Settled(s, h, c)
    ensures Settled(Apply(s, l), h, c)
  {
    if Committed(s, h, c) {
      CommittedStep(s, l, h, c);
    } else if l.DestroyLock? || l.CleanVisit? {
      var s' := Apply(s, l);
      assert ClosesNext(s'.threads[l.t], h, c) || s'.slots[h] == s.slots[h] || (h, c) in s.closes;
    }
  }

  lemma AccountedStep(s: State, l: Label)
    requires Known(s) && Accounted(s) && Enabled(s, l)
    ensures Accounted(Apply(s, l))
  {
    var s' := Apply(s, l);
    forall p | p in s'.owned
      ensures Settled(s', p.0, p.1)
    {
      if p in s.owned {
        SettledStep(s, l, p.0, p.1);
      }
    }
  }

  lemma {:induction false} InvAlways(run: Run, i: nat)
    requires ValidRun(run) && i < |run.states|
    ensures Inv(run.states[i])
  {
    if i > 0 {
      InvAlways(run, i - 1);
      var s, l := run.states[i - 1], run.labels[i - 1];
      assert StepAt(run, i - 1);
      KnownHandlesStep(s, l);
      KnownConnsStep(s, l);
      KnownThreadsStep(s, l);
      LockedStep(s, l);
      PairedStep(s, l);
      LiveStep(s, l);
      AccountedStep(s, l);
    }
  }

  /**
   In every interleaving: conn and metadata go together, the stored conn is not
   one this Connection has closed or is about to close, and a conn that left its
   slot is closed or some thread is committed to closing it.
   */
  lemma ConnectionsAreSafe(run: Run, i: nat, h: Handle, c: ConnId)
    requires ValidRun(run) && i < |run.states|
    ensures AllPaired(run.states[i])
    ensures Stores(run.states[i], h, c) ==>
              (h, c) !in run.states[i].closes && !Committed(run.states[i], h, c)
    ensures (h, c) in run.states[i].owned ==> Settled(run.states[i], h, c)
  {
    InvAlways(run, i);
  }

  /** At step `q` thread `t` fails to write on `c`, and it takes no step from there to state `m`. */
  ghost predicate FailedWrite(run: Run, q: nat, m: nat, t: Tid, h: Handle, c: ConnId)
  {
    && q < m < |run.states| && q < |run.labels|
    && run.labels[q] == WriteDone(t, false) && PcOf(run.states[q], t) == Writing(h, c)
    && forall i: nat {:trigger run.labels[i]} :: q < i < m && i < |run.labels| ==> !Acts(run.labels[i], t)
  }

  lemma {:induction false} FailureWasWrite(run: Run, m: nat, t: Tid, h: Handle, c: ConnId)
    requires ValidRun(run) && m < |run.states| && PcOf(run.states[m], t) == Failed(h, c)
    ensures exists q: nat :: FailedWrite(run, q, m, t, h, c)
  {
    assert StepAt(run, m - 1);
    if Acts(run.labels[m - 1], t) {
      assert FailedWrite(run, m - 1, m, t, h, c);
    } else {
      OnlyOwnStepsMove(run.states[m - 1], run.labels[m - 1], t);
      FailureWasWrite(run, m - 1, t, h, c);
      var q: nat :| FailedWrite(run, q, m - 1, t, h, c);
      assert FailedWrite(run, q, m, t, h, c);
    }
  }

  /** Step `m` takes `c` out of `h`: a sender whose own write on `c` failed just before, or a cleanup. */
  ghost predicate RemovedAt(run: Run, m: nat, h: Handle, c: ConnId)
    requires m < |run.labels|
  {
    || (run.labels[m].CleanVisit? && run.labels[m].h == h)
    || (run.labels[m].DestroyLock? && exists q: nat :: FailedWrite(run, q, m, run.labels[m].t, h, c))
  }

  /**
   A conn leaves its slot only through a failed write on that very conn or a
   cleanup: neither a successful write nor a late failure on an older conn ever
   removes it.
   */
  lemma {:induction false} OnlyOwnFailureRemoves(run: Run, i: nat, j: nat, h: Handle, c: ConnId)
    requires ValidRun(run) && i <= j < |run.states|
    requires Stores(run.states[i], h, c) && !Stores(run.states[j], h, c)
    ensures exists m: nat :: i <= m < j && Stores(run.states[m], h, c) && RemovedAt(run, m, h, c)
  {
    assert StepAt(run, j - 1);
    if Stores(run.states[j - 1], h, c) {
      RemovalStep(run.states[j - 1], run.labels[j - 1], h, c);
      if run.labels[j - 1].DestroyLock? {
        FailureWasWrite(run, j - 1, run.labels[j - 1].t, h, c);
      }
      assert RemovedAt(run, j - 1, h, c);
    } else {
      OnlyOwnFailureRemoves(run, i, j - 1, h, c);
    }
  }

  lemma RemovalStep(s: State, l: Label, h: Handle, c: ConnId)
    requires Enabled(s, l) && Stores(s, h, c) && !Stores(Apply(s, l), h, c)
    ensures Removes(s, l, h, c)
  {
  }

  /** Without a failed write on it and without a cleanup a conn stays. */
  lemma HealthyConnStays(run: Run, i: nat, j: nat, h: Handle, c: ConnId)
    requires ValidRun(run) && i <= j < |run.states| && Stores(run.states[i], h, c)
    requires forall q: nat :: q < j && (run.labels[q].CleanVisit? || run.labels[q].WriteDone?) ==>
               !(run.labels[q].CleanVisit? && run.labels[q].h == h)
               && !(run.labels[q].WriteDone? && !run.labels[q].ok && PcOf(run.states[q], run.labels[q].t) == Writing(h, c))
    ensures Stores(run.states[j], h, c)
  {
    if !Stores(run.states[j], h, c) {
      OnlyOwnFailureRemoves(run, i, j, h, c);
    }
  }

  /** After a successful write the sender can go on or let go, and nothing is removed or closed. */
  lemma SuccessfulWriteKeeps(run: Run, m: nat, t: Tid)
    requires ValidRun(run) && m < |run.labels| && run.labels[m] == WriteDone(t, true)
    ensures run.states[m + 1].slots == run.states[m].slots && run.states[m + 1].closes == run.states[m].closes
    ensures PcOf(run.states[m], t).Writing? && PcOf(run.states[m + 1], t) == Holding(PcOf(run.states[m], t).h)
    ensures Enabled(run.states[m + 1], Release(t)) && PcOf(Apply(run.states[m + 1], Release(t)), t) == Idle
  {
    assert StepAt(run, m);
  }

  /** After a failed write the sender's next steps take the conn out of its slot and close it. */
  lemma FailedWriteCloses(run: Run, m: nat, t: Tid, h: Handle, c: ConnId)
    requires ValidRun(run) && m < |run.labels|
    requires run.labels[m] == WriteDone(t, false) && PcOf(run.states[m], t) == Writing(h, c)
    ensures var s := run.states[m + 1];
            && s.slots == run.states[m].slots && s.closes == run.states[m].closes && Enabled(s, DestroyLock(t))
            && var s1 := Apply(s, DestroyLock(t));
            && !Stores(s1, h, c) && s1.slots - {h} == s.slots - {h} && Enabled(s1, Close(t))
            && var s2 := Apply(s1, Close(t));
            && s2.slots == s1.slots && s2.closes == s.closes + {(h, c)} && PcOf(s2, t) == Holding(h)
  {
    assert StepAt(run, m);
    InvAlways(run, m + 1);
    assert KnownPc(run.states[m + 1], run.states[m + 1].threads[t]);
  }

  /** Step `m` brings conn and metadata to `h`: a handover, or a dial by a thread that has the Connection. */
  predicate BringsAt(run: Run, m: nat, h: Handle, c: ConnId, meta: Option<Metadata>)
    requires m < |run.labels| && m < |run.states|
  {
    var l := run.labels[m];
    meta.Some? &&
    ( || (l.AddExisting? && l.h == h && l.c == c && l.meta == meta)
      || (l.GetConn? && l.d == Dialed(c, meta.value)
          && (PcOf(run.states[m], l.t) == Holding(h) || PcOf(run.states[m], l.t) == Dialing(h))))
  }

  /** Whatever a Connection stores was handed over or dialled for it, with the metadata of that very conn. */
  lemma {:induction false} StoredWasBrought(run: Run, n: nat, h: Handle, c: ConnId)
    requires ValidRun(run) && n < |run.states| && Stores(run.states[n], h, c)
    ensures exists m: nat :: m < n && BringsAt(run, m, h, c, run.states[n].slots[h].metadata)
  {
    assert StepAt(run, n - 1);
    if Stores(run.states[n - 1], h, c) {
      StoredWasBrought(run, n - 1, h, c);
      StoredStays(run.states[n - 1], run.labels[n - 1], h, c);
    } else {
      assert BringsAt(run, n - 1, h, c, run.states[n].slots[h].metadata);
    }
  }

  lemma StoredStays(s: State, l: Label, h: Handle, c: ConnId)
    requires Enabled(s, l) && Stores(s, h, c) && Stores(Apply(s, l), h, c)
    ensures Apply(s, l).slots[h] == s.slots[h]
  {
  }

  /** Once out of its slot, a conn never comes back to it. */
  lemma {:induction false} RemovedForGood(run: Run, i: nat, j: nat, h: Handle, c: ConnId)
    requires ValidRun(run) && i <= j < |run.states|
    requires (h, c) in run.states[i].owned && !Stores(run.states[i], h, c)
    ensures (h, c) in run.states[j].owned && !Stores(run.states[j], h, c)
  {
    if i < j {
      RemovedForGood(run, i, j - 1, h, c);
      assert StepAt(run, j - 1);
      InvAlways(run, j - 1);
    }
  }

  /** Thread `t` runs one cleanup loop from step `i` to step `j`. */
  ghost predicate Cleanup(run: Run, i: nat, j: nat, t: Tid)
  {
    && ValidRun(run) && i < j < |run.labels|
    && run.labels[i].CleanBegin? && run.labels[i].t == t
    && run.labels[j] == CleanEnd(t) && (forall m: nat :: i < m < j ==> run.labels[m] != CleanEnd(t))
  }

  /** In between the thread is in the loop, in the mode it was started with. */
  lemma {:induction false} InCleanup(run: Run, i: nat, j: nat, t: Tid, m: nat)
    requires Cleanup(run, i, j, t) && i < m <= j
    ensures PcOf(run.states[m], t).Cleaning? && PcOf(run.states[m], t).mode == run.labels[i].mode
  {
    assert StepAt(run, m - 1);
    if m > i + 1 {
      InCleanup(run, i, j, t, m - 1);
      assert run.labels[m - 1] != CleanEnd(t);
    }
  }

  lemma {:induction false} CleanupProgress(run: Run, i: nat, j: nat, t: Tid, m: nat, h: Handle, c: ConnId)
    requires Cleanup(run, i, j, t) && i < m <= j
    requires h in run.states[i].registry.connMap.Values && Stores(run.states[i], h, c)
    ensures (h, c) in run.states[m].owned && PcOf(run.states[m], t).Cleaning?
    ensures h in PcOf(run.states[m], t).left || !Stores(run.states[m], h, c)
  {
    InCleanup(run, i, j, t, m);
    InvAlways(run, m - 1);
    assert StepAt(run, m - 1);
    if m > i + 1 {
      CleanupProgress(run, i, j, t, m - 1, h, c);
      if !Stores(run.states[m - 1], h, c) {
        RemovedForGood(run, m - 1, m, h, c);
      }
    }
  }

  /**
   When a cleanup returns, each conn it found registered is out of its slot for
   good, and is closed or some sender is committed to closing it, whatever the
   senders did meanwhile.
   */
  lemma CleanupRetires(run: Run, i: nat, j: nat, t: Tid, h: Handle, c: ConnId)
    requires Cleanup(run, i, j, t)
    requires h in run.states[i].registry.connMap.Values && Stores(run.states[i], h, c)
    ensures run.states[j + 1].registry.connMap == map[]
    ensures forall m: nat :: j < m < |run.states| ==> !Stores(run.states[m], h, c)
    ensures (h, c) in run.states[j + 1].closes || Committed(run.states[j + 1], h, c)
  {
    CleanupProgress(run, i, j, t, j, h, c);
    assert StepAt(run, j);
    assert PcOf(run.states[j], t).left == {};
    forall m: nat | j < m < |run.states|
      ensures !Stores(run.states[m], h, c)
    {
      RemovedForGood(run, j, m, h, c);
    }
    RemovedForGood(run, j, j + 1, h, c);
    InvAlways(run, j + 1);
  }

  function Last(run: Run): State
    requires |run.states| > 0
  {
    run.states[|run.states| - 1]
  }

  lemma Extend(run: Run, l: Label) returns (longer: Run)
    requires ValidRun(run) && Enabled(Last(run), l)
    ensures ValidRun(longer) && longer.labels == run.labels + [l]
    ensures longer.states == run.states + [Apply(Last(run), l)]
    ensures Last(longer) == Apply(Last(run), l)
  {
    longer := Run(run.states + [Apply(Last(run), l)], run.labels + [l]);
    forall i: nat | i < |longer.labels|
      ensures StepAt(longer, i)
    {
      if i < |run.labels| {
        assert StepAt(run, i);
      }
    }
  }
}
