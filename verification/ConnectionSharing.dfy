/** Conns that several Connections know, and when one of them closes what another one stores. */
module ConnectionSharing {
  import opened Prelude
  import opened Connections
  import opened ConnectionRegistry
  import opened ConnectionMachine
  import opened ConnectionSafety
  import opened ConnectionReach

  /** Each diam.Conn belongs to one Connection. */
  ghost predicate Exclusive(s: State)
  {
    forall p, q :: p in s.owned && q in s.owned && p.1 == q.1 ==> p.0 == q.0
  }

  ghost predicate AllOwned(s: State)
  {
    forall c <- s.conns :: exists h :: (h, c) in s.owned
  }

  /** AddExistingConnection is given a conn this manager has not seen. */
  predicate FreshHandover(s: State, l: Label)
  {
    l.AddExisting? && l.meta.Some? ==> l.c !in s.conns
  }

  lemma {:induction false} AllOwnedAlways(run: Run, i: nat)
    requires ValidRun(run) && i < |run.states|
    ensures AllOwned(run.states[i])
  {
    if i > 0 {
      AllOwnedAlways(run, i - 1);
      assert StepAt(run, i - 1);
      var s, s' := run.states[i - 1], run.states[i];
      assert s.owned <= s'.owned;
      forall c | c in s'.conns
        ensures exists h :: (h, c) in s'.owned
      {
        if c in s.conns {
          var h :| (h, c) in s.owned;
          assert (h, c) in s'.owned;
        } else if run.labels[i - 1].AddExisting? {
          assert (run.labels[i - 1].h, c) in s'.owned;
        } else {
          assert (PcOf(s, run.labels[i - 1].t).h, c) in s'.owned;
        }
      }
    }
  }

  /** One step keeps conns exclusive exactly when it does not hand over a conn already in use. */
  lemma ExclusiveStep(s: State, l: Label)
    requires KnownConns(s) && AllOwned(s) && Exclusive(s) && Enabled(s, l)
    ensures Exclusive(Apply(s, l)) <==> FreshHandover(s, l)
  {
    if !FreshHandover(s, l) {
      var h :| (h, l.c) in s.owned;
      var s' := Apply(s, l);
      var p, q := (h, l.c), (l.h, l.c);
      assert p in s'.owned && q in s'.owned && p.1 == q.1 && p.0 != q.0;
    }
  }

  /** Over a whole run: every conn stays with one Connection iff every handover was fresh. */
  lemma {:induction false} ExclusiveIffFresh(run: Run, n: nat)
    requires ValidRun(run) && n < |run.states|
    ensures (forall i: nat :: i <= n ==> Exclusive(run.states[i]))
            <==> (forall i: nat :: i < n ==> FreshHandover(run.states[i], run.labels[i]))
  {
    if n > 0 {
      ExclusiveIffFresh(run, n - 1);
      InvAlways(run, n - 1);
      AllOwnedAlways(run, n - 1);
      assert StepAt(run, n - 1);
      if Exclusive(run.states[n - 1]) {
        ExclusiveStep(run.states[n - 1], run.labels[n - 1]);
      }
    }
  }

  /** With fresh handovers the stored conn is not closed, nor about to be, through any Connection. */
  lemma FreshHandoversStayOpen(run: Run, n: nat, h: Handle, c: ConnId, h': Handle)
    requires ValidRun(run) && n < |run.states|
    requires forall i: nat :: i < n ==> FreshHandover(run.states[i], run.labels[i])
    requires Stores(run.states[n], h, c)
    ensures (h', c) !in run.states[n].closes && !Committed(run.states[n], h', c)
    ensures Stores(run.states[n], h', c) ==> h' == h
  {
    ExclusiveIffFresh(run, n);
    InvAlways(run, n);
    assert Exclusive(run.states[n]);
    var p, q := (h, c), (h', c);
    assert p in run.states[n].owned;
    if q in run.states[n].owned {
      assert p.0 == q.0;
    }
  }

  // Closing through another Connection

  /** The thread is on its way to closing `c` through `x`, or will be if its write fails. */
  predicate BusyWith(pc: Pc, x: Handle, c: ConnId)
  {
    || ((pc.Writing? || pc.Failed? || pc.Closing?) && pc.h == x && pc.c == c)
    || (pc.Cleaning? && pc.next == Some((x, c)))
  }

  predicate SomeBusyWith(s: State, x: Handle, c: ConnId)
  {
    exists t <- s.threads :: BusyWith(s.threads[t], x, c)
  }

  /** `c` was closed through `x`, or still can be. */
  predicate Endangers(s: State, x: Handle, c: ConnId)
  {
    (x, c) in s.closes || SomeBusyWith(s, x, c) || (Stores(s, x, c) && InReach(s, x))
  }

  ghost predicate Elsewhere(s: State, h: Handle, c: ConnId)
  {
    exists x :: x != h && Endangers(s, x, c)
  }

  predicate HandsOver(l: Label, c: ConnId)
  {
    l.AddExisting? && l.meta.Some? && l.c == c
  }

  lemma ClosedOrigin(s: State, l: Label, x: Handle, c: ConnId)
    requires Enabled(s, l) && c in s.conns && (x, c) in Apply(s, l).closes
    ensures (x, c) in s.closes || SomeBusyWith(s, x, c)
  {
    if (x, c) !in s.closes && (l.Close? || l.CleanClose?) {
      assert BusyWith(s.threads[l.t], x, c);
    }
  }

  lemma BusyOrigin(s: State, l: Label, x: Handle, c: ConnId)
    requires Enabled(s, l) && c in s.conns && SomeBusyWith(Apply(s, l), x, c)
    ensures Endangers(s, x, c)
  {
    var s' := Apply(s, l);
    var t :| t in s'.threads && BusyWith(s'.threads[t], x, c);
    if t in s.threads && BusyWith(s.threads[t], x, c) {
      assert SomeBusyWith(s, x, c);
    } else {
      assert l.GetConn? || l.CleanVisit?;
      assert Stores(s, x, c) && (Holds(s.threads[t], x) || WillVisit(s.threads[t], x));
    }
  }

  /** Only another handover brings a Connection to a state where it can close `c`. */
  lemma EndangersOrigin(s: State, l: Label, x: Handle, c: ConnId)
    requires Known(s) && Enabled(s, l) && c in s.conns && !HandsOver(l, c) && Endangers(Apply(s, l), x, c)
    ensures Endangers(s, x, c)
  {
    if (x, c) in Apply(s, l).closes {
      ClosedOrigin(s, l, x, c);
    } else if SomeBusyWith(Apply(s, l), x, c) {
      BusyOrigin(s, l, x, c);
    } else {
      assert Stores(s, x, c);
      ReachOrigin(s, l, x);
    }
  }

  /** `longer` goes on from where `run` ends, and hands `c` over no more. */
  ghost predicate Continues(run: Run, longer: Run, c: ConnId)
  {
    && ValidRun(run) && ValidRun(longer)
    && run.states <= longer.states && run.labels <= longer.labels
    && forall i: nat :: |run.labels| <= i < |longer.labels| ==> !HandsOver(longer.labels[i], c)
  }

  lemma {:induction false} StaysSafe(run: Run, longer: Run, n: nat, h: Handle, c: ConnId)
    requires Continues(run, longer, c) && |run.labels| <= n < |longer.states|
    requires Stores(Last(run), h, c) && !Elsewhere(Last(run), h, c)
    ensures c in longer.states[n].conns && !Elsewhere(longer.states[n], h, c)
  {
    InvAlways(run, |run.labels|);
    if n > |run.labels| {
      StaysSafe(run, longer, n - 1, h, c);
      InvAlways(longer, n - 1);
      assert StepAt(longer, n - 1);
      Grows(longer.states[n - 1], longer.labels[n - 1]);
      forall x | x != h && Endangers(longer.states[n], x, c)
        ensures false
      {
        EndangersOrigin(longer.states[n - 1], longer.labels[n - 1], x, c);
      }
    } else {
      assert longer.states[n] == Last(run);
    }
  }

  lemma CommittedIsBusy(s: State, x: Handle, c: ConnId)
    ensures Committed(s, x, c) ==> SomeBusyWith(s, x, c)
  {
    forall t | t in s.threads && ClosesNext(s.threads[t], x, c)
      ensures SomeBusyWith(s, x, c)
    {
      assert BusyWith(s.threads[t], x, c);
    }
  }

  /**
   A stored conn that no other Connection can close is not closed, or about to be,
   through any Connection for as long as it is stored and not handed over again.
   */
  lemma StoredIsOpenEverywhere(run: Run, longer: Run, h: Handle, c: ConnId, x: Handle)
    requires Continues(run, longer, c) && Stores(Last(run), h, c) && !Elsewhere(Last(run), h, c)
    requires Stores(Last(longer), h, c)
    ensures (x, c) !in Last(longer).closes && !Committed(Last(longer), x, c)
  {
    var s := Last(longer);
    StaysSafe(run, longer, |longer.labels|, h, c);
    InvAlways(longer, |longer.labels|);
    CommittedIsBusy(s, x, c);
    assert x != h ==> !Endangers(s, x, c);
  }

  // The converse: a run that closes the conn

  /** `longer` ends with `h` storing `c` although `c` was closed through `x`. */
  ghost predicate ClosesUnder(run: Run, longer: Run, h: Handle, x: Handle, c: ConnId)
  {
    Continues(run, longer, c) && Stores(Last(longer), h, c) && (x, c) in Last(longer).closes
  }

  ghost predicate GetsClosed(run: Run, h: Handle, x: Handle, c: ConnId)
  {
    exists longer :: ClosesUnder(run, longer, h, x, c)
  }

  /** A run on the way there. */
  ghost predicate OnTheWay(run: Run, longer: Run, h: Handle, x: Handle, c: ConnId)
  {
    Continues(run, longer, c) && Stores(Last(longer), h, c) && x != h && Inv(Last(longer))
  }

  lemma Go(run: Run, longer: Run, l: Label, h: Handle, x: Handle, c: ConnId) returns (next: Run)
    requires OnTheWay(run, longer, h, x, c) && Enabled(Last(longer), l) && !HandsOver(l, c)
    requires Stores(Apply(Last(longer), l), h, c)
    ensures OnTheWay(run, next, h, x, c) && Last(next) == Apply(Last(longer), l)
  {
    next := Extend(longer, l);
    InvAlways(next, |next.labels|);
  }

  /** A sender whose write on `c` fails closes it. */
  lemma FromSender(run: Run, at: Run, t: Tid, h: Handle, x: Handle, c: ConnId)
    requires OnTheWay(run, at, h, x, c) && BusyWith(PcOf(Last(at), t), x, c) && !PcOf(Last(at), t).Cleaning?
    ensures GetsClosed(run, h, x, c)
  {
    var longer := at;
    if PcOf(Last(at), t).Writing? {
      longer := Go(run, longer, WriteDone(t, false), h, x, c);
    }
    if PcOf(Last(longer), t).Failed? {
      assert KnownPc(Last(longer), Last(longer).threads[t]);
      longer := Go(run, longer, DestroyLock(t), h, x, c);
    }
    longer := Go(run, longer, Close(t), h, x, c);
    assert ClosesUnder(run, longer, h, x, c);
  }

  lemma FromBusy(run: Run, at: Run, t: Tid, h: Handle, x: Handle, c: ConnId)
    requires OnTheWay(run, at, h, x, c) && BusyWith(PcOf(Last(at), t), x, c)
    ensures GetsClosed(run, h, x, c)
  {
    if PcOf(Last(at), t).Cleaning? {
      var longer := Go(run, at, CleanClose(t), h, x, c);
      assert ClosesUnder(run, longer, h, x, c);
    } else {
      FromSender(run, at, t, h, x, c);
    }
  }

  lemma FromHolding(run: Run, at: Run, t: Tid, h: Handle, x: Handle, c: ConnId)
    requires OnTheWay(run, at, h, x, c) && Stores(Last(at), x, c) && PcOf(Last(at), t) == Holding(x)
    ensures GetsClosed(run, h, x, c)
  {
    var longer := Go(run, at, GetConn(t, DialFailed), h, x, c);
    FromSender(run, longer, t, h, x, c);
  }

  /** A thread busy with another conn of `x` first finishes with that one. */
  lemma FromHolder(run: Run, at: Run, t: Tid, h: Handle, x: Handle, c: ConnId)
    requires OnTheWay(run, at, h, x, c) && Stores(Last(at), x, c) && Holds(PcOf(Last(at), t), x)
    ensures GetsClosed(run, h, x, c)
  {
    var pc := PcOf(Last(at), t);
    if BusyWith(pc, x, c) {
      FromBusy(run, at, t, h, x, c);
    } else if pc.Holding? {
      FromHolding(run, at, t, h, x, c);
    } else if pc.Writing? {
      var longer := Go(run, at, WriteDone(t, true), h, x, c);
      FromHolding(run, longer, t, h, x, c);
    } else {
      FromOldClose(run, at, t, h, x, c);
    }
  }

  lemma FromOldClose(run: Run, at: Run, t: Tid, h: Handle, x: Handle, c: ConnId)
    requires OnTheWay(run, at, h, x, c) && Stores(Last(at), x, c)
    requires (PcOf(Last(at), t).Failed? || PcOf(Last(at), t).Closing?) && PcOf(Last(at), t).h == x && PcOf(Last(at), t).c != c
    ensures GetsClosed(run, h, x, c)
  {
    var longer := at;
    if PcOf(Last(at), t).Failed? {
      longer := Go(run, longer, DestroyLock(t), h, x, c);
    }
    longer := Go(run, longer, Close(t), h, x, c);
    FromHolding(run, longer, t, h, x, c);
  }

  /** A cleaner that has not visited `x` yet can do so before it visits `h`. */
  lemma FromLeft(run: Run, at: Run, t: Tid, h: Handle, x: Handle, c: ConnId)
    requires OnTheWay(run, at, h, x, c) && Stores(Last(at), x, c) && WillVisit(PcOf(Last(at), t), x)
    ensures GetsClosed(run, h, x, c)
  {
    var longer := at;
    if PcOf(Last(at), t).next.Some? {
      longer := Go(run, longer, CleanClose(t), h, x, c);
    }
    longer := Go(run, longer, CleanVisit(t, x), h, x, c);
    FromBusy(run, longer, t, h, x, c);
  }

  lemma {:induction false} UnusedTid(used: set<Tid>) returns (t: Tid)
    ensures forall u <- used :: u < t
    decreases |used|
  {
    t := 0;
    if used != {} {
      var u :| u in used;
      t := UnusedTid(used - {u});
      t := if t > u then t else u + 1;
      assert forall v <- used :: v == u || v in used - {u};
    }
  }

  /** What a registered Connection stores after the running cleanup has visited it is its own. */
  predicate OwnsAlone(s: State, x: Handle)
  {
    x in s.slots && s.slots[x].conn.Some? ==> forall p <- s.owned :: p.1 == s.slots[x].conn.value ==> p.0 == x
  }

  predicate VisitedOwnAlone(s: State)
  {
    forall t <- s.threads, k <- s.registry.connMap ::
      s.threads[t].Cleaning? && s.registry.connMap[k] !in s.threads[t].left ==> OwnsAlone(s, s.registry.connMap[k])
  }

  lemma OwnsAloneStep(s: State, l: Label, x: Handle)
    requires Known(s) && Enabled(s, l) && OwnsAlone(s, x) && x in s.slots && !l.AddExisting?
    ensures OwnsAlone(Apply(s, l), x)
  {
  }

  lemma VisitedAt(s: State, l: Label, t: Tid, k: Key)
    requires Known(s) && Locked(s) && VisitedOwnAlone(s) && Enabled(s, l)
    requires PcOf(Apply(s, l), t).Cleaning? && k in Apply(s, l).registry.connMap
    requires Apply(s, l).registry.connMap[k] !in PcOf(Apply(s, l), t).left
    ensures OwnsAlone(Apply(s, l), Apply(s, l).registry.connMap[k])
  {
    CleaningStep(s, l, t);
    var x := s.registry.connMap[k];
    assert x in s.registry.connMap.Values;
    if l != CleanVisit(t, x) {
      LeftStep(s, l, t, x);
      OwnsAloneStep(s, l, x);
    }
  }

  lemma VisitedStep(s: State, l: Label)
    requires Known(s) && Locked(s) && VisitedOwnAlone(s) && Enabled(s, l)
    ensures VisitedOwnAlone(Apply(s, l))
  {
    var s' := Apply(s, l);
    forall t, k | t in s'.threads && k in s'.registry.connMap && s'.threads[t].Cleaning?
                  && s'.registry.connMap[k] !in s'.threads[t].left
      ensures OwnsAlone(s', s'.registry.connMap[k])
    {
      VisitedAt(s, l, t, k);
    }
  }

  lemma {:induction false} VisitedAlways(run: Run, i: nat)
    requires ValidRun(run) && i < |run.states|
    ensures VisitedOwnAlone(run.states[i])
  {
    if i > 0 {
      VisitedAlways(run, i - 1);
      InvAlways(run, i - 1);
      assert StepAt(run, i - 1);
      VisitedStep(run.states[i - 1], run.labels[i - 1]);
    }
  }

  /** A registered Connection can be looked up, or is still to be visited by the cleaner that has the lock. */
  lemma FromRegistered(run: Run, at: Run, h: Handle, x: Handle, c: ConnId)
    requires OnTheWay(run, at, h, x, c) && Stores(Last(at), x, c) && Registered(Last(at), x)
    ensures GetsClosed(run, h, x, c)
  {
    var s := Last(at);
    var k :| k in s.registry.connMap && s.registry.connMap[k] == x;
    if s.writer.None? {
      var t := UnusedTid(s.threads.Keys);
      var longer := Go(run, at, LookupHit(t, k), h, x, c);
      FromHolding(run, longer, t, h, x, c);
    } else {
      var t := s.writer.value;
      VisitedAlways(at, |at.labels|);
      assert (h, c) in s.owned;
      assert s.threads[t].Cleaning? && x in s.threads[t].left;
      FromLeft(run, at, t, h, x, c);
    }
  }

  lemma EndangeredGetsClosed(run: Run, h: Handle, x: Handle, c: ConnId)
    requires ValidRun(run) && Stores(Last(run), h, c) && x != h && Endangers(Last(run), x, c)
    ensures GetsClosed(run, h, x, c)
  {
    var s := Last(run);
    InvAlways(run, |run.labels|);
    assert OnTheWay(run, run, h, x, c);
    if (x, c) in s.closes {
      assert ClosesUnder(run, run, h, x, c);
    } else if SomeBusyWith(s, x, c) {
      var t :| t in s.threads && BusyWith(s.threads[t], x, c);
      FromBusy(run, run, t, h, x, c);
    } else if Registered(s, x) {
      FromRegistered(run, run, h, x, c);
    } else {
      var t :| t in s.threads && (Holds(s.threads[t], x) || WillVisit(s.threads[t], x));
      if Holds(s.threads[t], x) {
        FromHolder(run, run, t, h, x, c);
      } else {
        FromLeft(run, run, t, h, x, c);
      }
    }
  }

  /** Without another handover, some run leaves `h` storing `c` closed through another Connection. */
  ghost predicate CanStoreClosed(run: Run, h: Handle, c: ConnId)
  {
    exists x :: x != h && GetsClosed(run, h, x, c)
  }

  /**
   From any reachable state: a stored conn can get closed under its Connection
   iff another Connection has closed it, is being used on it, or stores it too
   and is in reach.
   */
  lemma StoredCanBeClosedIff(run: Run, h: Handle, c: ConnId)
    requires ValidRun(run) && Stores(Last(run), h, c)
    ensures CanStoreClosed(run, h, c) <==> Elsewhere(Last(run), h, c)
  {
    if Elsewhere(Last(run), h, c) {
      var x :| x != h && Endangers(Last(run), x, c);
      EndangeredGetsClosed(run, h, x, c);
    } else if CanStoreClosed(run, h, c) {
      var x :| x != h && GetsClosed(run, h, x, c);
      var longer :| ClosesUnder(run, longer, h, x, c);
      StoredIsOpenEverywhere(run, longer, h, c, x);
    }
  }

  // What AddExistingConnection has to be given

  /** Before a handover under `k`: some Connection has closed `c`, is used on it, or keeps it in reach. */
  ghost predicate InUse(s: State, k: Key, c: ConnId)
  {
    exists x :: EndangersBeside(s, x, k, c)
  }

  predicate EndangersBeside(s: State, x: Handle, k: Key, c: ConnId)
  {
    || (x, c) in s.closes || SomeBusyWith(s, x, c)
    || (Stores(s, x, c) && (RegisteredBeside(s, x, k) || HeldBySome(s, x)))
  }

  lemma BesideIff(s: State, k: Key, c: ConnId, m: Metadata, h: Handle, x: Handle)
    requires Known(s) && Enabled(s, AddExisting(k, c, Some(m), h))
    ensures x != h && Endangers(Apply(s, AddExisting(k, c, Some(m), h)), x, c) <==> EndangersBeside(s, x, k, c)
  {
    var s' := Apply(s, AddExisting(k, c, Some(m), h));
    assert s'.threads == s.threads && s'.closes == s.closes;
    if SomeBusyWith(s, x, c) {
      var t :| t in s.threads && BusyWith(s.threads[t], x, c);
      assert KnownPc(s, s.threads[t]);
    }
    if x != h {
      BesideIsRegistered(s, k, c, m, h, x);
    }
  }

  /**
   AddExistingConnection is unsafe iff some Connection has closed the conn, is
   being used on it, or stores it and is held by a thread or registered under
   another key. Replacing an unused entry under the same key is safe.
   */
  lemma HandoverIsUnsafeIff(run: Run, k: Key, c: ConnId, m: Metadata, h: Handle)
    requires ValidRun(run) && Enabled(Last(run), AddExisting(k, c, Some(m), h))
    ensures var l := AddExisting(k, c, Some(m), h);
            CanStoreClosed(Run(run.states + [Apply(Last(run), l)], run.labels + [l]), h, c) <==> InUse(Last(run), k, c)
  {
    var added := Extend(run, AddExisting(k, c, Some(m), h));
    assert added == Run(added.states, added.labels);
    InvAlways(run, |run.labels|);
    StoredCanBeClosedIff(added, h, c);
    forall x {
      BesideIff(Last(run), k, c, m, h, x);
    }
    assert Elsewhere(Last(added), h, c) <==> InUse(Last(run), k, c);
  }

  /**
   Handing over a conn again while a sender is writing on it breaks this: when
   that write fails, the new Connection is left storing a closed conn.
   */
  lemma ReusedHandoverStoresClosedConn(run: Run, t: Tid, k: Key, m: Metadata, h: Handle) returns (longer: Run)
    requires ValidRun(run) && Last(run).writer.None? && PcOf(Last(run), t).Writing? && h !in Last(run).slots
    ensures ValidRun(longer) && run.labels <= longer.labels
    ensures var c := PcOf(Last(run), t).c;
            Stores(Last(longer), h, c) && (PcOf(Last(run), t).h, c) in Last(longer).closes
  {
    var pc := PcOf(Last(run), t);
    InvAlways(run, |run.labels|);
    assert KnownPc(Last(run), Last(run).threads[t]);
    var added := Extend(run, AddExisting(k, pc.c, Some(m), h));
    assert BusyWith(Last(added).threads[t], pc.h, pc.c);
    EndangeredGetsClosed(added, h, pc.h, pc.c);
    longer :| ClosesUnder(added, longer, h, pc.h, pc.c);
  }

  /** Such a run from the start: a caller creates Connection 0, dials `c` and is writing when `c` is handed over. */
  lemma ReusedHandoverRun(k: Key, c: ConnId, m: Metadata) returns (run: Run)
    ensures ValidRun(run) && Stores(Last(run), 1, c) && (0, c) in Last(run).closes
  {
    run := FirstCall(k);
    run := Extend(run, GetConn(0, Dialed(c, m)));
    run := ReusedHandoverStoresClosedConn(run, 0, k, m, 1);
  }

  /** Caller 0 creates Connection 0, dials `c`, sends and lets go. */
  lemma FirstSend(k: Key, c: ConnId, m: Metadata) returns (run: Run)
    ensures ValidRun(run)
    ensures Last(run).registry.connMap == map[k := 0] && Last(run).slots == map[0 := Slot(Some(c), Some(m))]
    ensures Last(run).threads == map[0 := Idle, 1 := Dialing(0)] && Last(run).writer.None? && Last(run).closes == {}
  {
    run := FirstCall(k);
    run := Extend(run, GetConn(0, Dialed(c, m)));
    run := Extend(run, WriteDone(0, true));
    run := Extend(run, Release(0));
  }

  /** A Connection only its first-dial goroutine still knows endangers nothing: that goroutine never writes. */
  lemma FirstDialIsHarmless(k: Key, c: ConnId, m: Metadata) returns (run: Run)
    ensures ValidRun(run) && Stores(Last(run), 0, c) && PcOf(Last(run), 1) == Dialing(0) && Stores(Last(run), 2, c)
    ensures !CanStoreClosed(run, 2, c)
  {
    run := FirstSend(k, c, m);
    HandoverIsUnsafeIff(run, k, c, m, 2);
    run := Extend(run, AddExisting(k, c, Some(m), 2));
    assert run == Run(run.states, run.labels);
  }

  /** The same handover again, under the same key and with nobody holding the first Connection, is safe. */
  lemma ReplacingUnusedEntryIsSafe(k: Key, c: ConnId, m: Metadata) returns (run: Run)
    ensures ValidRun(run) && run.labels == [AddExisting(k, c, Some(m), 0), AddExisting(k, c, Some(m), 1)]
    ensures !FreshHandover(run.states[1], run.labels[1]) && Stores(Last(run), 1, c) && !CanStoreClosed(run, 1, c)
  {
    run := Extend(Run([Init()], []), AddExisting(k, c, Some(m), 0));
    HandoverIsUnsafeIff(run, k, c, m, 1);
    run := Extend(run, AddExisting(k, c, Some(m), 1));
    assert run == Run(run.states, run.labels);
  }
}
