/** Which Connections can still be used or cleaned up, and how a stored conn ends up in one that cannot. */
module ConnectionReach {
  import opened Prelude
  import opened Connections
  import opened ConnectionRegistry
  import opened ConnectionMachine
  import opened ConnectionSafety

  /** The thread can use the Connection. The goroutine of newConnection cannot: it dials once and never writes. */
  predicate Holds(pc: Pc, x: Handle)
  {
    (pc.Holding? || pc.Writing? || pc.Failed? || pc.Closing?) && pc.h == x
  }

  predicate WillVisit(pc: Pc, x: Handle)
  {
    pc.Cleaning? && x in pc.left
  }

  predicate Registered(s: State, x: Handle)
  {
    exists k <- s.registry.connMap :: s.registry.connMap[k] == x
  }

  predicate HeldBySome(s: State, x: Handle)
  {
    exists t <- s.threads :: Holds(s.threads[t], x) || WillVisit(s.threads[t], x)
  }

  /** Some thread can use the Connection or clean it up. */
  predicate InReach(s: State, x: Handle)
  {
    Registered(s, x) || HeldBySome(s, x)
  }

  /** From when it has a Connection until it releases it, a caller keeps that same Connection. */
  lemma {:induction false} HolderKeepsConnection(run: Run, i: nat, n: nat, t: Tid, h: Handle)
    requires ValidRun(run) && i <= n < |run.states| && PcOf(run.states[i], t) == Holding(h)
    requires forall m: nat :: i <= m < n ==> run.labels[m] != Release(t)
    ensures Holds(PcOf(run.states[n], t), h)
  {
    if i < n {
      HolderKeepsConnection(run, i, n - 1, t, h);
      assert StepAt(run, n - 1);
      assert run.labels[n - 1] != Release(t);
    }
  }

  /** An existing Connection that is in reach after a step was in reach before it. */
  lemma RegisteredOrigin(s: State, l: Label, x: Handle)
    requires Enabled(s, l) && x in s.slots && Registered(Apply(s, l), x)
    ensures Registered(s, x)
  {
    var k :| k in Apply(s, l).registry.connMap && Apply(s, l).registry.connMap[k] == x;
    assert k in s.registry.connMap && s.registry.connMap[k] == x;
  }

  lemma HeldOrigin(s: State, l: Label, x: Handle)
    requires Enabled(s, l) && x in s.slots && HeldBySome(Apply(s, l), x)
    ensures InReach(s, x)
  {
    var s' := Apply(s, l);
    var t :| t in s'.threads && (Holds(s'.threads[t], x) || WillVisit(s'.threads[t], x));
    if t in s.threads && s'.threads[t] == s.threads[t] {
      assert HeldBySome(s, x);
    } else {
      NewHolder(s, l, x, t);
    }
  }

  lemma NewHolder(s: State, l: Label, x: Handle, t: Tid)
    requires Enabled(s, l) && x in s.slots && t in Apply(s, l).threads
    requires t in s.threads ==> Apply(s, l).threads[t] != s.threads[t]
    requires Holds(Apply(s, l).threads[t], x) || WillVisit(Apply(s, l).threads[t], x)
    ensures InReach(s, x)
  {
    if l.LookupHit? {
      assert s.registry.connMap[l.k] == x;
    } else if l.LockedHit? {
      assert s.registry.connMap[PcOf(s, l.t).key] == x;
    } else if l.CleanBegin? {
      var k :| k in s.registry.connMap && s.registry.connMap[k] == x;
      assert Registered(s, x);
    } else {
      assert Holds(PcOf(s, l.t), x) || WillVisit(PcOf(s, l.t), x);
    }
  }

  lemma ReachOrigin(s: State, l: Label, x: Handle)
    requires Enabled(s, l) && x in s.slots && InReach(Apply(s, l), x)
    ensures InReach(s, x)
  {
    if Registered(Apply(s, l), x) {
      RegisteredOrigin(s, l, x);
    } else {
      HeldOrigin(s, l, x);
    }
  }

  /** A conn stored in a Connection out of reach stays there for ever, and is never closed through it. */
  lemma {:induction false} StrandedForGood(run: Run, i: nat, j: nat, x: Handle, c: ConnId)
    requires ValidRun(run) && i <= j < |run.states|
    requires Stores(run.states[i], x, c) && !InReach(run.states[i], x)
    ensures Stores(run.states[j], x, c) && !InReach(run.states[j], x) && (x, c) !in run.states[j].closes
  {
    InvAlways(run, j);
    if i < j {
      StrandedForGood(run, i, j - 1, x, c);
      assert StepAt(run, j - 1);
      StrandedStep(run.states[j - 1], run.labels[j - 1], x, c);
    }
  }

  lemma StrandedStep(s: State, l: Label, x: Handle, c: ConnId)
    requires Enabled(s, l) && Stores(s, x, c) && !InReach(s, x)
    ensures Stores(Apply(s, l), x, c) && !InReach(Apply(s, l), x)
  {
    if InReach(Apply(s, l), x) {
      ReachOrigin(s, l, x);
    }
    if l.CleanVisit? || l.DestroyLock? {
      assert l.t in s.threads && !Holds(s.threads[l.t], x) && !WillVisit(s.threads[l.t], x);
    }
  }

  // How a Connection gets out of reach

  /** The step puts another Connection in the map under x's key. */
  predicate Overwrites(s: State, l: Label, x: Handle)
  {
    l.AddExisting? && l.meta.Some? && l.k in s.registry.connMap && s.registry.connMap[l.k] == x
  }

  /** A sender or the first-dial goroutine dials `c` for `x`. */
  predicate DialsFor(s: State, l: Label, x: Handle, c: ConnId)
  {
    l.GetConn? && (PcOf(s, l.t) == Holding(x) || PcOf(s, l.t) == Dialing(x)) && l.d.Dialed? && l.d.c == c
  }

  lemma EntryLost(s: State, l: Label, x: Handle)
    requires Enabled(s, l) && Registered(s, x) && !Registered(Apply(s, l), x)
    ensures Overwrites(s, l, x) || l.CleanEnd?
  {
    var k :| k in s.registry.connMap && s.registry.connMap[k] == x;
    var map' := Apply(s, l).registry.connMap;
    assert k !in map' || map'[k] != x;
  }

  lemma NewIsRegistered(s: State, l: Label, x: Handle)
    requires Enabled(s, l) && x !in s.slots && x in Apply(s, l).slots
    ensures Registered(Apply(s, l), x)
  {
    var k := if l.AddExisting? then l.k else PcOf(s, l.t).key;
    assert Apply(s, l).registry.connMap[k] == x;
  }

  /** Every Connection was registered once, so one that is not lost its entry. */
  lemma {:induction false} EntryWasLost(run: Run, n: nat, x: Handle) returns (m: nat)
    requires ValidRun(run) && n < |run.states| && x in run.states[n].slots && !Registered(run.states[n], x)
    ensures m < n && Registered(run.states[m], x) && !Registered(run.states[m + 1], x)
  {
    assert StepAt(run, n - 1);
    m := n - 1;
    if x !in run.states[m].slots {
      NewIsRegistered(run.states[m], run.labels[m], x);
    } else if !Registered(run.states[m], x) {
      m := EntryWasLost(run, n - 1, x);
    }
  }

  /** Since step `i`, thread `t` is in one cleanup loop, and the map has not changed. */
  ghost predicate CleaningSince(run: Run, i: nat, m: nat, t: Tid)
  {
    && ValidRun(run) && i < m < |run.states|
    && run.labels[i].CleanBegin? && run.labels[i].t == t
    && (forall q: nat :: i < q <= m ==> PcOf(run.states[q], t).Cleaning?)
    && run.states[m].registry.connMap == run.states[i].registry.connMap
  }

  /** While the write lock is held, the map stays. */
  lemma MapStays(s: State, l: Label)
    requires Enabled(s, l) && (s.writer.Some? || l.CleanBegin?) && !l.CleanEnd?
    ensures Apply(s, l).registry.connMap == s.registry.connMap
  {
  }

  lemma CleaningStep(s: State, l: Label, t: Tid)
    requires Locked(s) && Enabled(s, l) && PcOf(Apply(s, l), t).Cleaning?
    ensures Apply(s, l).registry.connMap == s.registry.connMap
    ensures PcOf(s, t).Cleaning? || (l.CleanBegin? && l.t == t)
  {
    MapStays(s, l);
  }

  /** A registered Connection is left to visit from the start of the cleanup until it is visited. */
  lemma LeftStep(s: State, l: Label, t: Tid, x: Handle)
    requires Enabled(s, l) && PcOf(Apply(s, l), t).Cleaning? && l != CleanVisit(t, x)
    ensures (if PcOf(s, t).Cleaning? then x in PcOf(s, t).left else x in s.registry.connMap.Values)
            ==> x in PcOf(Apply(s, l), t).left
  {
  }

  lemma {:induction false} CleaningBegan(run: Run, m: nat, t: Tid)
    requires ValidRun(run) && m < |run.states| && PcOf(run.states[m], t).Cleaning?
    ensures exists i: nat :: CleaningSince(run, i, m, t)
  {
    assert StepAt(run, m - 1);
    InvAlways(run, m - 1);
    CleaningStep(run.states[m - 1], run.labels[m - 1], t);
    if PcOf(run.states[m - 1], t).Cleaning? {
      CleaningBegan(run, m - 1, t);
      var i: nat :| CleaningSince(run, i, m - 1, t);
      assert CleaningSince(run, i, m, t);
    } else {
      assert CleaningSince(run, m - 1, m, t);
    }
  }

  lemma LeftAtFirst(run: Run, i: nat, m: nat, t: Tid, x: Handle)
    requires CleaningSince(run, i, m, t) && Registered(run.states[i], x) && x !in PcOf(run.states[m], t).left
    requires run.labels[m - 1] != CleanVisit(t, x)
    ensures i < m - 1 && CleaningSince(run, i, m - 1, t) && x !in PcOf(run.states[m - 1], t).left
  {
    var k :| k in run.states[i].registry.connMap && run.states[i].registry.connMap[k] == x;
    assert x in run.states[i].registry.connMap.Values;
    assert StepAt(run, m - 1);
    InvAlways(run, m - 1);
    CleaningStep(run.states[m - 1], run.labels[m - 1], t);
    LeftStep(run.states[m - 1], run.labels[m - 1], t, x);
    assert i < m - 1;
    assert PcOf(run.states[m - 1], t).Cleaning?;
  }

  lemma {:induction false} WasVisited(run: Run, i: nat, m: nat, t: Tid, x: Handle) returns (v: nat)
    requires CleaningSince(run, i, m, t) && Registered(run.states[i], x) && x !in PcOf(run.states[m], t).left
    ensures i < v < m && run.labels[v] == CleanVisit(t, x)
  {
    if run.labels[m - 1] == CleanVisit(t, x) {
      v := m - 1;
    } else {
      LeftAtFirst(run, i, m, t, x);
      v := WasVisited(run, i, m - 1, t, x);
    }
  }

  /** A conn an existing Connection comes to store was dialled for it. */
  lemma {:induction false} WasDialled(run: Run, i: nat, n: nat, x: Handle, c: ConnId) returns (d: nat)
    requires ValidRun(run) && i <= n < |run.states| && x in run.states[i].slots
    requires (x, c) !in run.states[i].owned && Stores(run.states[n], x, c)
    ensures i <= d < n && DialsFor(run.states[d], run.labels[d], x, c)
  {
    InvAlways(run, n);
    if i == n {
      assert false;
    }
    StaysKnown(run, i, n - 1, x);
    assert StepAt(run, n - 1);
    d := n - 1;
    if Stores(run.states[n - 1], x, c) {
      d := WasDialled(run, i, n - 1, x, c);
    }
  }

  lemma {:induction false} StaysKnown(run: Run, i: nat, n: nat, x: Handle)
    requires ValidRun(run) && i <= n < |run.states| && x in run.states[i].slots
    ensures x in run.states[n].slots
  {
    if i < n {
      StaysKnown(run, i, n - 1, x);
      assert StepAt(run, n - 1);
    }
  }

  /**
   A conn is stored in a Connection out of reach only because another Connection
   took its key, or because the conn was dialled after a cleanup had visited it.
   */
  lemma StrandedOrigin(run: Run, n: nat, x: Handle, c: ConnId)
    requires ValidRun(run) && n < |run.states| && Stores(run.states[n], x, c) && !InReach(run.states[n], x)
    ensures || (exists m: nat :: m < n && Overwrites(run.states[m], run.labels[m], x))
            || (exists v: nat, d: nat :: v < d < n && run.labels[v].CleanVisit? && run.labels[v].h == x
                                         && DialsFor(run.states[d], run.labels[d], x, c))
  {
    var m := EntryWasLost(run, n, x);
    assert StepAt(run, m);
    EntryLost(run.states[m], run.labels[m], x);
    if !Overwrites(run.states[m], run.labels[m], x) {
      var t := run.labels[m].t;
      CleaningBegan(run, m, t);
      var i: nat :| CleaningSince(run, i, m, t);
      var v := WasVisited(run, i, m, t, x);
      assert StepAt(run, v);
      if (x, c) in run.states[v + 1].owned {
        RemovedForGood(run, v + 1, n, x, c);
      }
      var d := WasDialled(run, v + 1, n, x, c);
      assert run.labels[v].CleanVisit? && run.labels[v].h == x;
    }
  }

  // Exactly which steps strand a conn

  /** The conn is stored where nothing can use, replace or close it any more. */
  predicate Stranded(s: State, x: Handle, c: ConnId)
  {
    Stores(s, x, c) && !InReach(s, x)
  }

  /** `x` has an entry that registering a Connection under `k` leaves in place. */
  predicate RegisteredBeside(s: State, x: Handle, k: Key)
  {
    exists k' <- s.registry.connMap :: k' != k && s.registry.connMap[k'] == x
  }

  lemma BesideIsRegistered(s: State, k: Key, c: ConnId, m: Metadata, h: Handle, x: Handle)
    requires Enabled(s, AddExisting(k, c, Some(m), h)) && x != h
    ensures Registered(Apply(s, AddExisting(k, c, Some(m), h)), x) <==> RegisteredBeside(s, x, k)
  {
    var s' := Apply(s, AddExisting(k, c, Some(m), h));
    if RegisteredBeside(s, x, k) {
      var k' :| k' in s.registry.connMap && k' != k && s.registry.connMap[k'] == x;
      assert s'.registry.connMap[k'] == x;
    }
    if Registered(s', x) {
      var k' :| k' in s'.registry.connMap && s'.registry.connMap[k'] == x;
      assert k' != k && s.registry.connMap[k'] == x;
    }
  }

  /** A thread other than `t` can use `x` or will clean it up. */
  predicate HeldByOther(s: State, x: Handle, t: Tid)
  {
    exists u <- s.threads :: u != t && (Holds(s.threads[u], x) || WillVisit(s.threads[u], x))
  }

  /**
   The step strands `c` in `x`: it overwrites the last key of a Connection nobody
   holds, releases the last reference to an unregistered one, drops the map under
   one nobody holds, or is the late first dial of one already out of reach.
   */
  predicate Strands(s: State, l: Label, x: Handle, c: ConnId)
  {
    match l
    case AddExisting(k, _, meta, _) =>
      Stores(s, x, c) && InReach(s, x) && meta.Some? && !RegisteredBeside(s, x, k) && !HeldBySome(s, x)
    case Release(t) =>
      Stores(s, x, c) && PcOf(s, t) == Holding(x) && !Registered(s, x) && !HeldByOther(s, x, t)
    case CleanEnd(_) =>
      Stores(s, x, c) && InReach(s, x) && !HeldBySome(s, x)
    case GetConn(t, d) =>
      && PcOf(s, t) == Dialing(x) && d.Dialed? && d.c == c
      && x in s.slots && s.slots[x].conn.None? && !InReach(s, x)
    case _ => false
  }

  lemma AddStrandsIff(s: State, l: Label, x: Handle, c: ConnId)
    requires Enabled(s, l) && l.AddExisting? && !Stranded(s, x, c)
    ensures Stranded(Apply(s, l), x, c) <==> Strands(s, l, x, c)
  {
    var s' := Apply(s, l);
    if l.meta.Some? {
      if x == l.h {
        assert s'.registry.connMap[l.k] == x;
      } else {
        BesideIsRegistered(s, l.k, l.c, l.meta.value, l.h, x);
        assert HeldBySome(s', x) <==> HeldBySome(s, x);
      }
    }
  }

  /** A thread that goes idle leaves the holding to the others. */
  lemma IdlesHolds(s: State, s': State, t: Tid, x: Handle)
    requires t in s.threads && s'.threads == s.threads[t := Idle]
    ensures HeldBySome(s', x) <==> HeldByOther(s, x, t)
    ensures HeldBySome(s, x) <==> HeldByOther(s, x, t) || Holds(s.threads[t], x) || WillVisit(s.threads[t], x)
  {
    if HeldByOther(s, x, t) {
      var u :| u in s.threads && u != t && (Holds(s.threads[u], x) || WillVisit(s.threads[u], x));
      assert u in s'.threads && (Holds(s'.threads[u], x) || WillVisit(s'.threads[u], x));
    }
    if HeldBySome(s', x) {
      var u :| u in s'.threads && (Holds(s'.threads[u], x) || WillVisit(s'.threads[u], x));
      assert u in s.threads && u != t && (Holds(s.threads[u], x) || WillVisit(s.threads[u], x));
    }
  }

  lemma ReleaseStrandsIff(s: State, l: Label, x: Handle, c: ConnId)
    requires Enabled(s, l) && l.Release? && !Stranded(s, x, c)
    ensures Stranded(Apply(s, l), x, c) <==> Strands(s, l, x, c)
  {
    IdlesHolds(s, Apply(s, l), l.t, x);
  }

  lemma EndStrandsIff(s: State, l: Label, x: Handle, c: ConnId)
    requires Enabled(s, l) && l.CleanEnd? && !Stranded(s, x, c)
    ensures Stranded(Apply(s, l), x, c) <==> Strands(s, l, x, c)
  {
    IdlesHolds(s, Apply(s, l), l.t, x);
  }

  lemma DialStrandsIff(s: State, l: Label, x: Handle, c: ConnId)
    requires Enabled(s, l) && l.GetConn? && !Stranded(s, x, c)
    ensures Stranded(Apply(s, l), x, c) <==> Strands(s, l, x, c)
  {
    var s' := Apply(s, l);
    assert Registered(s', x) <==> Registered(s, x);
    HeldThroughDial(s, l, x);
  }

  lemma HeldThroughDial(s: State, l: Label, x: Handle)
    requires Enabled(s, l) && l.GetConn?
    ensures HeldBySome(Apply(s, l), x) <==> HeldBySome(s, x)
  {
    var s' := Apply(s, l);
    forall t | t in s.threads
      ensures t in s'.threads
      ensures Holds(s'.threads[t], x) <==> Holds(s.threads[t], x)
      ensures WillVisit(s'.threads[t], x) <==> WillVisit(s.threads[t], x)
    {
    }
    assert s'.threads.Keys == s.threads.Keys;
  }

  /** Every other step leaves a Connection that stores a conn within reach. */
  lemma OthersStrandNothing(s: State, l: Label, x: Handle, c: ConnId)
    requires Enabled(s, l) && !l.AddExisting? && !l.Release? && !l.CleanEnd? && !l.GetConn? && !Stranded(s, x, c)
    ensures !Stranded(Apply(s, l), x, c)
  {
    var s' := Apply(s, l);
    if Stores(s', x, c) {
      assert Stores(s, x, c);
      if Registered(s, x) {
        StaysRegistered(s, l, x);
      } else {
        var t :| t in s.threads && (Holds(s.threads[t], x) || WillVisit(s.threads[t], x));
        assert t in s'.threads && (Holds(s'.threads[t], x) || WillVisit(s'.threads[t], x));
      }
    }
  }

  lemma StaysRegistered(s: State, l: Label, x: Handle)
    requires Enabled(s, l) && !l.AddExisting? && !l.CleanEnd? && Registered(s, x)
    ensures Registered(Apply(s, l), x)
  {
    if !Registered(Apply(s, l), x) {
      EntryLost(s, l, x);
    }
  }

  lemma StrandsIff(s: State, l: Label, x: Handle, c: ConnId)
    requires Enabled(s, l) && !Stranded(s, x, c)
    ensures Stranded(Apply(s, l), x, c) <==> Strands(s, l, x, c)
  {
    match l {
      case AddExisting(_, _, _, _) => AddStrandsIff(s, l, x, c);
      case Release(_) => ReleaseStrandsIff(s, l, x, c);
      case CleanEnd(_) => EndStrandsIff(s, l, x, c);
      case GetConn(_, _) => DialStrandsIff(s, l, x, c);
      case _ => OthersStrandNothing(s, l, x, c);
    }
  }

  /** Over every run: a conn is stranded exactly when some step before met one of the four conditions. */
  lemma {:induction false} StrandedIff(run: Run, n: nat, x: Handle, c: ConnId)
    requires ValidRun(run) && n < |run.states|
    ensures Stranded(run.states[n], x, c) <==>
            exists m: nat :: m < n && Strands(run.states[m], run.labels[m], x, c)
  {
    if n > 0 {
      StrandedIff(run, n - 1, x, c);
      assert StepAt(run, n - 1);
      var s, l := run.states[n - 1], run.labels[n - 1];
      if Stranded(s, x, c) {
        StrandedForGood(run, n - 1, n, x, c);
        var m: nat :| m < n - 1 && Strands(run.states[m], run.labels[m], x, c);
        assert m < n && Strands(run.states[m], run.labels[m], x, c);
      } else {
        StrandsIff(s, l, x, c);
      }
    }
  }

  // Runs that strand a conn

  ghost predicate EndsStranded(run: Run, x: Handle, c: ConnId)
  {
    ValidRun(run) && Stranded(Last(run), x, c)
  }

  /** Another handover under the key of an unused Connection. */
  lemma OverwriteStrands(k: Key, c: ConnId, c': ConnId, m: Metadata) returns (run: Run)
    ensures ValidRun(run) && run.labels == [AddExisting(k, c, Some(m), 0), AddExisting(k, c', Some(m), 1)]
    ensures Stranded(Last(run), 0, c)
  {
    run := Extend(Run([Init()], []), AddExisting(k, c, Some(m), 0));
    run := Extend(run, AddExisting(k, c', Some(m), 1));
  }

  /** Caller 0 creates Connection 0, whose first dial thread 1 is to do. */
  lemma FirstCall(k: Key) returns (run: Run)
    ensures ValidRun(run)
    ensures Last(run) == Init().(registry := Registry(map[k := 0], false), slots := map[0 := EMPTY],
                                 origins := map[0 := Created], threads := map[0 := Holding(0), 1 := Dialing(0)])
  {
    run := Extend(Run([Init()], []), LookupMiss(0, k));
    run := Extend(run, LockedCreate(0, 0, 1));
  }

  /** Caller 0 creates Connection 0; cleaner 2 visits it and drops the map. */
  lemma CleanedUp(k: Key) returns (run: Run)
    ensures ValidRun(run) && PcOf(Last(run), 0) == Holding(0) && PcOf(Last(run), 1) == Dialing(0)
    ensures Last(run).threads.Keys == {0, 1, 2} && PcOf(Last(run), 2) == Idle
    ensures Last(run).registry.connMap == map[] && Last(run).slots == map[0 := EMPTY] && Last(run).conns == {}
  {
    run := FirstCall(k);
    assert k in Last(run).registry.connMap;
    run := Extend(run, CleanBegin(2, Plain));
    run := Extend(run, CleanVisit(2, 0));
    run := Extend(run, CleanEnd(2));
  }

  /** A sender that held on to its Connection over a cleanup dials, sends and lets go of it. */
  lemma DialAfterCleanupStrands(k: Key, c: ConnId, m: Metadata)
    ensures exists run :: EndsStranded(run, 0, c) && |run.labels| > 3
                          && run.labels[|run.labels| - 3..] == [GetConn(0, Dialed(c, m)), WriteDone(0, true), Release(0)]
  {
    var run := SendAfterCleanup(k, c, m);
    assert EndsStranded(run, 0, c);
  }

  lemma SendAfterCleanup(k: Key, c: ConnId, m: Metadata) returns (run: Run)
    ensures ValidRun(run) && |run.labels| > 3
    ensures run.labels[|run.labels| - 3..] == [GetConn(0, Dialed(c, m)), WriteDone(0, true), Release(0)]
    ensures Last(run).registry.connMap == map[] && Stores(Last(run), 0, c)
    ensures forall t <- Last(run).threads :: Last(run).threads[t].Idle? || Last(run).threads[t].Dialing?
  {
    run := CleanedUp(k);
    var l1, l2, l3 := GetConn(0, Dialed(c, m)), WriteDone(0, true), Release(0);
    var before := run.labels;
    assert before != [] by {
      assert run.states[0] == Init();
    }
    run := Extend(run, l1);
    run := Extend(run, l2);
    run := Extend(run, l3);
    assert run.labels == before + [l1, l2, l3];
  }

  /** The first dial comes after the caller has let go and a cleanup has dropped the Connection. */
  lemma LateFirstDialStrands(k: Key, c: ConnId, m: Metadata)
    ensures exists run :: EndsStranded(run, 0, c) && |run.labels| > 0 && run.labels[|run.labels| - 1] == GetConn(1, Dialed(c, m))
  {
    var run := CleanedUp(k);
    run := Extend(run, Release(0));
    run := Extend(run, GetConn(1, Dialed(c, m)));
    assert EndsStranded(run, 0, c);
  }
}
