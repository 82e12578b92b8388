/**
 Every interleaving of the connection manager, its Connections and their senders.

 A step is one critical section, or one action between two of them. The
 manager's write lock is explicit because the cleanup loop holds it over many
 steps, while senders that already hold a Connection keep running.
 */
module ConnectionMachine {
  import opened Prelude
  import opened Connections
  import opened ConnectionRegistry

  type Handle = nat
  type Tid = nat

  /** Who put a Connection in the map; `epoch` counts the DisableFor calls completed before. */
  datatype Origin = Created | Added(epoch: nat)

  datatype Mode = Plain | Disabling(period: int)

  /** Where a thread stands between two steps. */
  datatype Pc =
    | Idle
    | Missed(key: Key)                          // GetConnection, after RUnlock and before Lock
    | Dialing(h: Handle)                        // the goroutine of newConnection, before its one getDiamConnection
    | Holding(h: Handle)                        // owns a Connection, may call getDiamConnection
    | Writing(h: Handle, c: ConnId)             // in WriteTo
    | Failed(h: Handle, c: ConnId)              // the write failed, before destroyConnection locks
    | Closing(h: Handle, c: ConnId)             // destroyConnection unlocked, before Close()
    | Cleaning(left: set<Handle>, next: Option<(Handle, ConnId)>, mode: Mode)  // holds the write lock

  datatype State = State(
    registry: Registry<Handle>,
    slots: map<Handle, Slot>,
    writer: Option<Tid>,
    threads: map<Tid, Pc>,
    conns: set<ConnId>,            // every diam.Conn opened so far
    owned: set<(Handle, ConnId)>,   // history: conn was stored in, or dialled for, this Connection
    closes: set<(Handle, ConnId)>,  // history: Close() was called on the conn through this Connection
    origins: map<Handle, Origin>,   // history
    now: int,
    timers: map<nat, int>,          // pending AfterFunc timers, by the DisableFor that set them
    epoch: nat,                     // DisableFor calls completed
    deadline: int                   // of the last completed DisableFor
  )

  datatype Label =
    | LookupHit(t: Tid, k: Key)
    | LookupMiss(t: Tid, k: Key)
    | LockedRefuse(t: Tid)
    | LockedHit(t: Tid)
    | LockedCreate(t: Tid, h: Handle, dialer: Tid)
    | AddExisting(k: Key, c: ConnId, meta: Option<Metadata>, h: Handle)
    | Release(t: Tid)
    | GetConn(t: Tid, d: Dial)
    | WriteDone(t: Tid, ok: bool)
    | DestroyLock(t: Tid)
    | Close(t: Tid)
    | CleanBegin(t: Tid, mode: Mode)
    | CleanVisit(t: Tid, h: Handle)
    | CleanClose(t: Tid)
    | CleanEnd(t: Tid)
    | Enable
    | Fire(id: nat)
    | Tick

  function Init(): State
  {
    State(Registry(map[], false), map[], None, map[], {}, {}, {}, map[], 0, map[], 0, 0)
  }

  function PcOf(s: State, t: Tid): Pc
  {
    if t in s.threads then s.threads[t] else Idle
  }

  function SetPc(s: State, t: Tid, pc: Pc): State
  {
    s.(threads := s.threads[t := pc])
  }

  predicate FreshDial(s: State, d: Dial)
  {
    d.DialFailed? || d.c !in s.conns
  }

  predicate Enabled(s: State, l: Label)
  {
    match l
    case LookupHit(t, k) =>
      PcOf(s, t).Idle? && s.writer.None? && ReadLocked(s.registry, k).Some?
    case LookupMiss(t, k) =>
      PcOf(s, t).Idle? && s.writer.None? && ReadLocked(s.registry, k).None?
    case LockedRefuse(t) =>
      PcOf(s, t).Missed? && s.writer.None? && WriteLocked(s.registry, PcOf(s, t).key).Refused?
    case LockedHit(t) =>
      PcOf(s, t).Missed? && s.writer.None? && WriteLocked(s.registry, PcOf(s, t).key).Found?
    case LockedCreate(t, h, dialer) =>
      && PcOf(s, t).Missed? && s.writer.None? && WriteLocked(s.registry, PcOf(s, t).key).Absent?
      && h !in s.slots && dialer != t && PcOf(s, dialer).Idle?
    case AddExisting(k, c, meta, h) =>
      s.writer.None? && h !in s.slots
    case Release(t) =>
      PcOf(s, t).Holding?
    case GetConn(t, d) =>
      && (PcOf(s, t).Holding? || PcOf(s, t).Dialing?) && PcOf(s, t).h in s.slots
      && (s.slots[PcOf(s, t).h].conn.None? ==> FreshDial(s, d))
    case WriteDone(t, ok) =>
      PcOf(s, t).Writing?
    case DestroyLock(t) =>
      PcOf(s, t).Failed? && PcOf(s, t).h in s.slots
    case Close(t) =>
      PcOf(s, t).Closing?
    case CleanBegin(t, mode) =>
      PcOf(s, t).Idle? && s.writer.None?
    case CleanVisit(t, h) =>
      PcOf(s, t).Cleaning? && PcOf(s, t).next.None? && h in PcOf(s, t).left && h in s.slots
    case CleanClose(t) =>
      PcOf(s, t).Cleaning? && PcOf(s, t).next.Some?
    case CleanEnd(t) =>
      PcOf(s, t).Cleaning? && PcOf(s, t).next.None? && PcOf(s, t).left == {}
    case Enable =>
      s.writer.None?
    case Fire(id) =>
      s.writer.None? && id in s.timers && s.timers[id] <= s.now
    case Tick =>
      true
  }

  function Apply(s: State, l: Label): State
    requires Enabled(s, l)
  {
    match l
    case LookupHit(t, k) => SetPc(s, t, Holding(ReadLocked(s.registry, k).value))
    case LookupMiss(t, k) => SetPc(s, t, Missed(k))
    case LockedRefuse(t) => SetPc(s, t, Idle)
    case LockedHit(t) => SetPc(s, t, Holding(WriteLocked(s.registry, PcOf(s, t).key).h))
    case LockedCreate(t, h, dialer) =>
      s.(registry := Store(s.registry, PcOf(s, t).key, h),
         slots := s.slots[h := EMPTY],
         origins := s.origins[h := Created],
         threads := s.threads[t := Holding(h)][dialer := Dialing(h)])
    case AddExisting(k, c, meta, h) =>
      if meta.None? then s
      else s.(registry := Store(s.registry, k, h),
              slots := s.slots[h := Slot(Some(c), meta)],
              origins := s.origins[h := Added(s.epoch)],
              conns := s.conns + {c},
              owned := s.owned + {(h, c)})
    case Release(t) => SetPc(s, t, Idle)
    case GetConn(t, d) =>
      var h := PcOf(s, t).h;
      var a := Acquire(s.slots[h], d);
      var dialled := s.slots[h].conn.None? && !d.DialFailed?;
      s.(slots := s.slots[h := a.slot],
         threads := s.threads[t := if PcOf(s, t).Dialing? then Idle
                                   else if a.got.Ok? then Writing(h, a.got.value.0) else Holding(h)],
         conns := s.conns + (if dialled then {d.c} else {}),
         owned := s.owned + (if dialled then {(h, d.c)} else {}),
         closes := s.closes + (if a.closed.Some? then {(h, a.closed.value)} else {}))
    case WriteDone(t, ok) =>
      var pc := PcOf(s, t);
      SetPc(s, t, if ok then Holding(pc.h) else Failed(pc.h, pc.c))
    case DestroyLock(t) =>
      var pc := PcOf(s, t);
      s.(slots := s.slots[pc.h := Discard(s.slots[pc.h], pc.c)],
         threads := s.threads[t := Closing(pc.h, pc.c)])
    case Close(t) =>
      var pc := PcOf(s, t);
      s.(closes := s.closes + {(pc.h, pc.c)}, threads := s.threads[t := Holding(pc.h)])
    case CleanBegin(t, mode) =>
      s.(registry := s.registry.(disabled := s.registry.disabled || mode.Disabling?),
         writer := Some(t),
         threads := s.threads[t := Cleaning(s.registry.connMap.Values, None, mode)])
    case CleanVisit(t, h) =>
      var pc := PcOf(s, t);
      var c := s.slots[h].conn;
      s.(slots := s.slots[h := EMPTY],
         threads := s.threads[t := Cleaning(pc.left - {h}, if c.Some? then Some((h, c.value)) else None, pc.mode)])
    case CleanClose(t) =>
      var pc := PcOf(s, t);
      s.(closes := s.closes + {pc.next.value}, threads := s.threads[t := pc.(next := None)])
    case CleanEnd(t) =>
      var s' := s.(registry := s.registry.(connMap := map[]), writer := None, threads := s.threads[t := Idle]);
      var mode := PcOf(s, t).mode;
      if mode.Plain? then s'
      else s'.(timers := s.timers[s.epoch := Due(s.now, mode.period)],
               epoch := s.epoch + 1,
               deadline := Due(s.now, mode.period))
    case Enable => s.(registry := s.registry.(disabled := false))
    case Fire(id) => s.(registry := s.registry.(disabled := false), timers := s.timers - {id})
    case Tick => s.(now := s.now + 1)
  }

  /** The step is one of thread `t`. */
  predicate Acts(l: Label, t: Tid)
  {
    match l
    case AddExisting(_, _, _, _) => false
    case LockedCreate(u, _, dialer) => t == u || t == dialer
    case Enable => false
    case Fire(_) => false
    case Tick => false
    case _ => l.t == t
  }

  lemma OnlyOwnStepsMove(s: State, l: Label, t: Tid)
    requires Enabled(s, l) && !Acts(l, t)
    ensures PcOf(Apply(s, l), t) == PcOf(s, t)
  {
  }

  /** `labels[i]` leads from `states[i]` to `states[i + 1]`. */
  datatype Run = Run(states: seq<State>, labels: seq<Label>)

  ghost predicate StepAt(run: Run, i: nat)
    requires |run.states| == |run.labels| + 1 && i < |run.labels|
  {
    Enabled(run.states[i], run.labels[i]) && run.states[i + 1] == Apply(run.states[i], run.labels[i])
  }

  ghost predicate ValidRun(run: Run)
  {
    && |run.states| == |run.labels| + 1
    && run.states[0] == Init()
    && forall i: nat :: i < |run.labels| ==> StepAt(run, i)
  }
}
