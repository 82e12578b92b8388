/** The request tracker and the client calls that use it. */
module RequestTracking {
  import opened Prelude

  /** A Go channel: its identity and the buffer size it was made with. */
  datatype Channel = Channel(id: nat, capacity: nat)

  /** Request keys are opaque to the tracker. */
  type Key = string

  function Register<V>(m: map<Key, V>, k: Key, v: V): map<Key, V>
  {
    m[k := v]
  }

  function Deregister<V>(m: map<Key, V>, k: Key): (map<Key, V>, Option<V>)
  {
    if k in m then (m - {k}, Some(m[k])) else (m, None)
  }

  class RequestTracker {
    var requestMap: map<Key, Channel>

    constructor ()
      ensures requestMap == map[]
    {
      requestMap := map[];
    }

    method RegisterRequest(k: Key, ch: Channel) returns (r: Channel)
      modifies this
      ensures r == ch && requestMap == Register(old(requestMap), k, ch)
    {
      requestMap := requestMap[k := ch];
      return ch;
    }

    /** None is Go's nil channel. */
    method DeregisterRequest(k: Key) returns (r: Option<Channel>)
      modifies this
      ensures (requestMap, r) == Deregister(old(requestMap), k)
      ensures k !in requestMap
    {
      if k !in requestMap {
        return None;
      }
      r := Some(requestMap[k]);
      requestMap := requestMap - {k};
    }
  }

  class Client {
    const tracker: RequestTracker

    constructor ()
      ensures fresh(tracker) && tracker.requestMap == map[]
    {
      tracker := new RequestTracker();
    }

    /** `connected` and `sent` say how GetConnection and the send end. */
    method SendRequest(k: Key, done: Channel, connected: bool, sent: bool) returns (ok: bool)
      modifies tracker
      ensures ok == (connected && sent)
      ensures tracker.requestMap ==
              if connected && !sent then old(tracker.requestMap) - {k}
              else Register(old(tracker.requestMap), k, done)
    {
      var _ := tracker.RegisterRequest(k, done);
      ok := connected;
      if connected {
        ok := sent;
        if !sent {
          var _ := tracker.DeregisterRequest(k);
        }
      }
    }

    /** The channel the answer is sent on; None when the answer carries no key or an unknown one. */
    method HandleAnswer(key: Option<Key>) returns (ch: Option<Channel>)
      modifies tracker
      ensures key.None? ==> ch == None && tracker.requestMap == old(tracker.requestMap)
      ensures key.Some? ==> (tracker.requestMap, ch) == Deregister(old(tracker.requestMap), key.value)
    {
      if key.None? {
        return None;
      }
      ch := tracker.DeregisterRequest(key.value);
    }
  }
}

/** Every interleaving of senders, answer handlers and time-outs on one tracker. */
module RequestMachine {
  import opened Prelude
  import opened RequestTracking

  type Tid = nat

  /** The position of a registration in the history. */
  type RegId = nat

  datatype Fate =
    | Tracked
    | Overwritten(next: RegId)
    | Answered(handler: Tid)
    | Ignored(waiter: RegId)      // deregistered by the time-out of this registration
    | SendFailed(sender: RegId)   // deregistered by the failing SendRequest of this registration

  datatype Registration = Registration(key: Key, ch: Channel, fate: Fate)

  datatype Delivery = Delivery(reg: RegId, ch: Channel, answer: string)

  datatype Pc =
    | Idle
    | Sending(reg: RegId)                       // in SendRequest, registered
    | Delivering(reg: RegId, answer: string)    // the handler has its channel, before the send on it
    | Stuck                                     // sending on a nil channel

  datatype State = State(
    tracker: map<Key, RegId>,
    regs: seq<Registration>,
    threads: map<Tid, Pc>,
    deliveries: seq<Delivery>,
    balance: map<Channel, int>,   // values in the buffer, or minus the receivers waiting; absent is 0
    waiting: set<RegId>,          // SendRequest returned nil, and the application waits for the answer
    failed: set<RegId>,           // SendRequest returned an error
    reported: set<RegId>          // the application has sent that error on the request's channel
  )

  datatype Label =
    | Begin(t: Tid, k: Key, ch: Channel)
    | NoConnection(t: Tid)
    | Sent(t: Tid)
    | NotSent(t: Tid)
    | Ignore(r: RegId)       // the application times out: IgnoreAnswer with the key of its request
    | Finish(r: RegId)       // the application has its answer
    | Answer(t: Tid, k: Key, answer: string)
    | Deliver(t: Tid)
    | Receive(ch: Channel)   // a receiver takes a value or starts to wait
    | GiveUp(ch: Channel)    // a waiting receiver times out
    | Report(r: RegId)       // the application sends the error of its failed SendRequest itself

  function Init(): State
  {
    State(map[], [], map[], [], map[], {}, {}, {})
  }

  function PcOf(s: State, t: Tid): Pc
  {
    if t in s.threads then s.threads[t] else Idle
  }

  function Balance(s: State, ch: Channel): int
  {
    if ch in s.balance then s.balance[ch] else 0
  }

  /** A send on the channel has to wait: the buffer is full, or there is none and no receiver waits. */
  predicate Full(s: State, ch: Channel)
  {
    Balance(s, ch) >= ch.capacity
  }

  function Shift(s: State, ch: Channel, n: int): map<Channel, int>
  {
    s.balance[ch := Balance(s, ch) + n]
  }

  predicate Enabled(s: State, l: Label)
  {
    match l
    case Begin(t, _, _) => PcOf(s, t).Idle?
    case NoConnection(t) => PcOf(s, t).Sending?
    case Sent(t) => PcOf(s, t).Sending?
    case NotSent(t) => PcOf(s, t).Sending? && PcOf(s, t).reg < |s.regs|
    case Ignore(r) => r in s.waiting && r < |s.regs|
    case Finish(r) => r in s.waiting && r < |s.regs| && s.regs[r].fate.Answered?
    case Answer(t, _, _) => PcOf(s, t).Idle?
    case Deliver(t) => PcOf(s, t).Delivering? && PcOf(s, t).reg < |s.regs| && !Full(s, s.regs[PcOf(s, t).reg].ch)
    case Receive(_) => true
    case GiveUp(ch) => Balance(s, ch) < 0
    case Report(r) => r in s.failed && r !in s.reported && r < |s.regs| && !Full(s, s.regs[r].ch)
  }

  /** Records what became of registration `r`. */
  function Settle(s: State, r: Option<RegId>, fate: Fate): seq<Registration>
  {
    if r.Some? && r.value < |s.regs| then s.regs[r.value := s.regs[r.value].(fate := fate)] else s.regs
  }

  function Current(s: State, k: Key): Option<RegId>
  {
    if k in s.tracker then Some(s.tracker[k]) else None
  }

  function Apply(s: State, l: Label): State
    requires Enabled(s, l)
  {
    match l
    case Begin(t, k, ch) =>
      s.(tracker := Register(s.tracker, k, |s.regs|),
         regs := Settle(s, Current(s, k), Overwritten(|s.regs|)) + [Registration(k, ch, Tracked)],
         threads := s.threads[t := Sending(|s.regs|)])
    case NoConnection(t) => s.(threads := s.threads[t := Idle], failed := s.failed + {PcOf(s, t).reg})
    case Sent(t) => s.(threads := s.threads[t := Idle], waiting := s.waiting + {PcOf(s, t).reg})
    case NotSent(t) =>
      var r := PcOf(s, t).reg;
      var (tracker, gone) := Deregister(s.tracker, s.regs[r].key);
      s.(tracker := tracker, regs := Settle(s, gone, SendFailed(r)), threads := s.threads[t := Idle],
         failed := s.failed + {r})
    case Ignore(r) =>
      var (tracker, gone) := Deregister(s.tracker, s.regs[r].key);
      s.(tracker := tracker, regs := Settle(s, gone, Ignored(r)), waiting := s.waiting - {r})
    case Finish(r) => s.(waiting := s.waiting - {r})
    case Answer(t, k, answer) =>
      var (tracker, gone) := Deregister(s.tracker, k);
      s.(tracker := tracker, regs := Settle(s, gone, Answered(t)),
         threads := s.threads[t := if gone.Some? then Delivering(gone.value, answer) else Stuck])
    case Deliver(t) =>
      var pc := PcOf(s, t);
      var ch := s.regs[pc.reg].ch;
      s.(threads := s.threads[t := Idle],
         deliveries := s.deliveries + [Delivery(pc.reg, ch, pc.answer)],
         balance := Shift(s, ch, 1))
    case Receive(ch) => s.(balance := Shift(s, ch, -1))
    case GiveUp(ch) => s.(balance := Shift(s, ch, 1))
    case Report(r) => s.(balance := Shift(s, s.regs[r].ch, 1), reported := s.reported + {r})
  }

  datatype Run = Run(states: seq<State>, labels: seq<Label>)

  ghost predicate StepAt(run: Run, i: nat)
    requires |run.states| == |run.labels| + 1 && i < |run.labels|
  {
    Enabled(run.states[i], run.labels[i]) && run.states[i + 1] == Apply(run.states[i], run.labels[i])
  }

  ghost predicate ValidRun(run: Run)
  {
    && |run.states| == |run.labels| + 1
    && run.states[0] == Init()
    && forall i: nat :: i < |run.labels| ==> StepAt(run, i)
  }

  /** The tracker's entries are open registrations of their key. */
  predicate EntriesOpen(s: State)
  {
    forall k <- s.tracker :: s.tracker[k] < |s.regs| && s.regs[s.tracker[k]].key == k
                             && s.regs[s.tracker[k]].fate.Tracked?
  }

  /** Every open registration is in the tracker. */
  predicate OpenEntered(s: State)
  {
    forall r: RegId :: r < |s.regs| && s.regs[r].fate.Tracked? ==>
      s.regs[r].key in s.tracker && s.tracker[s.regs[r].key] == r
  }

  predicate TrackerExact(s: State)
  {
    EntriesOpen(s) && OpenEntered(s)
  }

  /** No later registration has this one's key. */
  predicate Latest(s: State, r: RegId)
    requires r < |s.regs|
  {
    forall x: RegId :: r < x < |s.regs| ==> s.regs[x].key != s.regs[r].key
  }

  predicate TrackedAreLatest(s: State)
  {
    forall r: RegId :: r < |s.regs| && s.regs[r].fate.Tracked? ==> Latest(s, r)
  }

  /** An overwritten registration was overwritten by the next one of its key. */
  predicate NextOfKey(s: State, r: RegId, b: RegId)
    requires r < |s.regs|
  {
    && r < b < |s.regs| && s.regs[b].key == s.regs[r].key
    && forall x: RegId :: r < x < b ==> s.regs[x].key != s.regs[r].key
  }

  predicate OverwrittenByNext(s: State)
  {
    forall r: RegId :: r < |s.regs| && s.regs[r].fate.Overwritten? ==> NextOfKey(s, r, s.regs[r].fate.next)
  }

  /** A handler about to send holds a registration its own answer consumed. */
  predicate Holder(s: State, t: Tid)
  {
    var pc := PcOf(s, t);
    && (pc.Sending? ==> pc.reg < |s.regs|)
    && (pc.Delivering? ==> pc.reg < |s.regs| && s.regs[pc.reg].fate == Answered(t))
  }

  predicate HoldersInv(s: State)
  {
    forall t <- s.threads :: Holder(s, t)
  }

  /** A delivery went to its registration's channel, and no handler still holds that registration. */
  predicate Delivered(s: State, d: Delivery)
  {
    && d.reg < |s.regs| && s.regs[d.reg].fate.Answered? && d.ch == s.regs[d.reg].ch
    && forall t <- s.threads :: s.threads[t].Delivering? ==> s.threads[t].reg != d.reg
  }

  predicate DeliveriesInv(s: State)
  {
    && (forall i :: 0 <= i < |s.deliveries| ==> Delivered(s, s.deliveries[i]))
    && (forall i, j :: 0 <= i < j < |s.deliveries| ==> s.deliveries[i].reg != s.deliveries[j].reg)
  }

  /** The application's bookkeeping is about existing registrations. */
  predicate IdsKnown(s: State)
  {
    && (forall r <- s.waiting :: r < |s.regs|)
    && (forall r <- s.failed :: r < |s.regs|)
    && (forall r <- s.reported :: r < |s.regs|)
  }

  ghost predicate Inv(s: State)
  {
    IdsKnown(s) && TrackerExact(s) && TrackedAreLatest(s) && OverwrittenByNext(s) && HoldersInv(s) && DeliveriesInv(s)
  }

  /** A step leaves settled registrations alone. */
  lemma SettledStep(s: State, l: Label, r: RegId)
    requires EntriesOpen(s) && Enabled(s, l) && r < |s.regs|
    ensures r < |Apply(s, l).regs|
    ensures Apply(s, l).regs[r].key == s.regs[r].key && Apply(s, l).regs[r].ch == s.regs[r].ch
    ensures !s.regs[r].fate.Tracked? ==> Apply(s, l).regs[r] == s.regs[r]
  {
  }

  lemma EntryStep(s: State, l: Label, k: Key)
    requires TrackerExact(s) && Enabled(s, l) && k in Apply(s, l).tracker
    ensures var s' := Apply(s, l);
            var r := s'.tracker[k];
            r < |s'.regs| && s'.regs[r].key == k && s'.regs[r].fate.Tracked?
  {
    if !l.Begin? || l.k != k {
      assert k in s.tracker && Apply(s, l).tracker[k] == s.tracker[k];
    }
  }

  lemma EntriesStep(s: State, l: Label)
    requires TrackerExact(s) && Enabled(s, l)
    ensures EntriesOpen(Apply(s, l))
  {
    forall k | k in Apply(s, l).tracker {
      EntryStep(s, l, k);
    }
  }

  /** What is open after a step was open before it, or is the new registration. */
  lemma OpenOrigin(s: State, l: Label, r: RegId)
    requires EntriesOpen(s) && Enabled(s, l) && r < |Apply(s, l).regs| && Apply(s, l).regs[r].fate.Tracked?
    ensures if r < |s.regs| then s.regs[r].fate.Tracked? && Apply(s, l).regs[r] == s.regs[r] else l.Begin? && r == |s.regs|
  {
  }

  lemma OpenStep(s: State, l: Label, r: RegId)
    requires TrackerExact(s) && Enabled(s, l) && r < |Apply(s, l).regs| && Apply(s, l).regs[r].fate.Tracked?
    ensures var s' := Apply(s, l); s'.regs[r].key in s'.tracker && s'.tracker[s'.regs[r].key] == r
  {
    OpenOrigin(s, l, r);
  }

  lemma EnteredStep(s: State, l: Label)
    requires TrackerExact(s) && Enabled(s, l)
    ensures OpenEntered(Apply(s, l))
  {
    forall r: RegId | r < |Apply(s, l).regs| && Apply(s, l).regs[r].fate.Tracked? {
      OpenStep(s, l, r);
    }
  }

  lemma LatestAt(s: State, l: Label, r: RegId)
    requires TrackerExact(s) && TrackedAreLatest(s) && Enabled(s, l)
    requires r < |Apply(s, l).regs| && Apply(s, l).regs[r].fate.Tracked?
    ensures Latest(Apply(s, l), r)
  {
    OpenOrigin(s, l, r);
    OpenStep(s, l, r);
    forall x: RegId | r < x < |Apply(s, l).regs|
      ensures Apply(s, l).regs[x].key != Apply(s, l).regs[r].key
    {
      if x < |s.regs| {
        SettledStep(s, l, x);
      }
    }
  }

  lemma LatestStep(s: State, l: Label)
    requires TrackerExact(s) && TrackedAreLatest(s) && Enabled(s, l)
    ensures TrackedAreLatest(Apply(s, l))
  {
    forall r: RegId | r < |Apply(s, l).regs| && Apply(s, l).regs[r].fate.Tracked? {
      LatestAt(s, l, r);
    }
  }

  /** A step keeps every registration's key. */
  lemma NextOfKeyStep(s: State, l: Label, r: RegId, b: RegId)
    requires EntriesOpen(s) && Enabled(s, l) && r < |s.regs| && NextOfKey(s, r, b)
    ensures r < |Apply(s, l).regs| && NextOfKey(Apply(s, l), r, b)
  {
    forall x: RegId | x < |s.regs| {
      SettledStep(s, l, x);
    }
  }

  lemma OverwrittenStep(s: State, l: Label)
    requires TrackerExact(s) && TrackedAreLatest(s) && OverwrittenByNext(s) && Enabled(s, l)
    ensures OverwrittenByNext(Apply(s, l))
  {
    var s' := Apply(s, l);
    forall r: RegId | r < |s'.regs| && s'.regs[r].fate.Overwritten?
      ensures NextOfKey(s', r, s'.regs[r].fate.next)
    {
      if r < |s.regs| && s.regs[r].fate.Overwritten? {
        SettledStep(s, l, r);
        NextOfKeyStep(s, l, r, s.regs[r].fate.next);
      }
    }
  }

  lemma HolderStep(s: State, l: Label, t: Tid)
    requires EntriesOpen(s) && Holder(s, t) && Enabled(s, l)
    ensures Holder(Apply(s, l), t)
  {
    var pc := PcOf(s, t);
    if pc.Sending? || pc.Delivering? {
      SettledStep(s, l, pc.reg);
    }
  }

  lemma HoldersStep(s: State, l: Label)
    requires EntriesOpen(s) && HoldersInv(s) && Enabled(s, l)
    ensures HoldersInv(Apply(s, l))
  {
    forall t | t in Apply(s, l).threads
      ensures Holder(Apply(s, l), t)
    {
      assert Holder(s, t);
      HolderStep(s, l, t);
    }
  }

  lemma DeliveredStep(s: State, l: Label, d: Delivery)
    requires EntriesOpen(s) && HoldersInv(s) && Delivered(s, d) && Enabled(s, l)
    ensures Delivered(Apply(s, l), d)
  {
    SettledStep(s, l, d.reg);
  }

  lemma DeliveriesStep(s: State, l: Label)
    requires EntriesOpen(s) && HoldersInv(s) && DeliveriesInv(s) && Enabled(s, l)
    ensures DeliveriesInv(Apply(s, l))
  {
    forall i | 0 <= i < |s.deliveries| {
      DeliveredStep(s, l, s.deliveries[i]);
    }
  }

  lemma IdsStep(s: State, l: Label)
    requires IdsKnown(s) && HoldersInv(s) && Enabled(s, l)
    ensures IdsKnown(Apply(s, l))
  {
    if l.NoConnection? || l.Sent? {
      assert Holder(s, l.t);
    }
  }

  lemma {:induction false} InvAlways(run: Run, i: nat)
    requires ValidRun(run) && i < |run.states|
    ensures Inv(run.states[i])
  {
    if i > 0 {
      InvAlways(run, i - 1);
      var s, l := run.states[i - 1], run.labels[i - 1];
      assert StepAt(run, i - 1);
      IdsStep(s, l);
      EntriesStep(s, l);
      EnteredStep(s, l);
      LatestStep(s, l);
      OverwrittenStep(s, l);
      HoldersStep(s, l);
      DeliveriesStep(s, l);
    }
  }

  /** Registrations are never forgotten, and a fate, once settled, is final: each is consumed at most once. */
  lemma {:induction false} FateIsFinal(run: Run, i: nat, j: nat, r: RegId)
    requires ValidRun(run) && i <= j < |run.states| && r < |run.states[i].regs|
    ensures r < |run.states[j].regs|
    ensures run.states[j].regs[r].key == run.states[i].regs[r].key
    ensures run.states[j].regs[r].ch == run.states[i].regs[r].ch
    ensures !run.states[i].regs[r].fate.Tracked? ==> run.states[j].regs[r] == run.states[i].regs[r]
  {
    if i < j {
      FateIsFinal(run, i, j - 1, r);
      InvAlways(run, j - 1);
      assert StepAt(run, j - 1);
      SettledStep(run.states[j - 1], run.labels[j - 1], r);
    }
  }

  /** An open registration is the one the tracker returns; an overwritten one lost to the next of its key. */
  lemma RegistrationsAccounted(run: Run, i: nat, r: RegId)
    requires ValidRun(run) && i < |run.states| && r < |run.states[i].regs|
    ensures var s := run.states[i];
            var reg := s.regs[r];
            && (reg.fate.Tracked? <==> Current(s, reg.key) == Some(r))
            && (reg.fate.Tracked? ==> Latest(s, r))
            && (reg.fate.Overwritten? ==> NextOfKey(s, r, reg.fate.next))
  {
    InvAlways(run, i);
  }

  /** At step `m` the handler took this answer's channel from the latest open registration of its key. */
  ghost predicate TakenAt(run: Run, m: nat, r: RegId, answer: string)
    requires ValidRun(run) && m < |run.labels|
  {
    var s := run.states[m];
    && run.labels[m].Answer? && run.labels[m].answer == answer
    && r < |s.regs| && s.regs[r].key == run.labels[m].k
    && s.regs[r].fate.Tracked? && Latest(s, r)
  }

  lemma NewlyHeld(s: State, l: Label, t: Tid)
    requires TrackerExact(s) && TrackedAreLatest(s) && Enabled(s, l)
    requires PcOf(Apply(s, l), t).Delivering? && PcOf(Apply(s, l), t) != PcOf(s, t)
    ensures var r := PcOf(Apply(s, l), t).reg;
            && l.Answer? && l.answer == PcOf(Apply(s, l), t).answer
            && r < |s.regs| && s.regs[r].key == l.k && s.regs[r].fate.Tracked? && Latest(s, r)
  {
  }

  lemma {:induction false} HeldWasTaken(run: Run, n: nat, t: Tid)
    requires ValidRun(run) && n < |run.states| && PcOf(run.states[n], t).Delivering?
    ensures exists m: nat :: m < n && TakenAt(run, m, PcOf(run.states[n], t).reg, PcOf(run.states[n], t).answer)
  {
    InvAlways(run, n - 1);
    assert StepAt(run, n - 1);
    var pc := PcOf(run.states[n], t);
    if PcOf(run.states[n - 1], t) == pc {
      HeldWasTaken(run, n - 1, t);
    } else {
      NewlyHeld(run.states[n - 1], run.labels[n - 1], t);
      assert TakenAt(run, n - 1, pc.reg, pc.answer);
    }
  }

  /**
   Each delivered answer came in for its registration's key while that
   registration was the latest of the key and still open, and it went to the
   channel given at that registration.
   */
  lemma {:induction false} AnswersReachTheirRequest(run: Run, n: nat, i: nat)
    requires ValidRun(run) && n < |run.states| && i < |run.states[n].deliveries|
    ensures var d := run.states[n].deliveries[i];
            && d.reg < |run.states[n].regs| && d.ch == run.states[n].regs[d.reg].ch
            && exists m: nat :: m < n && TakenAt(run, m, d.reg, d.answer)
  {
    InvAlways(run, n);
    assert StepAt(run, n - 1);
    if i < |run.states[n - 1].deliveries| {
      AnswersReachTheirRequest(run, n - 1, i);
    } else {
      HeldWasTaken(run, n - 1, run.labels[n - 1].t);
    }
  }

  /** At most one answer per registration. */
  lemma OneAnswerPerRegistration(run: Run, n: nat, i: nat, j: nat)
    requires ValidRun(run) && n < |run.states| && i < j < |run.states[n].deliveries|
    ensures run.states[n].deliveries[i].reg != run.states[n].deliveries[j].reg
  {
    InvAlways(run, n);
  }

  // Blocked handlers

  predicate ActsFor(l: Label, t: Tid)
  {
    match l
    case Receive(_) => false
    case GiveUp(_) => false
    case Report(_) => false
    case Ignore(_) => false
    case Finish(_) => false
    case _ => l.t == t
  }

  /** The thread has no step to take. */
  ghost predicate Blocked(s: State, t: Tid)
  {
    forall l :: Enabled(s, l) ==> !ActsFor(l, t)
  }

  /** Step `i` is the handler's lookup, and it has not sent its answer before state `j`. */
  ghost predicate Handling(run: Run, i: nat, j: nat)
  {
    && ValidRun(run) && i < j < |run.states| && run.labels[i].Answer?
    && forall m: nat :: i < m < j ==> run.labels[m] != Deliver(run.labels[i].t)
  }

  /** Until it has sent its answer a handler stays where its lookup put it. */
  lemma {:induction false} HandlerStays(run: Run, i: nat, j: nat)
    requires Handling(run, i, j)
    ensures var s, l := run.states[i], run.labels[i];
            PcOf(run.states[j], l.t) == if l.k in s.tracker then Delivering(s.tracker[l.k], l.answer) else Stuck
  {
    assert StepAt(run, j - 1);
    if i + 1 < j {
      HandlerStays(run, i, j - 1);
    }
  }

  /** The handler blocks exactly when its key was not tracked or its channel is full. */
  lemma HandlerBlocksIff(run: Run, i: nat, j: nat)
    requires Handling(run, i, j)
    ensures var s, l := run.states[i], run.labels[i];
            Blocked(run.states[j], l.t) <==> l.k !in Channels(s) || Full(run.states[j], Channels(s)[l.k])
  {
    var s, l, s' := run.states[i], run.labels[i], run.states[j];
    InvAlways(run, i);
    HandlerStays(run, i, j);
    if l.k in s.tracker {
      FateIsFinal(run, i, j, s.tracker[l.k]);
      assert Enabled(s', Deliver(l.t)) <==> !Full(s', Channels(s)[l.k]);
    }
    if Enabled(s', Deliver(l.t)) {
      assert ActsFor(Deliver(l.t), l.t);
    }
  }

  /** With an untracked key it blocks for ever, whatever happens. */
  lemma UnknownAnswerBlocks(run: Run, i: nat, j: nat)
    requires ValidRun(run) && i < j < |run.states| && run.labels[i].Answer? && run.labels[i].k !in run.states[i].tracker
    ensures PcOf(run.states[j], run.labels[i].t) == Stuck && Blocked(run.states[j], run.labels[i].t)
  {
    assert StepAt(run, i);
    StuckStays(run, i + 1, j, run.labels[i].t);
  }

  lemma {:induction false} StuckStays(run: Run, i: nat, j: nat, t: Tid)
    requires ValidRun(run) && i <= j < |run.states| && PcOf(run.states[i], t) == Stuck
    ensures PcOf(run.states[j], t) == Stuck
  {
    if i < j {
      StuckStays(run, i, j - 1, t);
      assert StepAt(run, j - 1);
    }
  }

  /** A full channel stays full until somebody receives from it. */
  lemma {:induction false} FullUntilReceived(run: Run, i: nat, j: nat, ch: Channel)
    requires ValidRun(run) && i <= j < |run.states| && Full(run.states[i], ch)
    requires forall m: nat :: i <= m < j ==> run.labels[m] != Receive(ch)
    ensures Full(run.states[j], ch)
  {
    if i < j {
      FullUntilReceived(run, i, j - 1, ch);
      assert StepAt(run, j - 1);
    }
  }

  /** A channel never holds more than its buffer takes. */
  lemma {:induction false} BufferBounded(run: Run, i: nat, ch: Channel)
    requires ValidRun(run) && i < |run.states|
    ensures Balance(run.states[i], ch) <= ch.capacity
  {
    if i > 0 {
      BufferBounded(run, i - 1, ch);
      assert StepAt(run, i - 1);
    }
  }

  function Last(run: Run): State
    requires |run.states| > 0
  {
    run.states[|run.states| - 1]
  }

  lemma Extend(run: Run, l: Label) returns (longer: Run)
    requires ValidRun(run) && Enabled(Last(run), l)
    ensures ValidRun(longer) && longer.labels == run.labels + [l] && longer.states == run.states + [Apply(Last(run), l)]
  {
    longer := Run(run.states + [Apply(Last(run), l)], run.labels + [l]);
    forall i: nat | i < |longer.labels|
      ensures StepAt(longer, i)
    {
      if i < |run.labels| {
        assert StepAt(run, i);
      }
    }
  }

  /** `longer` goes on from `run` and lets thread `t` send its answer. */
  ghost predicate Finishes(run: Run, longer: Run, t: Tid)
  {
    && ValidRun(longer) && run.states <= longer.states && run.labels <= longer.labels
    && exists m: nat :: |run.labels| <= m < |longer.labels| && longer.labels[m] == Deliver(t)
  }

  ghost predicate CanFinish(run: Run, t: Tid)
  {
    exists longer :: Finishes(run, longer, t)
  }

  /** A handler can still be freed exactly when its key was tracked: one receive is enough. */
  lemma HandlerCanFinishIff(run: Run, i: nat)
    requires Handling(run, i, |run.labels|)
    ensures CanFinish(run, run.labels[i].t) <==> run.labels[i].k in run.states[i].tracker
  {
    var l := run.labels[i];
    if l.k in run.states[i].tracker {
      Freed(run, i);
    } else {
      forall longer | Finishes(run, longer, l.t)
        ensures false
      {
        var m: nat :| |run.labels| <= m < |longer.labels| && longer.labels[m] == Deliver(l.t);
        assert longer.states[i] == run.states[i] && longer.labels[i] == l;
        assert StepAt(longer, m);
        UnknownAnswerBlocks(longer, i, m);
      }
    }
  }

  lemma Freed(run: Run, i: nat)
    requires Handling(run, i, |run.labels|) && run.labels[i].k in run.states[i].tracker
    ensures CanFinish(run, run.labels[i].t)
  {
    var l, r := run.labels[i], run.states[i].tracker[run.labels[i].k];
    InvAlways(run, i);
    FateIsFinal(run, i, |run.labels|, r);
    HandlerStays(run, i, |run.labels|);
    BufferBounded(run, |run.labels|, run.states[i].regs[r].ch);
    var longer := Extend(run, Receive(run.states[i].regs[r].ch));
    longer := Extend(longer, Deliver(l.t));
    assert longer.labels[|run.labels| + 1] == Deliver(l.t);
    assert Finishes(run, longer, l.t);
  }

  // Channels big enough for their requests

  /** The registrations that gave this channel. */
  function RegsOn(s: State, ch: Channel): set<RegId>
  {
    set r: RegId | r < |s.regs| && s.regs[r].ch == ch
  }

  /** Those that got an answer. */
  function AnsweredOn(s: State, ch: Channel): set<RegId>
  {
    set r: RegId | r < |s.regs| && s.regs[r].ch == ch && s.regs[r].fate.Answered?
  }

  /** Those whose error the application has sent on it. */
  function ReportedOn(s: State, ch: Channel): set<RegId>
  {
    set r: RegId | r in s.reported && r < |s.regs| && s.regs[r].ch == ch
  }

  lemma ReportedStep(s: State, l: Label, ch: Channel)
    requires Inv(s) && Enabled(s, l)
    ensures ReportedOn(Apply(s, l), ch) == ReportedOn(s, ch) + if l.Report? && s.regs[l.r].ch == ch then {l.r} else {}
  {
    forall r: RegId | r < |s.regs| {
      SettledStep(s, l, r);
    }
  }

  /** Those whose answer has been sent on it. */
  function DeliveredOn(ds: seq<Delivery>, ch: Channel): set<RegId>
  {
    if ds == [] then {}
    else
      var n := |ds| - 1;
      DeliveredOn(ds[..n], ch) + if ds[n].ch == ch then {ds[n].reg} else {}
  }

  lemma {:induction false} DeliveryOf(ds: seq<Delivery>, ch: Channel, r: RegId) returns (i: nat)
    requires r in DeliveredOn(ds, ch)
    ensures i < |ds| && ds[i].ch == ch && ds[i].reg == r
  {
    i := |ds| - 1;
    if ds[i].ch != ch || ds[i].reg != r {
      i := DeliveryOf(ds[..i], ch, r);
    }
  }

  lemma OneMoreDelivered(ds: seq<Delivery>, d: Delivery, ch: Channel)
    requires forall i :: 0 <= i < |ds| ==> ds[i].reg != d.reg
    ensures |DeliveredOn(ds + [d], ch)| == |DeliveredOn(ds, ch)| + if d.ch == ch then 1 else 0
  {
    assert (ds + [d])[..|ds|] == ds;
    if d.reg in DeliveredOn(ds, ch) {
      var i := DeliveryOf(ds, ch, d.reg);
    }
  }

  lemma NewDelivery(s: State, t: Tid)
    requires DeliveriesInv(s) && Enabled(s, Deliver(t))
    ensures forall i :: 0 <= i < |s.deliveries| ==> s.deliveries[i].reg != PcOf(s, t).reg
  {
    forall i | 0 <= i < |s.deliveries|
      ensures s.deliveries[i].reg != PcOf(s, t).reg
    {
      assert Delivered(s, s.deliveries[i]);
    }
  }

  /** The values sent on the channel so far. */
  function Sends(s: State, ch: Channel): nat
  {
    |DeliveredOn(s.deliveries, ch)| + |ReportedOn(s, ch)|
  }

  predicate SendsOn(s: State, l: Label, ch: Channel)
  {
    || (l.Deliver? && PcOf(s, l.t).Delivering? && PcOf(s, l.t).reg < |s.regs| && s.regs[PcOf(s, l.t).reg].ch == ch)
    || (l.Report? && l.r < |s.regs| && s.regs[l.r].ch == ch)
  }

  lemma SendsStep(s: State, l: Label, ch: Channel)
    requires Inv(s) && Enabled(s, l)
    ensures Sends(Apply(s, l), ch) == Sends(s, ch) + if SendsOn(s, l, ch) then 1 else 0
  {
    ReportedStep(s, l, ch);
    if l.Deliver? {
      NewDelivery(s, l.t);
      var r := PcOf(s, l.t).reg;
      OneMoreDelivered(s.deliveries, Delivery(r, s.regs[r].ch, PcOf(s, l.t).answer), ch);
    }
  }

  /** A send and a receiver's giving up bring the channel closer to full, a receive brings it back. */
  lemma BalanceStep(s: State, l: Label, ch: Channel)
    requires Enabled(s, l)
    ensures Balance(Apply(s, l), ch) ==
            Balance(s, ch) + (if SendsOn(s, l, ch) || l == GiveUp(ch) then 1 else if l == Receive(ch) then -1 else 0)
  {
  }

  function CountOf(labels: seq<Label>, l: Label): nat
  {
    if labels == [] then 0 else CountOf(labels[..|labels| - 1], l) + if labels[|labels| - 1] == l then 1 else 0
  }

  lemma CountNext(labels: seq<Label>, n: nat, l: Label)
    requires n < |labels|
    ensures CountOf(labels[..n + 1], l) == CountOf(labels[..n], l) + if labels[n] == l then 1 else 0
  {
    assert labels[..n + 1][..n] == labels[..n];
  }

  ghost predicate Conserved(run: Run, n: nat, ch: Channel)
    requires n < |run.states| && n <= |run.labels|
  {
    Balance(run.states[n], ch) ==
    Sends(run.states[n], ch) + CountOf(run.labels[..n], GiveUp(ch)) - CountOf(run.labels[..n], Receive(ch))
  }

  lemma ConservedStep(run: Run, i: nat, ch: Channel)
    requires ValidRun(run) && i < |run.labels| && Conserved(run, i, ch)
    ensures Conserved(run, i + 1, ch)
  {
    InvAlways(run, i);
    assert StepAt(run, i);
    SendsStep(run.states[i], run.labels[i], ch);
    BalanceStep(run.states[i], run.labels[i], ch);
    CountNext(run.labels, i, GiveUp(ch));
    CountNext(run.labels, i, Receive(ch));
  }

  /**
   Nothing is lost on a channel: what it holds is what was sent, answers and
   reports alike, less what was received by a receiver that did not give up.
   */
  lemma {:induction false} ChannelConserves(run: Run, n: nat, ch: Channel)
    requires ValidRun(run) && n < |run.states|
    ensures Conserved(run, n, ch)
  {
    if n > 0 {
      ChannelConserves(run, n - 1, ch);
      ConservedStep(run, n - 1, ch);
    }
  }

  /** No more values are in the buffer than were sent. */
  lemma {:induction false} BalanceBounded(run: Run, i: nat, ch: Channel)
    requires ValidRun(run) && i < |run.states|
    ensures Balance(run.states[i], ch) <= Sends(run.states[i], ch)
  {
    if i > 0 {
      BalanceBounded(run, i - 1, ch);
      InvAlways(run, i - 1);
      assert StepAt(run, i - 1);
      SendsStep(run.states[i - 1], run.labels[i - 1], ch);
      BalanceStep(run.states[i - 1], run.labels[i - 1], ch);
    }
  }

  lemma {:induction false} SmallerSubset(a: set<RegId>, b: set<RegId>)
    requires a <= b
    ensures |a| <= |b|
  {
    if a != {} {
      var x :| x in a;
      SmallerSubset(a - {x}, b - {x});
    }
  }

  /**
   A channel with room for one value per answered registration, and one per error
   the application sends itself, never blocks a handler whose key was tracked.
   */
  lemma SizedChannelNeverBlocks(run: Run, i: nat, j: nat)
    requires Handling(run, i, j) && run.labels[i].k in Channels(run.states[i])
    requires var ch := Channels(run.states[i])[run.labels[i].k];
             ch.capacity >= |AnsweredOn(run.states[j], ch)| + |ReportedOn(run.states[j], ch)|
    ensures Enabled(run.states[j], Deliver(run.labels[i].t))
  {
    InvAlways(run, i);
    HandlerStays(run, i, j);
    FateIsFinal(run, i, j, run.states[i].tracker[run.labels[i].k]);
    RoomForPending(run, j, run.labels[i].t);
  }

  lemma RoomForPending(run: Run, j: nat, t: Tid)
    requires ValidRun(run) && j < |run.states|
    requires var s := run.states[j];
             && PcOf(s, t).Delivering? && PcOf(s, t).reg < |s.regs|
             && var ch := s.regs[PcOf(s, t).reg].ch;
             ch.capacity >= |AnsweredOn(s, ch)| + |ReportedOn(s, ch)|
    ensures Enabled(run.states[j], Deliver(t))
  {
    var s := run.states[j];
    InvAlways(run, j);
    BalanceBounded(run, j, s.regs[PcOf(s, t).reg].ch);
    PendingIsExtra(s, t);
  }

  lemma PendingIsExtra(s: State, t: Tid)
    requires Inv(s) && PcOf(s, t).Delivering?
    ensures var r := PcOf(s, t).reg; r < |s.regs| && |DeliveredOn(s.deliveries, s.regs[r].ch)| < |AnsweredOn(s, s.regs[r].ch)|
  {
    var r := PcOf(s, t).reg;
    var ch := s.regs[r].ch;
    forall x | x in DeliveredOn(s.deliveries, ch)
      ensures x in AnsweredOn(s, ch) - {r}
    {
      var i := DeliveryOf(s.deliveries, ch, x);
      assert Delivered(s, s.deliveries[i]);
    }
    assert Holder(s, t);
    SmallerSubset(DeliveredOn(s.deliveries, ch), AnsweredOn(s, ch) - {r});
  }

  /**
   Room for one value per registration is enough as long as no registration gets
   both an answer and a report of its error.
   */
  lemma OneSlotPerRequestSuffices(run: Run, i: nat, j: nat)
    requires Handling(run, i, j) && run.labels[i].k in Channels(run.states[i])
    requires var ch := Channels(run.states[i])[run.labels[i].k];
             ch.capacity >= |RegsOn(run.states[j], ch)| && AnsweredOn(run.states[j], ch) !! ReportedOn(run.states[j], ch)
    ensures Enabled(run.states[j], Deliver(run.labels[i].t))
  {
    var ch := Channels(run.states[i])[run.labels[i].k];
    var answered, reported := AnsweredOn(run.states[j], ch), ReportedOn(run.states[j], ch);
    assert |answered + reported| == |answered| + |reported|;
    SmallerSubset(answered + reported, RegsOn(run.states[j], ch));
    SizedChannelNeverBlocks(run, i, j);
  }

  /** At step `m` the SendRequest of registration `r` returns an error. */
  predicate FailsAt(run: Run, m: nat, r: RegId)
    requires m < |run.labels| && m < |run.states|
  {
    (run.labels[m].NoConnection? || run.labels[m].NotSent?) && PcOf(run.states[m], run.labels[m].t) == Sending(r)
  }

  lemma {:induction false} FailedOnce(run: Run, n: nat, r: RegId) returns (m: nat)
    requires ValidRun(run) && n < |run.states| && r in run.states[n].failed
    ensures m < n && FailsAt(run, m, r)
  {
    assert StepAt(run, n - 1);
    m := n - 1;
    if r in run.states[n - 1].failed {
      m := FailedOnce(run, n - 1, r);
    }
  }

  /** A request counts as failed iff its SendRequest returned an error. */
  lemma {:induction false} FailedIff(run: Run, n: nat, r: RegId)
    requires ValidRun(run) && n < |run.states|
    ensures r in run.states[n].failed <==> exists m: nat :: m < n && FailsAt(run, m, r)
  {
    if n > 0 {
      FailedIff(run, n - 1, r);
      assert StepAt(run, n - 1);
      if r in run.states[n].failed {
        var m := FailedOnce(run, n, r);
      }
      if m: nat :| m < n && FailsAt(run, m, r) {
        if m < n - 1 {
          assert m < n - 1 && FailsAt(run, m, r);
        }
      }
    }
  }

  /** At step `m` its SendRequest returned nil, and up to state `n` it was neither ignored nor finished with. */
  ghost predicate WaitsSince(run: Run, m: nat, n: nat, r: RegId)
    requires |run.states| == |run.labels| + 1
  {
    && m < n < |run.states| && run.labels[m].Sent? && PcOf(run.states[m], run.labels[m].t) == Sending(r)
    && forall q: nat :: m < q < n ==> run.labels[q] != Ignore(r) && run.labels[q] != Finish(r)
  }

  /** A request is waited for iff its SendRequest returned nil and nothing has ended the wait since. */
  lemma {:induction false} WaitingIff(run: Run, n: nat, r: RegId)
    requires ValidRun(run) && n < |run.states|
    ensures r in run.states[n].waiting <==> exists m: nat :: WaitsSince(run, m, n, r)
  {
    if n > 0 {
      WaitingIff(run, n - 1, r);
      assert StepAt(run, n - 1);
      if r in run.states[n].waiting {
        if r in run.states[n - 1].waiting {
          var m: nat :| WaitsSince(run, m, n - 1, r);
          assert WaitsSince(run, m, n, r);
        } else {
          assert WaitsSince(run, n - 1, n, r);
        }
      }
      if m: nat :| WaitsSince(run, m, n, r) {
        if m < n - 1 {
          assert WaitsSince(run, m, n - 1, r);
          assert run.labels[n - 1] != Ignore(r) && run.labels[n - 1] != Finish(r);
        }
      }
    }
  }

  /** Thread `t` registered `r` at step `m` and has taken no step since. */
  ghost predicate BeganAt(run: Run, m: nat, n: nat, t: Tid, r: RegId)
    requires |run.states| == |run.labels| + 1
  {
    && m < n < |run.states| && run.labels[m].Begin? && run.labels[m].t == t && r == |run.states[m].regs|
    && forall q: nat :: m < q < n ==> !ActsFor(run.labels[q], t)
  }

  /** A thread that is sending is sending what it registered last. */
  lemma {:induction false} SenderBegan(run: Run, n: nat, t: Tid)
    requires ValidRun(run) && n < |run.states| && PcOf(run.states[n], t).Sending?
    ensures exists m: nat :: BeganAt(run, m, n, t, PcOf(run.states[n], t).reg)
  {
    assert StepAt(run, n - 1);
    var r := PcOf(run.states[n], t).reg;
    if ActsFor(run.labels[n - 1], t) {
      assert BeganAt(run, n - 1, n, t, r);
    } else {
      SenderBegan(run, n - 1, t);
      var m: nat :| BeganAt(run, m, n - 1, t, r);
      assert BeganAt(run, m, n, t, r);
    }
  }

  /** The step a handler takes to send delivers the answer it came with, to the request it looked up. */
  lemma AnswerIsDelivered(run: Run, i: nat, m: nat)
    requires Handling(run, i, m) && m < |run.labels| && run.labels[m] == Deliver(run.labels[i].t)
    ensures var s, l := run.states[i], run.labels[i];
            && l.k in s.tracker && s.tracker[l.k] < |s.regs|
            && run.states[m + 1].deliveries ==
               run.states[m].deliveries + [Delivery(s.tracker[l.k], s.regs[s.tracker[l.k]].ch, l.answer)]
  {
    InvAlways(run, i);
    HandlerStays(run, i, m);
    assert StepAt(run, m);
    FateIsFinal(run, i, m, run.states[i].tracker[run.labels[i].k]);
  }

  /** A failed request is answered only if it had no connection, or its answer was taken before the send failed. */
  lemma AnsweredThoughFailed(run: Run, n: nat, r: RegId)
    requires ValidRun(run) && n < |run.states| && r in run.states[n].failed
    requires r < |run.states[n].regs| && run.states[n].regs[r].fate.Answered?
    ensures exists m: nat :: m < n && FailsAt(run, m, r) && r < |run.states[m].regs|
                             && (run.labels[m].NoConnection? || run.states[m].regs[r].fate.Answered?)
  {
    var m := FailedOnce(run, n, r);
    InvAlways(run, m);
    assert StepAt(run, m);
    assert Holder(run.states[m], run.labels[m].t);
    FateIsFinal(run, m, n, r);
    FateIsFinal(run, m + 1, n, r);
  }

  /** One request from registration to lookup of its answer, by one thread. */
  lemma AskOnce(run: Run, k: Key, ch: Channel, answer: string) returns (longer: Run)
    requires ValidRun(run) && PcOf(Last(run), 0).Idle? && k !in Last(run).tracker
    ensures ValidRun(longer) && |longer.states| >= 2 && longer.labels != []
    ensures longer.labels[|longer.labels| - 1] == Answer(0, k, answer)
    ensures k in longer.states[|longer.labels| - 1].tracker
    ensures var s, s' := Last(run), Last(longer);
            && s'.regs == s.regs + [Registration(k, ch, Answered(0))] && k !in s'.tracker
            && PcOf(s', 0) == Delivering(|s.regs|, answer)
            && s'.balance == s.balance && s'.reported == s.reported
  {
    longer := Extend(run, Begin(0, k, ch));
    longer := Extend(longer, Sent(0));
    longer := Extend(longer, Answer(0, k, answer));
  }

  // Exactly how much room a channel needs

  /** The run ends with a handler blocked on `ch`, on which `a` registrations are answered and `r` reported. */
  ghost predicate BlocksWith(run: Run, t: Tid, ch: Channel, a: nat, r: nat)
  {
    && ValidRun(run)
    && var s := Last(run);
    && PcOf(s, t).Delivering? && PcOf(s, t).reg < |s.regs| && s.regs[PcOf(s, t).reg].ch == ch
    && |AnsweredOn(s, ch)| == a && |ReportedOn(s, ch)| == r && Blocked(s, t)
  }

  lemma OneMoreAnswered(s: State, s': State, k: Key, ch: Channel, t: Tid)
    requires IdsKnown(s) && s'.regs == s.regs + [Registration(k, ch, Answered(t))] && s'.reported == s.reported
    ensures |AnsweredOn(s', ch)| == |AnsweredOn(s, ch)| + 1 && |ReportedOn(s', ch)| == |ReportedOn(s, ch)|
  {
    assert AnsweredOn(s', ch) == AnsweredOn(s, ch) + {|s.regs|};
    assert ReportedOn(s', ch) == ReportedOn(s, ch);
  }

  lemma OneMoreReported(s: State, s': State, k: Key, ch: Channel)
    requires IdsKnown(s) && s'.regs == s.regs + [Registration(k, ch, SendFailed(|s.regs|))]
    requires s'.reported == s.reported + {|s.regs|}
    ensures |AnsweredOn(s', ch)| == |AnsweredOn(s, ch)| && |ReportedOn(s', ch)| == |ReportedOn(s, ch)| + 1
  {
    assert AnsweredOn(s', ch) == AnsweredOn(s, ch);
    assert ReportedOn(s', ch) == ReportedOn(s, ch) + {|s.regs|};
  }

  /** Receives once if the channel is full. */
  lemma MakeRoom(run: Run, ch: Channel) returns (longer: Run)
    requires ValidRun(run)
    ensures ValidRun(longer) && !Full(Last(longer), ch)
    ensures Last(longer) == Last(run).(balance := Last(longer).balance)
    ensures Balance(Last(longer), ch) == if Full(Last(run), ch) then ch.capacity - 1 else Balance(Last(run), ch)
  {
    BufferBounded(run, |run.labels|, ch);
    longer := run;
    if Full(Last(run), ch) {
      longer := Extend(run, Receive(ch));
    }
  }

  /** The channel as loaded by `a` answers and `r` reports, with receives only where needed. */
  ghost predicate Loaded(run: Run, k: Key, ch: Channel, a: nat, r: nat)
  {
    && ValidRun(run)
    && var s := Last(run);
    && PcOf(s, 0).Idle? && k !in s.tracker
    && |s.regs| == a + r && (forall i: RegId :: i < |s.regs| ==> s.regs[i].ch == ch)
    && |AnsweredOn(s, ch)| == a && |ReportedOn(s, ch)| == r
    && Balance(s, ch) == if a + r < ch.capacity then a + r else ch.capacity
  }

  ghost predicate CanLoad(k: Key, ch: Channel, a: nat, r: nat)
  {
    exists run :: Loaded(run, k, ch, a, r)
  }

  lemma LoadAnswer(run: Run, k: Key, ch: Channel, a: nat, r: nat)
    requires Loaded(run, k, ch, a, r)
    ensures CanLoad(k, ch, a + 1, r)
  {
    InvAlways(run, |run.labels|);
    var longer := AskOnce(run, k, ch, "");
    OneMoreAnswered(Last(run), Last(longer), k, ch, 0);
    longer := MakeRoom(longer, ch);
    var before := Last(longer);
    longer := Extend(longer, Deliver(0));
    assert AnsweredOn(Last(longer), ch) == AnsweredOn(before, ch) && ReportedOn(Last(longer), ch) == ReportedOn(before, ch);
    assert Loaded(longer, k, ch, a + 1, r);
  }

  lemma FailOnce(run: Run, k: Key, ch: Channel) returns (longer: Run)
    requires ValidRun(run) && PcOf(Last(run), 0).Idle? && k !in Last(run).tracker && IdsKnown(Last(run))
    ensures ValidRun(longer)
    ensures var s, s' := Last(run), Last(longer);
            && s'.regs == s.regs + [Registration(k, ch, SendFailed(|s.regs|))] && k !in s'.tracker
            && PcOf(s', 0).Idle? && |s.regs| in s'.failed && s'.reported == s.reported && s'.balance == s.balance
  {
    longer := Extend(run, Begin(0, k, ch));
    longer := Extend(longer, NotSent(0));
  }

  lemma LoadReport(run: Run, k: Key, ch: Channel, a: nat, r: nat)
    requires Loaded(run, k, ch, a, r)
    ensures CanLoad(k, ch, a, r + 1)
  {
    InvAlways(run, |run.labels|);
    var longer := FailOnce(run, k, ch);
    longer := MakeRoom(longer, ch);
    longer := Extend(longer, Report(|Last(run).regs|));
    OneMoreReported(Last(run), Last(longer), k, ch);
    assert Loaded(longer, k, ch, a, r + 1);
  }

  lemma {:induction false} Load(k: Key, ch: Channel, a: nat, r: nat)
    ensures CanLoad(k, ch, a, r)
    decreases a + r
  {
    if a > 0 {
      Load(k, ch, a - 1, r);
      var run :| Loaded(run, k, ch, a - 1, r);
      LoadAnswer(run, k, ch, a - 1, r);
    } else if r > 0 {
      Load(k, ch, a, r - 1);
      var run :| Loaded(run, k, ch, a, r - 1);
      LoadReport(run, k, ch, a, r - 1);
    } else {
      assert Loaded(Run([Init()], []), k, ch, a, r);
    }
  }

  /** With `a` answers and `r` reports, a handler can be blocked on a channel iff its capacity is below a + r. */
  lemma ChannelCanBlockIff(ch: Channel, a: nat, r: nat)
    requires a > 0
    ensures (exists run, t :: BlocksWith(run, t, ch, a, r)) <==> ch.capacity < a + r
  {
    if ch.capacity < a + r {
      Load("", ch, a - 1, r);
      var run :| Loaded(run, "", ch, a - 1, r);
      var longer := AskOnce(run, "", ch, "");
      InvAlways(run, |run.labels|);
      OneMoreAnswered(Last(run), Last(longer), "", ch, 0);
      assert BlocksWith(longer, 0, ch, a, r);
    } else {
      forall run, t | BlocksWith(run, t, ch, a, r)
        ensures false
      {
        RoomForPending(run, |run.labels|, t);
        assert ActsFor(Deliver(t), t);
      }
    }
  }

  /** A request without a connection, and the report of its error. */
  lemma ReportUnsent(run: Run, k: Key, ch: Channel) returns (longer: Run)
    requires ValidRun(run) && PcOf(Last(run), 0).Idle? && k !in Last(run).tracker && IdsKnown(Last(run))
    requires !Full(Last(run), ch)
    ensures ValidRun(longer)
    ensures var s, s' := Last(run), Last(longer);
            && s'.regs == s.regs + [Registration(k, ch, Tracked)] && s'.tracker == s.tracker[k := |s.regs|]
            && PcOf(s', 0).Idle? && Balance(s', ch) == Balance(s, ch) + 1
  {
    longer := Extend(run, Begin(0, k, ch));
    longer := Extend(longer, NoConnection(0));
    longer := Extend(longer, Report(|Last(run).regs|));
  }

  /**
   Room for one value per registration is otherwise not enough, for any buffer: a SendRequest without a connection fails
   and is reported, but leaves its key tracked, so that an answer is taken too.
   */
  lemma OneSlotPerRequestFails(k: Key, ch: Channel, answer: string) returns (run: Run)
    requires ch.capacity > 0
    ensures ValidRun(run) && |Last(run).regs| == ch.capacity
    ensures forall r: RegId :: r < ch.capacity ==> Last(run).regs[r].ch == ch
    ensures PcOf(Last(run), 0) == Delivering(ch.capacity - 1, answer) && Blocked(Last(run), 0)
  {
    Load(k, ch, ch.capacity - 1, 0);
    run :| Loaded(run, k, ch, ch.capacity - 1, 0);
    InvAlways(run, |run.labels|);
    run := ReportUnsent(run, k, ch);
    run := Extend(run, Answer(0, k, answer));
  }

  // A failing SendRequest and a reused key

  /** No SendRequest starts on a key whose previous SendRequest is still sending. */
  ghost predicate NoKeyReuse(run: Run)
    requires ValidRun(run)
  {
    forall i: nat :: i < |run.labels| && run.labels[i].Begin? ==> !KeyInUse(run.states[i], run.labels[i].k)
  }

  predicate KeyInUse(s: State, k: Key)
  {
    exists t <- s.threads :: s.threads[t].Sending? && s.threads[t].reg < |s.regs| && s.regs[s.threads[t].reg].key == k
  }

  predicate SendersAreLatest(s: State)
  {
    forall t <- s.threads :: s.threads[t].Sending? ==>
      s.threads[t].reg < |s.regs| && Latest(s, s.threads[t].reg)
  }

  predicate FailuresAreOwn(s: State)
  {
    forall r: RegId :: r < |s.regs| && s.regs[r].fate.SendFailed? ==> s.regs[r].fate.sender == r
  }

  lemma StaysLatest(s: State, l: Label, r: RegId)
    requires EntriesOpen(s) && Enabled(s, l) && r < |s.regs| && Latest(s, r)
    requires l.Begin? ==> l.k != s.regs[r].key
    ensures r < |Apply(s, l).regs| && Latest(Apply(s, l), r)
  {
    SettledStep(s, l, r);
    forall x: RegId | r < x < |Apply(s, l).regs|
      ensures Apply(s, l).regs[x].key != s.regs[r].key
    {
      if x < |s.regs| {
        SettledStep(s, l, x);
      }
    }
  }

  lemma SendersStep(s: State, l: Label)
    requires EntriesOpen(s) && SendersAreLatest(s) && Enabled(s, l)
    requires l.Begin? ==> !KeyInUse(s, l.k)
    ensures SendersAreLatest(Apply(s, l))
  {
    var s' := Apply(s, l);
    forall t | t in s'.threads && s'.threads[t].Sending?
      ensures s'.threads[t].reg < |s'.regs| && Latest(s', s'.threads[t].reg)
    {
      if t in s.threads && s.threads[t] == s'.threads[t] {
        StaysLatest(s, l, s.threads[t].reg);
      }
    }
  }

  lemma FailuresStep(s: State, l: Label)
    requires TrackerExact(s) && TrackedAreLatest(s) && SendersAreLatest(s) && FailuresAreOwn(s) && Enabled(s, l)
    ensures FailuresAreOwn(Apply(s, l))
  {
  }

  lemma OwnStep(s: State, l: Label)
    requires Inv(s) && SendersAreLatest(s) && FailuresAreOwn(s) && Enabled(s, l)
    requires l.Begin? ==> !KeyInUse(s, l.k)
    ensures SendersAreLatest(Apply(s, l)) && FailuresAreOwn(Apply(s, l))
  {
    SendersStep(s, l);
    FailuresStep(s, l);
  }

  lemma OwnRunStep(run: Run, i: nat)
    requires ValidRun(run) && NoKeyReuse(run) && i < |run.labels|
    requires SendersAreLatest(run.states[i]) && FailuresAreOwn(run.states[i])
    ensures SendersAreLatest(run.states[i + 1]) && FailuresAreOwn(run.states[i + 1])
  {
    InvAlways(run, i);
    assert StepAt(run, i);
    OwnStep(run.states[i], run.labels[i]);
  }

  /** With keys not reused, a failing send deregisters only its own registration. */
  lemma {:induction false} FailedSendRemovesItsOwn(run: Run, n: nat)
    requires ValidRun(run) && NoKeyReuse(run) && n < |run.states|
    ensures SendersAreLatest(run.states[n]) && FailuresAreOwn(run.states[n])
  {
    if n > 0 {
      FailedSendRemovesItsOwn(run, n - 1);
      OwnRunStep(run, n - 1);
    }
  }

  /** With a key reused, the older sender's failure deregisters the newer request. */
  lemma ReusedKeyLosesRequest(run: Run, i: nat, t: Tid, t': Tid, ch: Channel)
    requires ValidRun(run) && i < |run.states|
    requires var s := run.states[i]; PcOf(s, t).Sending? && PcOf(s, t').Idle?
    ensures var s := run.states[i];
            && PcOf(s, t).reg < |s.regs|
            && var k := s.regs[PcOf(s, t).reg].key;
            && Enabled(s, Begin(t', k, ch))
            && var s1 := Apply(s, Begin(t', k, ch));
            && Enabled(s1, NotSent(t))
            && var s2 := Apply(s1, NotSent(t));
            && s2.regs[|s.regs|] == Registration(k, ch, SendFailed(PcOf(s, t).reg))
            && PcOf(s2, t') == Sending(|s.regs|)
            && k !in s2.tracker && !FailuresAreOwn(s2)
  {
    InvAlways(run, i);
  }

  /** Whatever sender's failure comes next, it deregisters that sender's own registration. */
  ghost predicate NextFailureIsOwn(s: State)
  {
    forall t :: Enabled(s, NotSent(t)) ==> FailuresAreOwn(Apply(s, NotSent(t)))
  }

  /** Over a whole run: a failing send can only remove its own registration iff no key was reused while being sent. */
  lemma FailuresAreOwnIffNoReuse(run: Run)
    requires ValidRun(run)
    ensures NoKeyReuse(run) <==> forall i: nat :: i < |run.states| ==> NextFailureIsOwn(run.states[i])
  {
    if NoKeyReuse(run) {
      forall i: nat | i < |run.states|
        ensures NextFailureIsOwn(run.states[i])
      {
        NoReuseIsOwn(run, i);
      }
    } else {
      var i: nat :| i < |run.labels| && run.labels[i].Begin? && KeyInUse(run.states[i], run.labels[i].k);
      ReuseIsNotOwn(run, i);
    }
  }

  lemma NoReuseIsOwn(run: Run, i: nat)
    requires ValidRun(run) && NoKeyReuse(run) && i < |run.states|
    ensures NextFailureIsOwn(run.states[i])
  {
    InvAlways(run, i);
    FailedSendRemovesItsOwn(run, i);
    forall t | Enabled(run.states[i], NotSent(t)) {
      FailuresStep(run.states[i], NotSent(t));
    }
  }

  lemma ReuseIsNotOwn(run: Run, i: nat)
    requires ValidRun(run) && i < |run.labels| && run.labels[i].Begin? && KeyInUse(run.states[i], run.labels[i].k)
    ensures !NextFailureIsOwn(run.states[i + 1])
  {
    var s, l := run.states[i], run.labels[i];
    assert StepAt(run, i);
    var t :| t in s.threads && s.threads[t].Sending? && s.threads[t].reg < |s.regs| && s.regs[s.threads[t].reg].key == l.k;
    ReusedKeyLosesRequest(run, i, t, l.t, l.ch);
  }

  // A time-out and a reused key

  /** A registration of the key is being sent or waited for. */
  predicate KeyActive(s: State, k: Key)
  {
    KeyInUse(s, k) || exists r <- s.waiting :: r < |s.regs| && s.regs[r].key == k
  }

  /** No SendRequest starts on a key whose previous request is still being sent or waited for. */
  ghost predicate NoActiveReuse(run: Run)
    requires ValidRun(run)
  {
    forall i: nat :: i < |run.labels| && run.labels[i].Begin? ==> !KeyActive(run.states[i], run.labels[i].k)
  }

  predicate WaitersAreLatest(s: State)
  {
    forall r <- s.waiting :: r < |s.regs| && Latest(s, r)
  }

  predicate IgnoresAreOwn(s: State)
  {
    forall r: RegId :: r < |s.regs| && s.regs[r].fate.Ignored? ==> s.regs[r].fate.waiter == r
  }

  /** Failed sends and time-outs have removed nothing but their own registrations. */
  predicate RemovalsAreOwn(s: State)
  {
    FailuresAreOwn(s) && IgnoresAreOwn(s)
  }

  lemma WaitersStep(s: State, l: Label)
    requires EntriesOpen(s) && SendersAreLatest(s) && WaitersAreLatest(s) && Enabled(s, l)
    requires l.Begin? ==> !KeyActive(s, l.k)
    ensures WaitersAreLatest(Apply(s, l))
  {
    forall r | r in Apply(s, l).waiting
      ensures r < |Apply(s, l).regs| && Latest(Apply(s, l), r)
    {
      if r !in s.waiting {
        assert s.threads[l.t] == Sending(r);
      }
      StaysLatest(s, l, r);
    }
  }

  lemma IgnoresStep(s: State, l: Label)
    requires TrackerExact(s) && TrackedAreLatest(s) && WaitersAreLatest(s) && IgnoresAreOwn(s) && Enabled(s, l)
    ensures IgnoresAreOwn(Apply(s, l))
  {
  }

  ghost predicate OwnInv(s: State)
  {
    SendersAreLatest(s) && WaitersAreLatest(s) && RemovalsAreOwn(s)
  }

  lemma OwnInvStep(s: State, l: Label)
    requires Inv(s) && OwnInv(s) && Enabled(s, l)
    requires l.Begin? ==> !KeyActive(s, l.k)
    ensures OwnInv(Apply(s, l))
  {
    OwnStep(s, l);
    WaitersStep(s, l);
    IgnoresStep(s, l);
  }

  lemma OwnInvRunStep(run: Run, i: nat)
    requires ValidRun(run) && NoActiveReuse(run) && i < |run.labels| && OwnInv(run.states[i])
    ensures OwnInv(run.states[i + 1])
  {
    InvAlways(run, i);
    assert StepAt(run, i);
    OwnInvStep(run.states[i], run.labels[i]);
  }

  lemma {:induction false} OwnInvAlways(run: Run, n: nat)
    requires ValidRun(run) && NoActiveReuse(run) && n < |run.states|
    ensures OwnInv(run.states[n])
  {
    if n > 0 {
      OwnInvAlways(run, n - 1);
      OwnInvRunStep(run, n - 1);
    }
  }

  /** Whatever failure or time-out comes next, it removes only its own registration. */
  ghost predicate NextRemovalIsOwn(s: State)
  {
    forall l :: Enabled(s, l) && (l.NotSent? || l.Ignore?) ==> RemovalsAreOwn(Apply(s, l))
  }

  /** With a key reused while it is waited for, the older request's time-out deregisters the newer one. */
  lemma ReusedKeyTimesOut(run: Run, i: nat, r: RegId)
    requires ValidRun(run) && i < |run.labels| && run.labels[i].Begin?
    requires r in run.states[i].waiting && r < |run.states[i].regs| && run.states[i].regs[r].key == run.labels[i].k
    ensures var s, s1, l := run.states[i], run.states[i + 1], run.labels[i];
            && Enabled(s1, Ignore(r))
            && var s2 := Apply(s1, Ignore(r));
            && |s2.regs| > |s.regs|
            && s2.regs[|s.regs|] == Registration(l.k, l.ch, Ignored(r)) && l.k !in s2.tracker && !IgnoresAreOwn(s2)
  {
    InvAlways(run, i);
    assert StepAt(run, i);
    SettledStep(run.states[i], run.labels[i], r);
  }

  /**
   Over a whole run: failures and time-outs can only remove their own
   registrations iff no key was reused while it was being sent or waited for.
   */
  lemma RemovalsAreOwnIffNoReuse(run: Run)
    requires ValidRun(run)
    ensures NoActiveReuse(run) <==> forall i: nat :: i < |run.states| ==> NextRemovalIsOwn(run.states[i])
  {
    if NoActiveReuse(run) {
      forall i: nat | i < |run.states|
        ensures NextRemovalIsOwn(run.states[i])
      {
        OwnInvAlways(run, i);
        InvAlways(run, i);
        forall l | Enabled(run.states[i], l) && (l.NotSent? || l.Ignore?) {
          OwnInvStep(run.states[i], l);
        }
      }
    } else {
      var i: nat :| i < |run.labels| && run.labels[i].Begin? && KeyActive(run.states[i], run.labels[i].k);
      ActiveReuseIsNotOwn(run, i);
    }
  }

  lemma ActiveReuseIsNotOwn(run: Run, i: nat)
    requires ValidRun(run) && i < |run.labels| && run.labels[i].Begin? && KeyActive(run.states[i], run.labels[i].k)
    ensures !NextRemovalIsOwn(run.states[i + 1])
  {
    var s, s1, k := run.states[i], run.states[i + 1], run.labels[i].k;
    if KeyInUse(s, k) {
      ReuseIsNotOwn(run, i);
      var t :| Enabled(s1, NotSent(t)) && !FailuresAreOwn(Apply(s1, NotSent(t)));
      assert Enabled(s1, NotSent(t)) && !RemovalsAreOwn(Apply(s1, NotSent(t)));
    } else {
      var r :| r in s.waiting && r < |s.regs| && s.regs[r].key == k;
      ReusedKeyTimesOut(run, i, r);
      assert Enabled(s1, Ignore(r)) && !RemovalsAreOwn(Apply(s1, Ignore(r)));
    }
  }

  // The tracker's own map

  /** What RequestTracker.requestMap holds. */
  function Channels(s: State): map<Key, Channel>
  {
    map k | k in s.tracker && s.tracker[k] < |s.regs| :: s.regs[s.tracker[k]].ch
  }

  /** Dropping a key from the tracker drops it from the channel map. */
  lemma ChannelsDrop(s: State, k: Key, regs: seq<Registration>)
    requires EntriesOpen(s) && |regs| == |s.regs|
    requires forall r: RegId :: r < |regs| ==> regs[r].ch == s.regs[r].ch
    ensures Channels(s.(tracker := Deregister(s.tracker, k).0, regs := regs)) == Deregister(Channels(s), k).0
    ensures Deregister(Channels(s), k).1 ==
            match Deregister(s.tracker, k).1 case None => None case Some(r) => Some(s.regs[r].ch)
  {
  }

  /** The steps act on the tracker's channel map as the RequestTracker methods do. */
  lemma StepsMatchTracker(s: State, l: Label)
    requires Inv(s) && Enabled(s, l)
    ensures Channels(Apply(s, l)) ==
            match l
            case Begin(_, k, ch) => Register(Channels(s), k, ch)
            case NotSent(t) => Deregister(Channels(s), s.regs[PcOf(s, t).reg].key).0
            case Ignore(r) => Deregister(Channels(s), s.regs[r].key).0
            case Answer(_, k, _) => Deregister(Channels(s), k).0
            case _ => Channels(s)
  {
    if l.NotSent? || l.Ignore? || l.Answer? {
      var k := if l.NotSent? then s.regs[PcOf(s, l.t).reg].key else if l.Ignore? then s.regs[l.r].key else l.k;
      DropStep(s, l, k);
    } else if l.Begin? {
      BeginStep(s, l);
    }
  }

  lemma DropStep(s: State, l: Label, k: Key)
    requires EntriesOpen(s) && Enabled(s, l)
    requires match l
             case NotSent(t) => k == s.regs[PcOf(s, t).reg].key
             case Ignore(r) => k == s.regs[r].key
             case Answer(_, k', _) => k == k'
             case _ => false
    ensures Channels(Apply(s, l)) == Deregister(Channels(s), k).0
  {
    forall r: RegId | r < |s.regs| {
      SettledStep(s, l, r);
    }
    ChannelsDrop(s, k, Apply(s, l).regs);
  }

  lemma BeginStep(s: State, l: Label)
    requires EntriesOpen(s) && Enabled(s, l) && l.Begin?
    ensures Channels(Apply(s, l)) == Register(Channels(s), l.k, l.ch)
  {
    forall r: RegId | r < |s.regs| {
      SettledStep(s, l, r);
    }
  }

  /** A handler sends on the channel DeregisterRequest returned, and blocks when that is nil. */
  lemma HandlerUsesReturnedChannel(s: State, l: Label)
    requires Inv(s) && Enabled(s, l) && l.Answer?
    ensures match Deregister(Channels(s), l.k).1
            case None => PcOf(Apply(s, l), l.t) == Stuck
            case Some(ch) =>
              var pc := PcOf(Apply(s, l), l.t);
              pc.Delivering? && pc.reg < |s.regs| && s.regs[pc.reg].ch == ch
  {
    ChannelsDrop(s, l.k, s.regs);
  }
}
