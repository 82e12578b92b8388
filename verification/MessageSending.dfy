/**
 Sending one message with retries. Each attempt edits the destination AVPs of
 the same message in place, so a retry sees what earlier attempts left behind.
 */
module MessageSending {
  import opened Prelude
  import opened Connections

  datatype Avp = Avp(code: nat, data: string)

  const DESTINATION_REALM: nat := 283
  const DESTINATION_HOST: nat := 293

  /** Go's uint, 64 bits wide. */
  const UINT_LIMIT: nat := 0x1_0000_0000_0000_0000

  datatype Server = Server(destHost: string, destRealm: string, disableDestHost: bool, overwriteDestHost: bool)

  datatype Kind = Request | Answer

  /** How one attempt meets the outside world, whatever other threads do to the Connection. */
  datatype Attempt = NoConnection | Connected(metadata: Option<Metadata>, written: bool)

  datatype Destination = Destination(realm: string, host: string)

  /** The position of the first AVP with this code, |avps| if there is none. */
  function Find(avps: seq<Avp>, code: nat): (i: nat)
    ensures i <= |avps|
    ensures i < |avps| ==> avps[i].code == code
    ensures forall j :: 0 <= j < i ==> avps[j].code != code
  {
    if avps == [] then 0
    else if avps[0].code == code then 0
    else 1 + Find(avps[1..], code)
  }

  /** Overwrite the first AVP with this code if `replace`, append one if there is none. */
  function Put(avps: seq<Avp>, code: nat, data: string, replace: bool): seq<Avp>
  {
    var i := Find(avps, code);
    if i == |avps| then avps + [Avp(code, data)]
    else if replace then avps[i := Avp(code, data)]
    else avps
  }

  function AddDestination(avps: seq<Avp>, d: Destination, server: Server): seq<Avp>
  {
    var withRealm := Put(avps, DESTINATION_REALM, d.realm, true);
    if server.disableDestHost then withRealm
    else Put(withRealm, DESTINATION_HOST, d.host, server.overwriteDestHost)
  }

  /** The destination, unless neither the peer nor the configuration names one. */
  function Resolve(metadata: Option<Metadata>, server: Server): Option<Destination>
  {
    if metadata.None? && (server.destHost == "" || server.destRealm == "") then None
    else Some(Destination(
                if server.destRealm != "" then server.destRealm else metadata.value.originRealm,
                if server.destHost != "" then server.destHost else metadata.value.originHost))
  }

  predicate Addressed(kind: Kind, server: Server, a: Attempt)
  {
    a.Connected? && (kind.Request? ==> Resolve(a.metadata, server).Some?)
  }

  predicate Succeeds(kind: Kind, server: Server, a: Attempt)
  {
    Addressed(kind, server, a) && a.written
  }

  /** The destinations that the first `n` attempts put in the message, in order. */
  function Destinations(server: Server, env: nat -> Attempt, n: nat): seq<Destination>
  {
    if n == 0 then []
    else
      var before := Destinations(server, env, n - 1);
      if Addressed(Request, server, env(n - 1)) then before + [Resolve(env(n - 1).metadata, server).value]
      else before
  }

  function AddAll(avps: seq<Avp>, ds: seq<Destination>, server: Server): seq<Avp>
  {
    if ds == [] then avps
    else AddDestination(AddAll(avps, ds[..|ds| - 1], server), ds[|ds| - 1], server)
  }

  /** What a whole sendMessageWithRetries call does; `ok` is a nil error. */
  datatype Outcome = Outcome(ok: bool, attempts: nat)

  function SendFrom(kind: Kind, server: Server, env: nat -> Attempt, made: nat, left: nat, lastFailed: bool): Outcome
    decreases left
  {
    if left == 0 then Outcome(!lastFailed, made)
    else if Succeeds(kind, server, env(made)) then Outcome(true, made + 1)
    else SendFrom(kind, server, env, made + 1, left - 1, true)
  }

  /** retryCount + 1 in 64-bit arithmetic. */
  function TimesToSend(retryCount: nat): nat
  {
    (retryCount + 1) % UINT_LIMIT
  }

  function Send(kind: Kind, server: Server, env: nat -> Attempt, retryCount: nat): Outcome
  {
    SendFrom(kind, server, env, 0, TimesToSend(retryCount), false)
  }

  class Message {
    var avps: seq<Avp>

    constructor (avps: seq<Avp>)
      ensures this.avps == avps
    {
      this.avps := avps;
    }

    method FindAvp(code: nat) returns (i: nat)
      ensures i == Find(avps, code)
    {
      i := 0;
      while i < |avps| && avps[i].code != code
        invariant i <= |avps|
        invariant forall j :: 0 <= j < i ==> avps[j].code != code
      {
        i := i + 1;
      }
      var f := Find(avps, code);
      assert i == f;
    }

    method AddDestinationTo(metadata: Option<Metadata>, server: Server) returns (ok: bool)
      modifies this
      ensures ok == Resolve(metadata, server).Some?
      ensures avps == if ok then AddDestination(old(avps), Resolve(metadata, server).value, server) else old(avps)
    {
      if metadata.None? && (server.destHost == "" || server.destRealm == "") {
        return false;
      }
      var host := if server.destHost != "" then server.destHost else metadata.value.originHost;
      var realm := if server.destRealm != "" then server.destRealm else metadata.value.originRealm;
      var i := FindAvp(DESTINATION_REALM);
      if i == |avps| {
        avps := avps + [Avp(DESTINATION_REALM, realm)];
      } else {
        avps := avps[i := avps[i].(data := realm)];
      }
      if server.disableDestHost {
        return true;
      }
      i := FindAvp(DESTINATION_HOST);
      if i == |avps| {
        avps := avps + [Avp(DESTINATION_HOST, host)];
      } else if server.overwriteDestHost {
        avps := avps[i := avps[i].(data := host)];
      }
      return true;
    }

    method SendOnce(kind: Kind, server: Server, a: Attempt) returns (ok: bool)
      modifies this
      ensures ok == Succeeds(kind, server, a)
      ensures ok ==> a.Connected? && a.written
      ensures kind.Answer? ==> ok == (a.Connected? && a.written)
      ensures avps == if kind.Request? && Addressed(kind, server, a)
                      then AddDestination(old(avps), Resolve(a.metadata, server).value, server)
                      else old(avps)
    {
      if a.NoConnection? {
        return false;
      }
      if kind.Request? {
        var addressed := AddDestinationTo(a.metadata, server);
        if !addressed {
          return false;
        }
      }
      return a.written;
    }

    method SendWithRetries(kind: Kind, server: Server, env: nat -> Attempt, retryCount: nat)
      returns (ok: bool, attempts: nat)
      requires retryCount < UINT_LIMIT
      modifies this
      ensures Outcome(ok, attempts) == Send(kind, server, env, retryCount)
      ensures avps == if kind.Request? then AddAll(old(avps), Destinations(server, env, attempts), server)
                      else old(avps)
    {
      ok, attempts := true, 0;
      var timesToSend: nat := TimesToSend(retryCount);
      ghost var target := Send(kind, server, env, retryCount);
      while timesToSend > 0
        invariant SendFrom(kind, server, env, attempts, timesToSend, !ok) == target
        invariant avps == if kind.Request? then AddAll(old(avps), Destinations(server, env, attempts), server)
                          else old(avps)
      {
        NextAttempt(old(avps), server, env, attempts);
        assert SendFrom(kind, server, env, attempts, timesToSend, !ok) ==
               if Succeeds(kind, server, env(attempts)) then Outcome(true, attempts + 1)
               else SendFrom(kind, server, env, attempts + 1, timesToSend - 1, true);
        ok := SendOnce(kind, server, env(attempts));
        attempts := attempts + 1;
        if ok {
          assert Outcome(ok, attempts) == target;
          break;
        }
        timesToSend := timesToSend - 1;
      }
    }
  }

  /** One more attempt is one more edit, if it gets as far as the destination. */
  lemma NextAttempt(avps: seq<Avp>, server: Server, env: nat -> Attempt, n: nat)
    ensures AddAll(avps, Destinations(server, env, n + 1), server) ==
            var before := AddAll(avps, Destinations(server, env, n), server);
            if Addressed(Request, server, env(n))
            then AddDestination(before, Resolve(env(n).metadata, server).value, server) else before
  {
    var ds, ds' := Destinations(server, env, n), Destinations(server, env, n + 1);
    if Addressed(Request, server, env(n)) {
      assert ds'[..|ds'| - 1] == ds;
    }
  }

  // Retries

  lemma {:induction false} SendFromStops(kind: Kind, server: Server, env: nat -> Attempt, made: nat, left: nat, lastFailed: bool)
    ensures var r := SendFrom(kind, server, env, made, left, lastFailed);
            && made <= r.attempts <= made + left
            && (forall i: nat :: made <= i < r.attempts - 1 ==> !Succeeds(kind, server, env(i)))
            && (left > 0 ==> made < r.attempts && r.ok == Succeeds(kind, server, env(r.attempts - 1)))
            && (left > 0 && !r.ok ==> r.attempts == made + left)
    decreases left
  {
    if left > 0 && !Succeeds(kind, server, env(made)) {
      SendFromStops(kind, server, env, made + 1, left - 1, true);
    }
  }

  /**
   Retries stop at the first success and make at most retryCount + 1 attempts,
   and the call reports success iff an attempt succeeded; all of it below the
   wrap point.
   */
  lemma RetriesStopAtFirstSuccess(kind: Kind, server: Server, env: nat -> Attempt, retryCount: nat)
    requires retryCount < UINT_LIMIT - 1
    ensures var r := Send(kind, server, env, retryCount);
            && 1 <= r.attempts <= retryCount + 1
            && (forall i: nat :: i < r.attempts - 1 ==> !Succeeds(kind, server, env(i)))
            && (r.ok <==> Succeeds(kind, server, env(r.attempts - 1)))
            && (r.ok <==> exists i: nat :: i <= retryCount && Succeeds(kind, server, env(i)))
  {
    SendFromStops(kind, server, env, 0, retryCount + 1, false);
    var r := Send(kind, server, env, retryCount);
    if i: nat :| i <= retryCount && Succeeds(kind, server, env(i)) {
      assert i < r.attempts - 1 || i == r.attempts - 1 || r.ok;
    }
    if r.ok {
      assert r.attempts - 1 <= retryCount && Succeeds(kind, server, env(r.attempts - 1));
    }
  }

  /** The attempt got a conn, could name a destination if it needed one, and wrote the message. */
  predicate Wrote(kind: Kind, server: Server, a: Attempt)
  {
    && a.Connected? && a.written
    && (kind.Request? ==> a.metadata.Some? || (server.destHost != "" && server.destRealm != ""))
  }

  /**
   What a caller can rely on, in terms of the attempts alone: a nil error means
   that the last attempt was connected and written, and an error that all
   retryCount + 1 attempts were made and each failed to connect, to name a
   destination or to write.
   */
  lemma NilErrorMeansWritten(kind: Kind, server: Server, env: nat -> Attempt, retryCount: nat)
    requires retryCount < UINT_LIMIT - 1
    ensures var r := Send(kind, server, env, retryCount);
            && 1 <= r.attempts <= retryCount + 1
            && (r.ok ==> env(r.attempts - 1).Connected? && env(r.attempts - 1).written)
            && (r.ok <==> exists i: nat :: i <= retryCount && Wrote(kind, server, env(i)))
            && (!r.ok ==> r.attempts == retryCount + 1)
            && (forall i: nat :: i < r.attempts - 1 ==> !Wrote(kind, server, env(i)))
  {
    var r := Send(kind, server, env, retryCount);
    forall a: Attempt {
      SucceedsIff(kind, server, a);
    }
    RetriesStopAtFirstSuccess(kind, server, env, retryCount);
    SendFromStops(kind, server, env, 0, retryCount + 1, false);
    if r.ok {
      assert Wrote(kind, server, env(r.attempts - 1));
    }
    if i: nat :| i <= retryCount && Wrote(kind, server, env(i)) {
      assert Succeeds(kind, server, env(i));
    }
  }

  lemma SucceedsIff(kind: Kind, server: Server, a: Attempt)
    ensures Succeeds(kind, server, a) <==> Wrote(kind, server, a)
    ensures Wrote(Answer, server, a) <==> a.Connected? && a.written
  {
  }

  /** With the largest retry count nothing is sent, and no error is reported. */
  lemma WrapSendsNothing(kind: Kind, server: Server, env: nat -> Attempt)
    ensures Send(kind, server, env, 0xFFFF_FFFF_FFFF_FFFF) == Outcome(true, 0)
  {
  }

  /** A nil error means the message was written, for every retry count but the one that wraps to zero attempts. */
  lemma SuccessIsTrueIffNoWrap(kind: Kind, server: Server, env: nat -> Attempt, retryCount: nat)
    requires retryCount < UINT_LIMIT
    ensures var r := Send(kind, server, env, retryCount);
            (r.ok <==> exists i: nat :: i < r.attempts && Succeeds(kind, server, env(i)))
            <==> retryCount + 1 < UINT_LIMIT
  {
    var r := Send(kind, server, env, retryCount);
    if retryCount + 1 < UINT_LIMIT {
      RetriesStopAtFirstSuccess(kind, server, env, retryCount);
      if r.ok {
        assert Succeeds(kind, server, env(r.attempts - 1));
      }
    }
  }

  // Destination AVPs

  lemma PutFinds(avps: seq<Avp>, code: nat, data: string, replace: bool)
    ensures var out := Put(avps, code, data, replace);
            Find(out, code) == Find(avps, code) < |out|
  {
    FindUnique(Put(avps, code, data, replace), code, Find(avps, code));
  }

  lemma PutKeepsOther(avps: seq<Avp>, code: nat, data: string, replace: bool, other: nat)
    requires other != code
    ensures var out := Put(avps, code, data, replace);
            Find(out, other) == if Find(avps, other) < |avps| then Find(avps, other) else |out|
  {
    var out := Put(avps, code, data, replace);
    FindUnique(out, other, if Find(avps, other) < |avps| then Find(avps, other) else |out|);
  }

  lemma FindUnique(avps: seq<Avp>, code: nat, i: nat)
    requires i <= |avps| && (i < |avps| ==> avps[i].code == code)
    requires forall j :: 0 <= j < i ==> avps[j].code != code
    ensures Find(avps, code) == i
  {
    var f := Find(avps, code);
    assert !(f < i) && !(i < f);
  }

  /** Putting twice equals putting once, with the last value if replacing and the first otherwise. */
  lemma PutTwice(avps: seq<Avp>, code: nat, d1: string, d2: string, replace: bool)
    ensures Put(Put(avps, code, d1, replace), code, d2, replace) ==
            if replace then Put(avps, code, d2, replace) else Put(avps, code, d1, replace)
  {
    PutFinds(avps, code, d1, replace);
  }

  /** Edits of different codes commute once both codes are present. */
  lemma PutsCommute(avps: seq<Avp>, c1: nat, d1: string, r1: bool, c2: nat, d2: string, r2: bool)
    requires c1 != c2 && Find(avps, c1) < |avps|
    ensures Put(Put(avps, c1, d1, r1), c2, d2, r2) == Put(Put(avps, c2, d2, r2), c1, d1, r1)
  {
    var i := Find(avps, c1);
    PutKeepsOther(avps, c1, d1, r1, c2);
    PutKeepsOther(avps, c2, d2, r2, c1);
    if r1 {
      UpdatePut(avps, i, Avp(c1, d1), c2, d2, r2);
    }
  }

  /** An update elsewhere commutes with a Put. */
  lemma UpdatePut(avps: seq<Avp>, i: nat, a: Avp, code: nat, data: string, replace: bool)
    requires i < |avps| && i != Find(avps, code) && Find(avps[i := a], code) == Find(avps, code)
    ensures Put(avps[i := a], code, data, replace) == Put(avps, code, data, replace)[i := a]
  {
  }

  /** Two attempts equal one attempt with the last realm, and the last or the first host. */
  lemma AddTwice(avps: seq<Avp>, d1: Destination, d2: Destination, server: Server)
    ensures AddDestination(AddDestination(avps, d1, server), d2, server) ==
            AddDestination(avps, Destination(d2.realm, if server.overwriteDestHost then d2.host else d1.host), server)
  {
    var r1 := Put(avps, DESTINATION_REALM, d1.realm, true);
    PutFinds(avps, DESTINATION_REALM, d1.realm, true);
    PutTwice(avps, DESTINATION_REALM, d1.realm, d2.realm, true);
    if !server.disableDestHost {
      var r2 := Put(r1, DESTINATION_REALM, d2.realm, true);
      PutsCommute(r1, DESTINATION_REALM, d2.realm, true, DESTINATION_HOST, d1.host, server.overwriteDestHost);
      PutTwice(r2, DESTINATION_HOST, d1.host, d2.host, server.overwriteDestHost);
    }
  }

  /**
   However many attempts edit the message, the result is that of a single
   attempt with the last realm and, unless overwriting, the first host.
   */
  lemma {:induction false} RetriesEditOnce(avps: seq<Avp>, ds: seq<Destination>, server: Server)
    requires ds != []
    ensures AddAll(avps, ds, server) ==
            AddDestination(avps, Destination(ds[|ds| - 1].realm,
                                             if server.overwriteDestHost then ds[|ds| - 1].host else ds[0].host), server)
  {
    var front, last := ds[..|ds| - 1], ds[|ds| - 1];
    if front == [] {
      assert AddAll(avps, front, server) == avps;
    } else {
      RetriesEditOnce(avps, front, server);
      AddTwice(avps, Destination(front[|front| - 1].realm,
                                 if server.overwriteDestHost then front[|front| - 1].host else front[0].host),
               last, server);
    }
  }

  /**
   `out` is `avps` with this destination, position by position: the first realm
   AVP carries the realm, the first host AVP follows the flags, each is appended
   only if there was none, and nothing else moves or changes.
   */
  predicate Placed(avps: seq<Avp>, out: seq<Avp>, realm: string, host: string, server: Server)
  {
    var r, h := Find(avps, DESTINATION_REALM), Find(avps, DESTINATION_HOST);
    && |out| == |avps| + (if r == |avps| then 1 else 0) + (if h == |avps| && !server.disableDestHost then 1 else 0)
    && out[r] == Avp(DESTINATION_REALM, realm)
    && (h < |avps| ==>
          out[h] == if server.overwriteDestHost && !server.disableDestHost then Avp(DESTINATION_HOST, host) else avps[h])
    && (h == |avps| && !server.disableDestHost ==> out[|out| - 1] == Avp(DESTINATION_HOST, host))
    && forall i :: 0 <= i < |avps| && i != r && i != h ==> out[i] == avps[i]
  }

  /** The codes are those of sections 6.6 and 6.5 of RFC 6733. */
  lemma DestinationEffect(avps: seq<Avp>, d: Destination, server: Server)
    ensures Placed(avps, AddDestination(avps, d, server), d.realm, d.host, server)
    ensures DESTINATION_REALM == 283 && DESTINATION_HOST == 293
  {
    PutKeepsOther(avps, DESTINATION_REALM, d.realm, true, DESTINATION_HOST);
  }

  /** Attempt `first` is the earliest, and `last` the latest, of the first `n` to reach the destination edit. */
  ghost predicate AddressedSpan(server: Server, env: nat -> Attempt, n: nat, first: nat, last: nat)
  {
    && first <= last < n && Addressed(Request, server, env(first)) && Addressed(Request, server, env(last))
    && (forall i: nat :: i < first ==> !Addressed(Request, server, env(i)))
    && (forall i: nat :: last < i < n ==> !Addressed(Request, server, env(i)))
  }

  lemma {:induction false} SpanEnds(server: Server, env: nat -> Attempt, n: nat, first: nat, last: nat)
    requires AddressedSpan(server, env, n, first, last)
    ensures var ds := Destinations(server, env, n);
            && ds != []
            && ds[0] == Resolve(env(first).metadata, server).value
            && ds[|ds| - 1] == Resolve(env(last).metadata, server).value
  {
    if last < n - 1 {
      SpanEnds(server, env, n - 1, first, last);
    } else if first < last {
      SpanExists(server, env, n - 1, first);
      var l: nat :| l < n - 1 && AddressedSpan(server, env, n - 1, first, l);
      SpanEnds(server, env, n - 1, first, l);
    } else {
      NoneAddressed(server, env, first);
    }
  }

  lemma {:induction false} SpanExists(server: Server, env: nat -> Attempt, n: nat, first: nat)
    requires first < n && Addressed(Request, server, env(first))
    requires forall i: nat :: i < first ==> !Addressed(Request, server, env(i))
    ensures exists l: nat :: l < n && AddressedSpan(server, env, n, first, l)
  {
    if Addressed(Request, server, env(n - 1)) {
      assert AddressedSpan(server, env, n, first, n - 1);
    } else {
      SpanExists(server, env, n - 1, first);
      var l: nat :| l < n - 1 && AddressedSpan(server, env, n - 1, first, l);
      assert AddressedSpan(server, env, n, first, l);
    }
  }

  lemma {:induction false} NoneAddressed(server: Server, env: nat -> Attempt, n: nat)
    requires forall i: nat :: i < n ==> !Addressed(Request, server, env(i))
    ensures Destinations(server, env, n) == []
  {
    if n > 0 {
      NoneAddressed(server, env, n - 1);
    }
  }

  /** An attempt edits a request iff it is connected and the peer or the configuration names a destination. */
  lemma AddressedIff(server: Server, a: Attempt)
    ensures Addressed(Request, server, a) <==>
            a.Connected? && (a.metadata.Some? || (server.destHost != "" && server.destRealm != ""))
  {
  }

  /** A request none of whose attempts gets that far is left as it was. */
  lemma UnaddressedIsUnchanged(avps: seq<Avp>, server: Server, env: nat -> Attempt, n: nat)
    requires forall i: nat :: i < n && env(i).Connected? ==>
               env(i).metadata.None? && (server.destHost == "" || server.destRealm == "")
    ensures AddAll(avps, Destinations(server, env, n), server) == avps
  {
    forall i: nat | i < n {
      AddressedIff(server, env(i));
    }
    NoneAddressed(server, env, n);
  }

  /** The names a peer gave at capability exchange. */
  function PeerRealm(a: Attempt): string
  {
    if a.Connected? && a.metadata.Some? then a.metadata.value.originRealm else ""
  }

  function PeerHost(a: Attempt): string
  {
    if a.Connected? && a.metadata.Some? then a.metadata.value.originHost else ""
  }

  /** The configured name if there is one, else the peer's. */
  function Preferred(configured: string, peer: string): string
  {
    if configured != "" then configured else peer
  }

  /**
   The destination of a request after any number of attempts. The first realm
   AVP names the configured realm or that of the last peer reached. The first
   host AVP is left as the caller set it unless overwriting, and is otherwise
   the configured host or that of the last (when overwriting) or first peer.
   */
  lemma RequestDestination(avps: seq<Avp>, server: Server, env: nat -> Attempt, n: nat, first: nat, last: nat)
    requires AddressedSpan(server, env, n, first, last)
    ensures var host := PeerHost(if server.overwriteDestHost then env(last) else env(first));
            Placed(avps, AddAll(avps, Destinations(server, env, n), server),
                   Preferred(server.destRealm, PeerRealm(env(last))), Preferred(server.destHost, host), server)
  {
    var ds := Destinations(server, env, n);
    SpanEnds(server, env, n, first, last);
    RetriesEditOnce(avps, ds, server);
    DestinationEffect(avps, Destination(ds[|ds| - 1].realm,
                                        if server.overwriteDestHost then ds[|ds| - 1].host else ds[0].host), server);
  }
}
