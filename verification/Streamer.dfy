/** Reconciling a stored object map with the snapshots streamed from the cloud. */
module Streamer {
  import opened Prelude
  import opened ObjectStore

  datatype Update = Update(key: string, value: string)

  datatype Batch = Batch(resync: bool, updates: seq<Update>)

  /** How the store behaves during one batch: is it readable, and what becomes of each write. */
  datatype Conditions = Conditions(up: bool, onSet: nat -> Reply, onDelete: string -> Reply)

  type Decoder<!V> = string -> Result<V>

  /** The fields after the first `n` updates have been set; undecodable ones are skipped. */
  function Written<V>(f: map<string, string>, us: seq<Update>, decode: Decoder<V>, codec: Codec<V>,
                      reply: nat -> Reply, n: nat): map<string, string>
    requires n <= |us|
  {
    if n == 0 then f
    else
      var before := Written(f, us, decode, codec, reply, n - 1);
      var v := decode(us[n - 1].value);
      if v.Ok? then SetFields(before, codec, us[n - 1].key, v.value, reply(n - 1)) else before
  }

  /** The keys of the decodable ones among the first `n` updates. */
  function Decoded<V>(us: seq<Update>, decode: Decoder<V>, n: nat): set<string>
    requires n <= |us|
  {
    set i | 0 <= i < n && decode(us[i].value).Ok? :: us[i].key
  }

  /** The visible entries no decodable update mentions. */
  function Leftovers<V>(f: map<string, string>, us: seq<Update>, decode: Decoder<V>, codec: Codec<V>): set<string>
  {
    set k | k in Visible(f, codec) && k !in Decoded(us, decode, |us|)
  }

  /** The fields at some moment of a resync batch: what the first loop's invariant says, or the second one's. */
  ghost predicate Midway<V>(f: map<string, string>, us: seq<Update>, decode: Decoder<V>, codec: Codec<V>,
                            c: Conditions, g: map<string, string>)
  {
    || (exists n: nat :: n <= |us| && g == Written(f, us, decode, codec, c.onSet, n))
    || (exists gone :: gone <= Leftovers(f, us, decode, codec)
                       && g == Written(f, us, decode, codec, c.onSet, |us|) - gone)
  }

  /** The fields after a resync batch: set what decodes, then delete the visible leftovers. */
  function Reconcile<V>(f: map<string, string>, us: seq<Update>, decode: Decoder<V>, codec: Codec<V>,
                        c: Conditions): map<string, string>
  {
    Written(f, us, decode, codec, c.onSet, |us|)
    - set k | k in Visible(f, codec) && k !in Decoded(us, decode, |us|) && Applied(c.onDelete(k))
  }

  function ApplyBatch<V>(f: map<string, string>, b: Batch, decode: Decoder<V>, codec: Codec<V>,
                         c: Conditions): map<string, string>
  {
    if b.resync && c.up then Reconcile(f, b.updates, decode, codec, c) else f
  }

  class StoredObjectListener<V> {
    const streamMap: RedisMap<V>
    const decode: Decoder<V>

    constructor (streamMap: RedisMap<V>, decode: Decoder<V>)
      ensures this.streamMap == streamMap && this.decode == decode
    {
      this.streamMap, this.decode := streamMap, decode;
    }

    /** The first loop: `leftovers` is `currMap` without the keys of decodable updates. */
    method StoreUpdates(us: seq<Update>, currMap: map<string, V>, c: Conditions) returns (leftovers: map<string, V>)
      modifies streamMap.client
      ensures leftovers == currMap - Decoded(us, decode, |us|)
      ensures streamMap.Mine() == Written(old(streamMap.Mine()), us, decode, streamMap.codec, c.onSet, |us|)
      ensures forall h :: h != streamMap.hash ==>
        Fields(streamMap.client.data, h) == Fields(old(streamMap.client.data), h)
    {
      leftovers := currMap;
      for i := 0 to |us|
        invariant streamMap.Mine() == Written(old(streamMap.Mine()), us, decode, streamMap.codec, c.onSet, i)
        invariant leftovers == currMap - Decoded(us, decode, i)
        invariant forall h :: h != streamMap.hash ==>
          Fields(streamMap.client.data, h) == Fields(old(streamMap.client.data), h)
      {
        assert Decoded(us, decode, i + 1) ==
               Decoded(us, decode, i) + if decode(us[i].value).Ok? then {us[i].key} else {};
        var v := decode(us[i].value);
        if v.Err? {
          continue;
        }
        var _ := streamMap.Set(us[i].key, v.value, c.onSet(i));
        leftovers := leftovers - {us[i].key};
      }
    }

    /** The second loop. */
    method DeleteLeftovers(leftovers: map<string, V>, c: Conditions)
      modifies streamMap.client
      ensures streamMap.Mine() == old(streamMap.Mine()) - set k | k in leftovers && Applied(c.onDelete(k))
      ensures forall h :: h != streamMap.hash ==>
        Fields(streamMap.client.data, h) == Fields(old(streamMap.client.data), h)
    {
      var left := leftovers.Keys;
      while left != {}
        invariant left <= leftovers.Keys
        invariant streamMap.Mine() ==
                  old(streamMap.Mine()) - set k | k in leftovers && k !in left && Applied(c.onDelete(k))
        invariant forall h :: h != streamMap.hash ==>
          Fields(streamMap.client.data, h) == Fields(old(streamMap.client.data), h)
        decreases left
      {
        var k :| k in left;
        left := left - {k};
        var _ := streamMap.Delete(k, c.onDelete(k));
      }
    }

    /** `again` asks the streamer to go on; errors are only logged. */
    method Update(b: Batch, c: Conditions) returns (again: bool)
      modifies streamMap.client
      ensures again
      ensures !b.resync || !c.up ==> streamMap.Mine() == old(streamMap.Mine())
      ensures streamMap.Mine() == ApplyBatch(old(streamMap.Mine()), b, decode, streamMap.codec, c)
      ensures forall h :: h != streamMap.hash ==>
        Fields(streamMap.client.data, h) == Fields(old(streamMap.client.data), h)
    {
      again := true;
      if !b.resync {
        return;
      }
      var currMap := streamMap.GetAll(c.up);
      if currMap.Err? {
        return;
      }
      ghost var f := streamMap.Mine();
      var leftovers := StoreUpdates(b.updates, currMap.value, c);
      DeleteLeftovers(leftovers, c);
      assert (set k | k in leftovers && Applied(c.onDelete(k))) ==
             set k | k in Visible(f, streamMap.codec) && k !in Decoded(b.updates, decode, |b.updates|)
                     && Applied(c.onDelete(k));
    }
  }

  // What a reader sees after a batch

  function Look<V>(m: map<string, V>, k: string): Option<V>
  {
    if k in m then Some(m[k]) else None
  }

  /** Update `i` reached the store. */
  predicate Stored<V>(us: seq<Update>, decode: Decoder<V>, codec: Codec<V>, reply: nat -> Reply, i: nat)
    requires i < |us|
  {
    var v := decode(us[i].value);
    v.Ok? && codec.ser(v.value).Ok? && Applied(reply(i))
  }

  /** Searching backwards: the value of the last update of `k` that reached the store. */
  function LastStored<V>(us: seq<Update>, decode: Decoder<V>, codec: Codec<V>, reply: nat -> Reply,
                         k: string, n: nat): Option<V>
    requires n <= |us|
  {
    if n == 0 then None
    else if us[n - 1].key == k && Stored(us, decode, codec, reply, n - 1) then Some(decode(us[n - 1].value).value)
    else LastStored(us, decode, codec, reply, k, n - 1)
  }

  /** The streamed snapshot: the value of the last decodable update of `k`. */
  function LastDecodable<V>(us: seq<Update>, decode: Decoder<V>, k: string, n: nat): Option<V>
    requires n <= |us|
  {
    if n == 0 then None
    else if us[n - 1].key == k && decode(us[n - 1].value).Ok? then Some(decode(us[n - 1].value).value)
    else LastDecodable(us, decode, k, n - 1)
  }

  function Snapshot<V>(b: Batch, decode: Decoder<V>, k: string): Option<V>
  {
    LastDecodable(b.updates, decode, k, |b.updates|)
  }

  /** Update `i` gives `k` the value `v`, and no later decodable one mentions `k`. */
  ghost predicate IsLast<V>(us: seq<Update>, decode: Decoder<V>, k: string, i: nat, v: V)
  {
    && i < |us| && us[i].key == k && decode(us[i].value) == Ok(v)
    && forall j: nat :: i < j < |us| && us[j].key == k ==> decode(us[j].value).Err?
  }

  /** The snapshot of a key is what its last decodable update gives it, and nothing iff it has none. */
  lemma SnapshotIsLast<V>(b: Batch, decode: Decoder<V>, k: string)
    ensures var last := Snapshot(b, decode, k);
            if last.Some? then exists i: nat :: IsLast(b.updates, decode, k, i, last.value)
            else forall i: nat :: i < |b.updates| && b.updates[i].key == k ==> decode(b.updates[i].value).Err?
  {
    LastDecodableIs(b.updates, decode, k, |b.updates|);
  }

  lemma {:induction false} LastDecodableIs<V>(us: seq<Update>, decode: Decoder<V>, k: string, n: nat)
    requires n <= |us| && forall j: nat :: n <= j < |us| && us[j].key == k ==> decode(us[j].value).Err?
    ensures var last := LastDecodable(us, decode, k, n);
            if last.Some? then exists i: nat :: IsLast(us, decode, k, i, last.value)
            else forall i: nat :: i < |us| && us[i].key == k ==> decode(us[i].value).Err?
  {
    if n > 0 {
      if us[n - 1].key == k && decode(us[n - 1].value).Ok? {
        assert IsLast(us, decode, k, n - 1, LastDecodable(us, decode, k, n).value);
      } else {
        LastDecodableIs(us, decode, k, n - 1);
      }
    }
  }

  lemma {:induction false} WrittenShows<V(!new)>(f: map<string, string>, us: seq<Update>, decode: Decoder<V>, codec: Codec<V>,
                                                 reply: nat -> Reply, k: string, n: nat)
    requires n <= |us| && RoundTrips(codec)
    ensures Look(Visible(Written(f, us, decode, codec, reply, n), codec), k) ==
            var last := LastStored(us, decode, codec, reply, k, n);
            if last.Some? then last else Look(Visible(f, codec), k)
  {
    if n > 0 {
      WrittenShows(f, us, decode, codec, reply, k, n - 1);
      var v := decode(us[n - 1].value);
      if v.Ok? {
        VisibleSet(Written(f, us, decode, codec, reply, n - 1), codec, us[n - 1].key, v.value, reply(n - 1));
      }
    }
  }

  /** An update of a key that is in no decodable update stores nothing. */
  lemma {:induction false} StoredIsDecoded<V>(us: seq<Update>, decode: Decoder<V>, codec: Codec<V>,
                                              reply: nat -> Reply, k: string, n: nat)
    requires n <= |us|
    ensures LastStored(us, decode, codec, reply, k, n).Some? ==> k in Decoded(us, decode, n)
  {
    if n > 0 {
      StoredIsDecoded(us, decode, codec, reply, k, n - 1);
    }
  }

  /**
   Exactly what a resync leaves visible, key by key and whatever the store does:
   the last value that was stored; failing that, for a key the batch mentions,
   the old value; for any other key, the old value if its deletion was lost.
   */
  lemma ResyncEffect<V(!new)>(f: map<string, string>, us: seq<Update>, decode: Decoder<V>, codec: Codec<V>,
                              c: Conditions, k: string)
    requires RoundTrips(codec)
    ensures Look(Visible(Reconcile(f, us, decode, codec, c), codec), k) ==
            var last := LastStored(us, decode, codec, c.onSet, k, |us|);
            if last.Some? then last
            else if k !in Decoded(us, decode, |us|) && Applied(c.onDelete(k)) then None
            else Look(Visible(f, codec), k)
  {
    WrittenShows(f, us, decode, codec, c.onSet, k, |us|);
    StoredIsDecoded(us, decode, codec, c.onSet, k, |us|);
    var w := Written(f, us, decode, codec, c.onSet, |us|);
    var gone := set k | k in Visible(f, codec) && k !in Decoded(us, decode, |us|) && Applied(c.onDelete(k));
    assert Visible(w - gone, codec) == Visible(w, codec) - gone;
  }

  /**
   What a reader sees while a resync is running, after any prefix of its writes
   and whatever the store does: under each key the old value, a value the batch
   gives it, or nothing, and nothing only if it was not there before or the batch
   does not mention it. No mentioned key disappears in between.
   */
  lemma ReadersSeeOldOrNew<V(!new)>(f: map<string, string>, us: seq<Update>, decode: Decoder<V>, codec: Codec<V>,
                                    c: Conditions, g: map<string, string>, k: string)
    requires RoundTrips(codec) && Midway(f, us, decode, codec, c, g)
    ensures match Look(Visible(g, codec), k)
            case Some(v) => Look(Visible(f, codec), k) == Some(v) || Gives(us, decode, k, v)
            case None => k !in Visible(f, codec) || k !in Decoded(us, decode, |us|)
  {
    if n: nat :| n <= |us| && g == Written(f, us, decode, codec, c.onSet, n) {
      PrefixShowsOldOrNew(f, us, decode, codec, c, n, k);
    } else {
      var gone :| gone <= Leftovers(f, us, decode, codec) && g == Written(f, us, decode, codec, c.onSet, |us|) - gone;
      var w := Written(f, us, decode, codec, c.onSet, |us|);
      PrefixShowsOldOrNew(f, us, decode, codec, c, |us|, k);
      assert Visible(g, codec) == Visible(w, codec) - gone;
    }
  }

  /** Some decodable update gives `k` this value. */
  ghost predicate Gives<V>(us: seq<Update>, decode: Decoder<V>, k: string, v: V)
  {
    exists i: nat :: i < |us| && us[i].key == k && decode(us[i].value) == Ok(v)
  }

  lemma PrefixShowsOldOrNew<V(!new)>(f: map<string, string>, us: seq<Update>, decode: Decoder<V>, codec: Codec<V>,
                                     c: Conditions, n: nat, k: string)
    requires RoundTrips(codec) && n <= |us|
    ensures var seen := Look(Visible(Written(f, us, decode, codec, c.onSet, n), codec), k);
            seen == Look(Visible(f, codec), k) || (seen.Some? && Gives(us, decode, k, seen.value))
  {
    WrittenShows(f, us, decode, codec, c.onSet, k, n);
    LastStoredIsUpdate(us, decode, codec, c.onSet, k, n);
  }

  /** An update reaches the store iff it decodes, serializes and its write is not lost. */
  lemma StoredIff<V>(us: seq<Update>, decode: Decoder<V>, codec: Codec<V>, reply: nat -> Reply, i: nat)
    requires i < |us|
    ensures Stored(us, decode, codec, reply, i) <==>
            && decode(us[i].value).Ok? && codec.ser(decode(us[i].value).value).Ok?
            && (reply(i).Done? || reply(i).Unacknowledged?)
  {
  }

  /** A resync does not touch what it can neither decode nor is told about. */
  lemma {:induction false} UndecodableStays<V>(f: map<string, string>, us: seq<Update>, decode: Decoder<V>, codec: Codec<V>,
                                               c: Conditions, k: string, n: nat)
    requires n <= |us| && k in f && codec.de(f[k]).Err? && forall i: nat :: i < |us| ==> us[i].key != k
    ensures k in Written(f, us, decode, codec, c.onSet, n) && Written(f, us, decode, codec, c.onSet, n)[k] == f[k]
    ensures n == |us| ==> k in Reconcile(f, us, decode, codec, c) && Reconcile(f, us, decode, codec, c)[k] == f[k]
  {
    if n > 0 {
      UndecodableStays(f, us, decode, codec, c, k, n - 1);
    }
  }

  /** Every write in the batch takes effect. */
  ghost predicate NoStoreErrors<V>(us: seq<Update>, decode: Decoder<V>, codec: Codec<V>, c: Conditions)
  {
    && c.up
    && (forall i: nat :: i < |us| && decode(us[i].value).Ok? ==> Stored(us, decode, codec, c.onSet, i))
    && (forall k :: Applied(c.onDelete(k)))
  }

  lemma {:induction false} StoredIsSnapshot<V>(us: seq<Update>, decode: Decoder<V>, codec: Codec<V>,
                                               c: Conditions, k: string, n: nat)
    requires n <= |us| && NoStoreErrors(us, decode, codec, c)
    ensures LastStored(us, decode, codec, c.onSet, k, n) == LastDecodable(us, decode, k, n)
    ensures LastDecodable(us, decode, k, n).Some? <==> k in Decoded(us, decode, n)
  {
    if n > 0 {
      StoredIsSnapshot(us, decode, codec, c, k, n - 1);
      assert decode(us[n - 1].value).Ok? ==> Stored(us, decode, codec, c.onSet, n - 1);
      assert Decoded(us, decode, n) ==
             Decoded(us, decode, n - 1) + if decode(us[n - 1].value).Ok? then {us[n - 1].key} else {};
    }
  }

  /**
   Resync refinement: without store errors, what GetAll shows after a resync is
   exactly the streamed snapshot, whatever the hash held before.
   */
  lemma ResyncShowsSnapshot<V(!new)>(f: map<string, string>, b: Batch, decode: Decoder<V>, codec: Codec<V>, c: Conditions)
    requires RoundTrips(codec) && b.resync && NoStoreErrors(b.updates, decode, codec, c)
    ensures forall k :: Look(Visible(ApplyBatch(f, b, decode, codec, c), codec), k) == Snapshot(b, decode, k)
  {
    forall k
      ensures Look(Visible(ApplyBatch(f, b, decode, codec, c), codec), k) == Snapshot(b, decode, k)
    {
      ResyncEffect(f, b.updates, decode, codec, c, k);
      StoredIsSnapshot(b.updates, decode, codec, c, k, |b.updates|);
    }
  }

  lemma {:induction false} LastStoredIsUpdate<V>(us: seq<Update>, decode: Decoder<V>, codec: Codec<V>,
                                                 reply: nat -> Reply, k: string, n: nat)
    requires n <= |us|
    ensures var last := LastStored(us, decode, codec, reply, k, n);
            if last.Some?
            then exists i: nat :: i < n && us[i].key == k && decode(us[i].value) == Ok(last.value)
                                  && Stored(us, decode, codec, reply, i)
                                  && forall j: nat :: i < j < n && us[j].key == k ==> !Stored(us, decode, codec, reply, j)
            else forall i: nat :: i < n && us[i].key == k ==> !Stored(us, decode, codec, reply, i)
  {
    if n > 0 {
      LastStoredIsUpdate(us, decode, codec, reply, k, n - 1);
      var last := LastStored(us, decode, codec, reply, k, n - 1);
      if us[n - 1].key == k && Stored(us, decode, codec, reply, n - 1) {
        assert us[n - 1].key == k && decode(us[n - 1].value) == Ok(LastStored(us, decode, codec, reply, k, n).value);
      } else if last.Some? {
        var i: nat :| i < n - 1 && us[i].key == k && decode(us[i].value) == Ok(last.value)
                      && Stored(us, decode, codec, reply, i)
                      && forall j: nat :: i < j < n - 1 && us[j].key == k ==> !Stored(us, decode, codec, reply, j);
        assert i < n && us[i].key == k && decode(us[i].value) == Ok(last.value);
      }
    }
  }

  /** The entry survives a resync because all its own writes failed. */
  ghost predicate OwnWritesFailed<V>(us: seq<Update>, decode: Decoder<V>, codec: Codec<V>, c: Conditions, k: string)
  {
    if k in Decoded(us, decode, |us|)
    then forall i: nat :: i < |us| && us[i].key == k ==> !Stored(us, decode, codec, c.onSet, i)
    else !Applied(c.onDelete(k))
  }

  /**
   With writes failing in any pattern, a visible entry is a value the batch
   gives its key, or an old entry whose own Sets or Delete failed.
   */
  lemma FaultsStayLocal<V(!new)>(f: map<string, string>, b: Batch, decode: Decoder<V>, codec: Codec<V>,
                                 c: Conditions, k: string)
    requires RoundTrips(codec) && b.resync && c.up
    requires k in Visible(ApplyBatch(f, b, decode, codec, c), codec)
    ensures var v := Visible(ApplyBatch(f, b, decode, codec, c), codec)[k];
            || (exists i: nat :: i < |b.updates| && b.updates[i].key == k && decode(b.updates[i].value) == Ok(v))
            || (Look(Visible(f, codec), k) == Some(v) && OwnWritesFailed(b.updates, decode, codec, c, k))
  {
    ResyncEffect(f, b.updates, decode, codec, c, k);
    LastStoredIsUpdate(b.updates, decode, codec, c.onSet, k, |b.updates|);
  }

  // Sequences of batches

  function ApplyAll<V>(f: map<string, string>, bs: seq<Batch>, decode: Decoder<V>, codec: Codec<V>,
                       cs: seq<Conditions>): map<string, string>
    requires |bs| == |cs|
    decreases |bs|
  {
    if bs == [] then f
    else ApplyBatch(ApplyAll(f, bs[..|bs| - 1], decode, codec, cs[..|bs| - 1]),
                    bs[|bs| - 1], decode, codec, cs[|bs| - 1])
  }

  /**
   Over any sequence of batches the visible map is the snapshot of the last
   error-free resync followed by no other resync: earlier batches, their
   failures, the initial contents and later non-resync batches leave no trace.
   */
  lemma {:induction false} LastResyncWins<V(!new)>(f: map<string, string>, bs: seq<Batch>, decode: Decoder<V>,
                                                   codec: Codec<V>, cs: seq<Conditions>, last: nat)
    requires RoundTrips(codec) && last < |bs| == |cs|
    requires bs[last].resync && NoStoreErrors(bs[last].updates, decode, codec, cs[last])
    requires forall i: nat :: last < i < |bs| ==> !bs[i].resync
    ensures forall k :: Look(Visible(ApplyAll(f, bs, decode, codec, cs), codec), k) == Snapshot(bs[last], decode, k)
    decreases |bs|
  {
    var n := |bs| - 1;
    if last == n {
      ResyncShowsSnapshot(ApplyAll(f, bs[..n], decode, codec, cs[..n]), bs[last], decode, codec, cs[last]);
    } else {
      LastResyncWins(f, bs[..n], decode, codec, cs[..n], last);
      assert !bs[n].resync;
    }
  }

  /** Replaying a snapshot changes nothing a reader can see. */
  lemma ReplayIsIdempotent<V(!new)>(f: map<string, string>, b: Batch, decode: Decoder<V>, codec: Codec<V>,
                                    c: Conditions, c': Conditions)
    requires RoundTrips(codec)
    requires NoStoreErrors(b.updates, decode, codec, c) && NoStoreErrors(b.updates, decode, codec, c')
    ensures var once := ApplyBatch(f, b, decode, codec, c);
            Visible(ApplyBatch(once, b, decode, codec, c'), codec) == Visible(once, codec)
  {
    if b.resync {
      var once := ApplyBatch(f, b, decode, codec, c);
      var twice := ApplyBatch(once, b, decode, codec, c');
      ResyncShowsSnapshot(f, b, decode, codec, c);
      ResyncShowsSnapshot(once, b, decode, codec, c');
      assert forall k :: Look(Visible(twice, codec), k) == Look(Visible(once, codec), k);
      SameLooks(Visible(twice, codec), Visible(once, codec));
    }
  }

  lemma SameLooks<V>(m: map<string, V>, m': map<string, V>)
    requires forall k :: Look(m, k) == Look(m', k)
    ensures m == m'
  {
    forall k
      ensures k in m <==> k in m'
      ensures k in m ==> m[k] == m'[k]
    {
      assert Look(m, k) == Look(m', k);
    }
  }
}
