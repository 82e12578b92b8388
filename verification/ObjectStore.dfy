/** Typed object maps kept as strings in the hashes of one Redis client. */
module ObjectStore {
  import opened Prelude

  /** hash name -> field -> value. */
  type Store = map<string, map<string, string>>

  /** A write that returns no error, one that is lost, or one whose effect stands despite the error. */
  datatype Reply = Done | Lost | Unacknowledged

  predicate Applied(r: Reply)
  {
    !r.Lost?
  }

  function Fields(d: Store, hash: string): map<string, string>
  {
    if hash in d then d[hash] else map[]
  }

  /** A serializer and a deserializer. */
  datatype Codec<!V> = Codec(ser: V -> Result<string>, de: string -> Result<V>)

  /** Whatever the serializer accepts is read back as it was. */
  ghost predicate RoundTrips<V(!new)>(codec: Codec<V>)
  {
    forall v :: codec.ser(v).Ok? ==> codec.de(codec.ser(v).value) == Ok(v)
  }

  /** The entries GetAll can decode. */
  function Visible<V>(fields: map<string, string>, codec: Codec<V>): map<string, V>
  {
    map k | k in fields && codec.de(fields[k]).Ok? :: codec.de(fields[k]).value
  }

  /** The fields of a hash after a Set, and after a Delete. */
  function SetFields<V>(fields: map<string, string>, codec: Codec<V>, k: string, v: V, reply: Reply): map<string, string>
  {
    if codec.ser(v).Ok? && Applied(reply) then fields[k := codec.ser(v).value] else fields
  }

  function DeleteField(fields: map<string, string>, k: string, reply: Reply): map<string, string>
  {
    if Applied(reply) then fields - {k} else fields
  }

  class RedisClient {
    var data: Store

    constructor ()
      ensures data == map[]
    {
      data := map[];
    }

    method HSet(hash: string, field: string, value: string, reply: Reply) returns (ok: bool)
      modifies this
      ensures ok == reply.Done?
      ensures Fields(data, hash) == if reply.Lost? then Fields(old(data), hash) else Fields(old(data), hash)[field := value]
      ensures forall h :: h != hash ==> Fields(data, h) == Fields(old(data), h)
    {
      if Applied(reply) {
        data := data[hash := Fields(data, hash)[field := value]];
      }
      return reply.Done?;
    }

    /** A missing field is an error, as is an unreachable server. */
    method HGet(hash: string, field: string, up: bool) returns (r: Result<string>)
      ensures r == if up && field in Fields(data, hash) then Ok(Fields(data, hash)[field]) else Err
    {
      if up && field in Fields(data, hash) {
        return Ok(Fields(data, hash)[field]);
      }
      return Err;
    }

    method HGetAll(hash: string, up: bool) returns (r: Result<map<string, string>>)
      ensures r == if up then Ok(Fields(data, hash)) else Err
    {
      return if up then Ok(Fields(data, hash)) else Err;
    }

    method HDel(hash: string, field: string, reply: Reply) returns (ok: bool)
      modifies this
      ensures ok == reply.Done?
      ensures Fields(data, hash) == if reply.Lost? then Fields(old(data), hash) else Fields(old(data), hash) - {field}
      ensures forall h :: h != hash ==> Fields(data, h) == Fields(old(data), h)
    {
      if Applied(reply) {
        data := data[hash := Fields(data, hash) - {field}];
      }
      return reply.Done?;
    }
  }

  class RedisMap<V> {
    const client: RedisClient
    const hash: string
    const codec: Codec<V>

    constructor (client: RedisClient, hash: string, codec: Codec<V>)
      ensures this.client == client && this.hash == hash && this.codec == codec
    {
      this.client, this.hash, this.codec := client, hash, codec;
    }

    function Mine(): map<string, string>
      reads client
    {
      Fields(client.data, hash)
    }

    method Set(k: string, v: V, reply: Reply) returns (ok: bool)
      modifies client
      ensures ok == (codec.ser(v).Ok? && reply.Done?)
      ensures Mine() == SetFields(old(Mine()), codec, k, v, reply)
      ensures (Mine(), Status(ok)) == FieldStep(old(Mine()), codec, SetOp(hash, k, v, reply))
      ensures forall h :: h != hash ==> Fields(client.data, h) == Fields(old(client.data), h)
    {
      var s := codec.ser(v);
      if s.Err? {
        return false;
      }
      ok := client.HSet(hash, k, s.value, reply);
    }

    method Get(k: string, up: bool) returns (r: Result<V>)
      ensures r == if up && k in Visible(Mine(), codec) then Ok(Visible(Mine(), codec)[k]) else Err
      ensures (Mine(), One(r)) == FieldStep(Mine(), codec, GetOp(hash, k, up))
    {
      var s := client.HGet(hash, k, up);
      if s.Err? {
        return Err;
      }
      return codec.de(s.value);
    }

    method Delete(k: string, reply: Reply) returns (ok: bool)
      modifies client
      ensures ok == reply.Done?
      ensures Mine() == DeleteField(old(Mine()), k, reply)
      ensures (Mine(), Status(ok)) == FieldStep(old(Mine()), codec, DeleteOp(hash, k, reply))
      ensures forall h :: h != hash ==> Fields(client.data, h) == Fields(old(client.data), h)
    {
      ok := client.HDel(hash, k, reply);
    }

    method GetAll(up: bool) returns (r: Result<map<string, V>>)
      ensures r == if up then Ok(Visible(Mine(), codec)) else Err
      ensures (Mine(), All(r)) == FieldStep(Mine(), codec, GetAllOp(hash, up))
    {
      var all := client.HGetAll(hash, up);
      if all.Err? {
        return Err;
      }
      var vals: map<string, V> := map[];
      var left := all.value.Keys;
      while left != {}
        invariant left <= all.value.Keys
        invariant vals == map k | k in all.value && k !in left && codec.de(all.value[k]).Ok? :: codec.de(all.value[k]).value
        decreases left
      {
        var k :| k in left;
        left := left - {k};
        var v := codec.de(all.value[k]);
        if v.Ok? {
          vals := vals[k := v.value];
        }
      }
      assert vals == Visible(Mine(), codec);
      return Ok(vals);
    }

    /** Deletes field by field, also what GetAll cannot decode, and stops at the first error. */
    method DeleteAll(up: bool, reply: string -> Reply) returns (ok: bool, ghost removed: set<string>)
      modifies client
      ensures ok ==> up && Mine() == map[] && forall k <- old(Mine()) :: reply(k).Done?
      ensures !up ==> !ok && removed == {}
      ensures up && !ok ==> exists k <- old(Mine()) :: !reply(k).Done?
      ensures !ok ==> Mine() == old(Mine()) - removed && forall k <- removed :: !reply(k).Lost?
      ensures (Mine(), Status(ok)) == FieldStep(old(Mine()), codec, DeleteAllOp(hash, if ok then None else Some(removed)))
      ensures forall h :: h != hash ==> Fields(client.data, h) == Fields(old(client.data), h)
    {
      removed := {};
      var all := client.HGetAll(hash, up);
      if all.Err? {
        return false, removed;
      }
      var left := all.value.Keys;
      while left != {}
        invariant left <= old(Mine()).Keys
        invariant removed == old(Mine()).Keys - left
        invariant forall k <- removed :: reply(k).Done?
        invariant Mine() == old(Mine()) - removed
        invariant forall h :: h != hash ==> Fields(client.data, h) == Fields(old(client.data), h)
        decreases left
      {
        var k :| k in left;
        left := left - {k};
        ok := Delete(k, reply(k));
        if !ok {
          if Applied(reply(k)) {
            removed := removed + {k};
          }
          return;
        }
        removed := removed + {k};
      }
      assert removed == old(Mine()).Keys;
      return true, removed;
    }
  }

  // Refinement: string hashes behave as typed maps

  /** One RedisMap call on the map kept at `hash`. */
  datatype Op<V> =
    | SetOp(hash: string, k: string, v: V, reply: Reply)
    | GetOp(hash: string, k: string, up: bool)
    | DeleteOp(hash: string, k: string, reply: Reply)
    | GetAllOp(hash: string, up: bool)
    | DeleteAllOp(hash: string, removed: Option<set<string>>)  // None: complete; otherwise it failed having removed these

  datatype Response<V> = Status(ok: bool) | One(r: Result<V>) | All(m: Result<map<string, V>>)

  /** The call as RedisMap makes it, on the fields of its hash. */
  function FieldStep<V>(f: map<string, string>, c: Codec<V>, op: Op<V>): (map<string, string>, Response<V>)
  {
    match op
    case SetOp(_, k, v, reply) => (SetFields(f, c, k, v, reply), Status(c.ser(v).Ok? && reply.Done?))
    case GetOp(_, k, up) => (f, One(if up && k in f then c.de(f[k]) else Err))
    case DeleteOp(_, k, reply) => (DeleteField(f, k, reply), Status(reply.Done?))
    case GetAllOp(_, up) => (f, All(if up then Ok(Visible(f, c)) else Err))
    case DeleteAllOp(_, removed) => (if removed.None? then map[] else f - removed.value, Status(removed.None?))
  }

  function StringStep<V>(d: Store, codec: string -> Codec<V>, op: Op<V>): (Store, Response<V>)
  {
    var (f, r) := FieldStep(Fields(d, op.hash), codec(op.hash), op);
    (d[op.hash := f], r)
  }

  /** One typed map per hash. */
  type Typed<V> = map<string, map<string, V>>

  function Entries<V>(m: Typed<V>, hash: string): map<string, V>
  {
    if hash in m then m[hash] else map[]
  }

  /** The reference: the same call on a typed map. */
  function EntryStep<V>(e: map<string, V>, c: Codec<V>, op: Op<V>): (map<string, V>, Response<V>)
  {
    match op
    case SetOp(_, k, v, reply) =>
      var storable := c.ser(v).Ok?;
      (if storable && !reply.Lost? then e[k := v] else e, Status(storable && reply.Done?))
    case GetOp(_, k, up) => (e, One(if up && k in e then Ok(e[k]) else Err))
    case DeleteOp(_, k, reply) => (if reply.Lost? then e else e - {k}, Status(reply.Done?))
    case GetAllOp(_, up) => (e, All(if up then Ok(e) else Err))
    case DeleteAllOp(_, removed) => (if removed.None? then map[] else e - removed.value, Status(removed.None?))
  }

  function TypedStep<V>(m: Typed<V>, codec: string -> Codec<V>, op: Op<V>): (Typed<V>, Response<V>)
  {
    var (e, r) := EntryStep(Entries(m, op.hash), codec(op.hash), op);
    (m[op.hash := e], r)
  }

  ghost predicate Represents<V>(d: Store, codec: string -> Codec<V>, m: Typed<V>)
  {
    forall h :: Visible(Fields(d, h), codec(h)) == Entries(m, h)
  }

  lemma VisibleSet<V(!new)>(f: map<string, string>, c: Codec<V>, k: string, v: V, reply: Reply)
    requires RoundTrips(c)
    ensures Visible(SetFields(f, c, k, v, reply), c) ==
            if c.ser(v).Ok? && Applied(reply) then Visible(f, c)[k := v] else Visible(f, c)
  {
  }

  lemma VisibleWithout<V>(f: map<string, string>, c: Codec<V>, gone: set<string>)
    ensures Visible(f - gone, c) == Visible(f, c) - gone
  {
  }

  lemma FieldStepRefines<V(!new)>(f: map<string, string>, c: Codec<V>, op: Op<V>)
    requires RoundTrips(c)
    ensures FieldStep(f, c, op).1 == EntryStep(Visible(f, c), c, op).1
    ensures Visible(FieldStep(f, c, op).0, c) == EntryStep(Visible(f, c), c, op).0
  {
    match op {
      case SetOp(_, k, v, reply) => VisibleSet(f, c, k, v, reply);
      case GetOp(_, k, up) =>
      case DeleteOp(_, k, reply) => VisibleWithout(f, c, {k});
      case GetAllOp(_, up) =>
      case DeleteAllOp(_, removed) =>
        if removed.Some? {
          VisibleWithout(f, c, removed.value);
        }
    }
  }

  lemma StepRefines<V(!new)>(d: Store, codec: string -> Codec<V>, m: Typed<V>, op: Op<V>)
    requires RoundTrips(codec(op.hash)) && Represents(d, codec, m)
    ensures StringStep(d, codec, op).1 == TypedStep(m, codec, op).1
    ensures Represents(StringStep(d, codec, op).0, codec, TypedStep(m, codec, op).0)
  {
    var d', m' := StringStep(d, codec, op).0, TypedStep(m, codec, op).0;
    FieldStepRefines(Fields(d, op.hash), codec(op.hash), op);
    forall h
      ensures Visible(Fields(d', h), codec(h)) == Entries(m', h)
    {
      assert Visible(Fields(d, h), codec(h)) == Entries(m, h);
    }
  }

  function RunStrings<V>(d: Store, codec: string -> Codec<V>, ops: seq<Op<V>>): (Store, seq<Response<V>>)
    decreases |ops|
  {
    if ops == [] then (d, [])
    else
      var (d1, r) := StringStep(d, codec, ops[0]);
      var (d2, rs) := RunStrings(d1, codec, ops[1..]);
      (d2, [r] + rs)
  }

  function RunTyped<V>(m: Typed<V>, codec: string -> Codec<V>, ops: seq<Op<V>>): (Typed<V>, seq<Response<V>>)
    decreases |ops|
  {
    if ops == [] then (m, [])
    else
      var (m1, r) := TypedStep(m, codec, ops[0]);
      var (m2, rs) := RunTyped(m1, codec, ops[1..]);
      (m2, [r] + rs)
  }

  /** Every sequence of calls gives on the string store the answers a typed map gives. */
  lemma {:induction false} StoreRefinesTypedMaps<V(!new)>(d: Store, codec: string -> Codec<V>, m: Typed<V>, ops: seq<Op<V>>)
    requires forall h :: RoundTrips(codec(h))
    requires Represents(d, codec, m)
    ensures RunStrings(d, codec, ops).1 == RunTyped(m, codec, ops).1
    ensures Represents(RunStrings(d, codec, ops).0, codec, RunTyped(m, codec, ops).0)
    decreases |ops|
  {
    if ops != [] {
      StepRefines(d, codec, m, ops[0]);
      StoreRefinesTypedMaps(StringStep(d, codec, ops[0]).0, codec, TypedStep(m, codec, ops[0]).0, ops[1..]);
    }
  }

  /** The responses of the calls on one hash, in order. */
  function ResponsesOn<V>(ops: seq<Op<V>>, rs: seq<Response<V>>, hash: string): seq<Response<V>>
    requires |ops| == |rs|
  {
    if ops == [] then []
    else (if ops[0].hash == hash then [rs[0]] else []) + ResponsesOn(ops[1..], rs[1..], hash)
  }

  function OpsOn<V>(ops: seq<Op<V>>, hash: string): seq<Op<V>>
  {
    if ops == [] then []
    else (if ops[0].hash == hash then [ops[0]] else []) + OpsOn(ops[1..], hash)
  }

  lemma {:induction false} ResponseCount<V>(d: Store, codec: string -> Codec<V>, ops: seq<Op<V>>)
    ensures |RunStrings(d, codec, ops).1| == |ops|
    decreases |ops|
  {
    if ops != [] {
      ResponseCount(StringStep(d, codec, ops[0]).0, codec, ops[1..]);
    }
  }

  /**
   Maps on different hashes of one client do not affect each other: a map's
   contents and answers are those of its own calls run alone.
   */
  lemma {:induction false} HashesAreIndependent<V>(d: Store, e: Store, codec: string -> Codec<V>, ops: seq<Op<V>>, hash: string)
    requires Fields(d, hash) == Fields(e, hash)
    ensures |RunStrings(d, codec, ops).1| == |ops|
    ensures Fields(RunStrings(d, codec, ops).0, hash) == Fields(RunStrings(e, codec, OpsOn(ops, hash)).0, hash)
    ensures ResponsesOn(ops, RunStrings(d, codec, ops).1, hash) == RunStrings(e, codec, OpsOn(ops, hash)).1
    decreases |ops|
  {
    ResponseCount(d, codec, ops);
    if ops != [] {
      var op := ops[0];
      var d1 := StringStep(d, codec, op).0;
      assert RunStrings(d, codec, ops).1[1..] == RunStrings(d1, codec, ops[1..]).1;
      if op.hash == hash {
        HashesAreIndependent(d1, StringStep(e, codec, op).0, codec, ops[1..], hash);
        assert OpsOn(ops, hash)[1..] == OpsOn(ops[1..], hash);
      } else {
        HashesAreIndependent(d1, e, codec, ops[1..], hash);
        assert OpsOn(ops, hash) == OpsOn(ops[1..], hash);
      }
    }
  }
}
