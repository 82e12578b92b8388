/** The stored objects and their serializers. Protobuf itself is a parameter. */
module Serializers {
  import opened Prelude
  import opened ObjectStore

  datatype TrackingType = OnlyOcs | OnlyPcrf | OcsAndPcrf | NoTracking

  /** `rest` stands for the fields no query looks at. */
  datatype PolicyRule = PolicyRule(id: string, ratingGroup: nat, serviceIdentifier: Option<nat>,
                                   trackingType: TrackingType, rest: string)

  /** Go's interface{}, as far as the three maps use it. */
  datatype Object =
    | Policy(rule: PolicyRule)
    | NameSet(ruleNames: seq<string>)
    | Assigned(policies: seq<string>, baseNames: seq<string>)

  /** The envelope around every stored message. */
  datatype RedisState = RedisState(serializedMsg: string, version: nat, isGarbage: bool)

  /** getRedisStateSerializer and getRedisStateDeserializer. */
  function InRedisState<V>(inner: Codec<V>, state: Codec<RedisState>): Codec<V>
  {
    Codec(v => match inner.ser(v)
               case Err => Err
               case Ok(s) => state.ser(RedisState(s, 0, false)),
          s => match state.de(s)
               case Err => Err
               case Ok(r) => inner.de(r.serializedMsg))
  }

  /** The wrapped pair is a round trip as soon as both protobuf pairs are. */
  lemma InRedisStateRoundTrips<V(!new)>(inner: Codec<V>, state: Codec<RedisState>)
    requires RoundTrips(inner) && RoundTrips(state)
    ensures RoundTrips(InRedisState(inner, state))
    ensures forall v :: InRedisState(inner, state).ser(v).Ok? ==>
              && inner.ser(v).Ok?
              && state.de(InRedisState(inner, state).ser(v).value) == Ok(RedisState(inner.ser(v).value, 0, false))
  {
    var c := InRedisState(inner, state);
    forall v | c.ser(v).Ok?
      ensures c.de(c.ser(v).value) == Ok(v) && inner.ser(v).Ok?
      ensures state.de(c.ser(v).value) == Ok(RedisState(inner.ser(v).value, 0, false))
    {
      assert state.de(c.ser(v).value) == Ok(RedisState(inner.ser(v).value, 0, false));
    }
  }

  /** What a protobuf unmarshaller yields, as an object. */
  function Decode<T>(proto: Codec<T>, inject: T -> Object): string -> Result<Object>
  {
    s => match proto.de(s) case Err => Err case Ok(t) => Ok(inject(t))
  }

  /** Serializers refuse an object of another type. */
  function ObjectCodec<T>(proto: Codec<T>, inject: T -> Object, cast: Object -> Option<T>): Codec<Object>
  {
    Codec(o => match cast(o) case None => Err case Some(t) => proto.ser(t), Decode(proto, inject))
  }

  lemma ObjectCodecRoundTrips<T(!new)>(proto: Codec<T>, inject: T -> Object, cast: Object -> Option<T>)
    requires RoundTrips(proto) && forall o :: cast(o).Some? ==> inject(cast(o).value) == o
    ensures RoundTrips(ObjectCodec(proto, inject, cast))
  {
  }

  lemma ObjectCodecAcceptsIff<T>(proto: Codec<T>, inject: T -> Object, cast: Object -> Option<T>, o: Object)
    ensures ObjectCodec(proto, inject, cast).ser(o) == if cast(o).Some? then proto.ser(cast(o).value) else Err
  {
    match cast(o) {
      case None =>
      case Some(t) =>
    }
  }

  function CastPolicy(o: Object): Option<PolicyRule>
  {
    if o.Policy? then Some(o.rule) else None
  }

  function CastNames(o: Object): Option<seq<string>>
  {
    if o.NameSet? then Some(o.ruleNames) else None
  }

  function InjectPolicy(t: PolicyRule): Object
  {
    Policy(t)
  }

  function InjectNames(t: seq<string>): Object
  {
    NameSet(t)
  }

  function PolicyDecoder(proto: Codec<PolicyRule>): string -> Result<Object>
  {
    Decode(proto, InjectPolicy)
  }

  function NamesDecoder(proto: Codec<seq<string>>): string -> Result<Object>
  {
    Decode(proto, InjectNames)
  }

  function PolicyCodec(proto: Codec<PolicyRule>, state: Codec<RedisState>): Codec<Object>
  {
    InRedisState(ObjectCodec(proto, InjectPolicy, CastPolicy), state)
  }

  function NamesCodec(proto: Codec<seq<string>>, state: Codec<RedisState>): Codec<Object>
  {
    InRedisState(ObjectCodec(proto, InjectNames, CastNames), state)
  }

  /** A stored codec takes exactly the objects of its own type that protobuf can marshal, twice. */
  lemma StoredCodecsAcceptIff(policy: Codec<PolicyRule>, names: Codec<seq<string>>, state: Codec<RedisState>, o: Object)
    ensures PolicyCodec(policy, state).ser(o).Ok? <==>
            o.Policy? && policy.ser(o.rule).Ok? && state.ser(RedisState(policy.ser(o.rule).value, 0, false)).Ok?
    ensures NamesCodec(names, state).ser(o).Ok? <==>
            o.NameSet? && names.ser(o.ruleNames).Ok? && state.ser(RedisState(names.ser(o.ruleNames).value, 0, false)).Ok?
  {
    ObjectCodecAcceptsIff(policy, InjectPolicy, CastPolicy, o);
    ObjectCodecAcceptsIff(names, InjectNames, CastNames, o);
    assert CastPolicy(o) == if o.Policy? then Some(o.rule) else None;
    assert CastNames(o) == if o.NameSet? then Some(o.ruleNames) else None;
  }

  /** The policy and base-name codecs are round trips given protobuf's. */
  lemma StoredCodecsRoundTrip(policy: Codec<PolicyRule>, names: Codec<seq<string>>, state: Codec<RedisState>)
    requires RoundTrips(policy) && RoundTrips(names) && RoundTrips(state)
    ensures RoundTrips(PolicyCodec(policy, state)) && RoundTrips(NamesCodec(names, state))
  {
    ObjectCodecRoundTrips(policy, InjectPolicy, CastPolicy);
    ObjectCodecRoundTrips(names, InjectNames, CastNames);
    InRedisStateRoundTrips(ObjectCodec(policy, InjectPolicy, CastPolicy), state);
    InRedisStateRoundTrips(ObjectCodec(names, InjectNames, CastNames), state);
  }
}

/** Queries over the stored policies. */
module PolicyDb {
  import opened Prelude
  import opened ObjectStore
  import opened Serializers
  import opened Streamer

  datatype ChargingKey = ChargingKey(ratingGroup: nat, serviceIdTracking: bool, serviceIdentifier: nat)

  /** The key keeps the rating group, and the service identifier can be told from its absence. */
  function CreateChargingKey(rule: PolicyRule): (key: ChargingKey)
    ensures key.ratingGroup == rule.ratingGroup
    ensures rule.serviceIdentifier == if key.serviceIdTracking then Some(key.serviceIdentifier) else None
    ensures !key.serviceIdTracking ==> key.serviceIdentifier == 0
  {
    match rule.serviceIdentifier
    case None => ChargingKey(rule.ratingGroup, false, 0)
    case Some(sid) => ChargingKey(rule.ratingGroup, true, sid)
  }

  predicate NeedsCharging(rule: PolicyRule)
  {
    rule.trackingType.OnlyOcs? || rule.trackingType.OcsAndPcrf?
  }

  /** The charging keys of one rule: one, or none for a rule only tracked by the PCRF or not at all. */
  function KeysOf(rule: Option<PolicyRule>): (keys: seq<ChargingKey>)
    ensures |keys| <= 1
    ensures keys == [] <==> rule.None? || rule.value.trackingType.OnlyPcrf? || rule.value.trackingType.NoTracking?
    ensures keys != [] ==> keys[0].ratingGroup == rule.value.ratingGroup
    ensures keys != [] ==> rule.value.serviceIdentifier ==
                           if keys[0].serviceIdTracking then Some(keys[0].serviceIdentifier) else None
    ensures keys != [] && !keys[0].serviceIdTracking ==> keys[0].serviceIdentifier == 0
  {
    if rule.Some? && NeedsCharging(rule.value) then [CreateChargingKey(rule.value)] else []
  }

  /** Concatenates what each element contributes, in order; `f` also sees the position. */
  function FlatMap<A, B>(xs: seq<A>, f: (nat, A) -> seq<B>): seq<B>
  {
    if xs == [] then []
    else FlatMap(xs[..|xs| - 1], f) + f(|xs| - 1, xs[|xs| - 1])
  }

  /** How much the elements before the i-th contribute together. */
  function Offset<A, B>(xs: seq<A>, f: (nat, A) -> seq<B>, i: nat): nat
    requires i <= |xs|
  {
    if i == 0 then 0 else Offset(xs, f, i - 1) + |f(i - 1, xs[i - 1])|
  }

  lemma {:induction false} OffsetPrefix<A, B>(xs: seq<A>, f: (nat, A) -> seq<B>, n: nat, i: nat)
    requires i <= n <= |xs|
    ensures Offset(xs[..n], f, i) == Offset(xs, f, i)
  {
    if i > 0 {
      OffsetPrefix(xs, f, n, i - 1);
    }
  }

  lemma {:induction false} FlatMapLength<A, B>(xs: seq<A>, f: (nat, A) -> seq<B>)
    ensures |FlatMap(xs, f)| == Offset(xs, f, |xs|)
    decreases |xs|
  {
    if xs != [] {
      FlatMapLength(xs[..|xs| - 1], f);
      OffsetPrefix(xs, f, |xs| - 1, |xs| - 1);
    }
  }

  /** The first i elements contribute the front of the result. */
  lemma {:induction false} FlatMapFront<A, B>(xs: seq<A>, f: (nat, A) -> seq<B>, i: nat)
    requires i <= |xs|
    ensures FlatMap(xs[..i], f) <= FlatMap(xs, f)
    decreases |xs|
  {
    if i == |xs| {
      assert xs[..i] == xs;
    } else {
      var front := xs[..|xs| - 1];
      FlatMapFront(front, f, i);
      assert front[..i] == xs[..i];
    }
  }

  /**
   In order and without gaps: the contribution of the i-th element stands right
   behind those of the elements before it, and nothing comes after the last.
   */
  lemma FlatMapInOrder<A, B>(xs: seq<A>, f: (nat, A) -> seq<B>, i: nat)
    requires i < |xs|
    ensures Offset(xs, f, 0) == 0 && Offset(xs, f, i + 1) == Offset(xs, f, i) + |f(i, xs[i])|
    ensures Offset(xs, f, i + 1) <= |FlatMap(xs, f)| == Offset(xs, f, |xs|)
    ensures FlatMap(xs, f)[Offset(xs, f, i)..Offset(xs, f, i + 1)] == f(i, xs[i])
  {
    var upTo := FlatMap(xs[..i + 1], f);
    assert xs[..i + 1][..i] == xs[..i];
    FlatMapLength(xs, f);
    FlatMapLength(xs[..i], f);
    FlatMapLength(xs[..i + 1], f);
    OffsetPrefix(xs, f, i, i);
    OffsetPrefix(xs, f, i + 1, i + 1);
    FlatMapFront(xs, f, i + 1);
    assert upTo == FlatMap(xs[..i], f) + f(i, xs[i]);
    assert FlatMap(xs, f)[..|upTo|] == upTo;
    assert FlatMap(xs, f)[..|upTo|][Offset(xs, f, i)..] == f(i, xs[i]);
  }

  /** An entry, when the store answers the i-th read. */
  function Read<V>(m: map<string, V>, up: bool, k: string): Option<V>
  {
    if up then Look(m, k) else None
  }

  function PolicyIn(m: map<string, Object>, up: bool, id: string): Option<PolicyRule>
  {
    match Read(m, up, id) case None => None case Some(o) => CastPolicy(o)
  }

  function NamesIn(m: map<string, Object>, up: bool, name: string): seq<string>
  {
    match Read(m, up, name)
    case None => []
    case Some(o) => match CastNames(o) case None => [] case Some(ns) => ns
  }

  /** What the i-th static rule id, base name and dynamic rule contribute. */
  function StaticKeys(ps: map<string, Object>, up: nat -> bool): (nat, string) -> seq<ChargingKey>
  {
    (i: nat, id) => KeysOf(PolicyIn(ps, up(i), id))
  }

  function NamedRules(ns: map<string, Object>, up: nat -> bool): (nat, string) -> seq<string>
  {
    (i: nat, b) => NamesIn(ns, up(i), b)
  }

  function DynamicKeys(): (nat, PolicyRule) -> seq<ChargingKey>
  {
    (i, rule) => KeysOf(Some(rule))
  }

  /** A static rule contributes the keys of its visible policy, a base name the names of its visible set. */
  lemma Contributions(ps: map<string, Object>, ns: map<string, Object>, up: nat -> bool, i: nat, k: string)
    ensures StaticKeys(ps, up)(i, k) == if up(i) && k in ps && ps[k].Policy? then KeysOf(Some(ps[k].rule)) else []
    ensures NamedRules(ns, up)(i, k) == if up(i) && k in ns && ns[k].NameSet? then ns[k].ruleNames else []
  {
  }

  class RedisPolicyDBClient {
    const redis: RedisClient
    const policyProto: Codec<PolicyRule>
    const namesProto: Codec<seq<string>>
    const policyMap: RedisMap<Object>
    const baseNameMap: RedisMap<Object>
    const omnipresentRules: RedisMap<Object>

    constructor (redis: RedisClient, policy: Codec<PolicyRule>, names: Codec<seq<string>>,
                 assignment: Codec<Object>, state: Codec<RedisState>)
      ensures this.redis == redis && policyProto == policy && namesProto == names
      ensures policyMap.client == redis && policyMap.hash == "policydb:rules"
      ensures baseNameMap.client == redis && baseNameMap.hash == "policydb:base_names"
      ensures omnipresentRules.client == redis && omnipresentRules.hash == "policydb:omnipresent_rules"
      ensures policyMap.codec == PolicyCodec(policy, state)
      ensures baseNameMap.codec == NamesCodec(names, state)
      ensures omnipresentRules.codec == InRedisState(assignment, state)
      ensures Wired(state)
    {
      this.redis, policyProto, namesProto := redis, policy, names;
      policyMap := new RedisMap(redis, "policydb:rules", PolicyCodec(policy, state));
      baseNameMap := new RedisMap(redis, "policydb:base_names", NamesCodec(names, state));
      omnipresentRules := new RedisMap(redis, "policydb:omnipresent_rules", InRedisState(assignment, state));
    }

    /** What readers of a map see. */
    function Policies(): map<string, Object>
      reads policyMap.client
    {
      Visible(policyMap.Mine(), policyMap.codec)
    }

    function BaseNames(): map<string, Object>
      reads baseNameMap.client
    {
      Visible(baseNameMap.Mine(), baseNameMap.codec)
    }

    method GetPolicyRuleByID(id: string, up: bool) returns (r: Result<PolicyRule>)
      ensures r == match PolicyIn(Policies(), up, id) case None => Err case Some(p) => Ok(p)
      ensures r.Ok? <==> up && id in Policies() && Policies()[id].Policy?
      ensures r.Ok? ==> Policies()[id] == Policy(r.value)
    {
      var raw := policyMap.Get(id, up);
      if raw.Err? {
        return Err;
      }
      if !raw.value.Policy? {
        return Err;
      }
      return Ok(raw.value.rule);
    }

    /** `up(i)` says whether the i-th lookup reaches the store. */
    method GetChargingKeysForRules(ids: seq<string>, dynamicRules: seq<PolicyRule>, up: nat -> bool)
      returns (keys: seq<ChargingKey>)
      ensures keys == FlatMap(ids, StaticKeys(Policies(), up)) + FlatMap(dynamicRules, DynamicKeys())
    {
      keys := [];
      for i := 0 to |ids|
        invariant keys == FlatMap(ids[..i], StaticKeys(Policies(), up))
      {
        assert ids[..i + 1][..i] == ids[..i];
        var policy := GetPolicyRuleByID(ids[i], up(i));
        if policy.Err? {
          continue;
        }
        if NeedsCharging(policy.value) {
          keys := keys + [CreateChargingKey(policy.value)];
        }
      }
      assert ids[..|ids|] == ids;
      ghost var front := keys;
      for i := 0 to |dynamicRules|
        invariant keys == front + FlatMap(dynamicRules[..i], DynamicKeys())
      {
        assert dynamicRules[..i + 1][..i] == dynamicRules[..i];
        if NeedsCharging(dynamicRules[i]) {
          keys := keys + [CreateChargingKey(dynamicRules[i])];
        }
      }
      assert dynamicRules[..|dynamicRules|] == dynamicRules;
    }

    method GetRuleIDsForBaseNames(baseNames: seq<string>, up: nat -> bool) returns (ids: seq<string>)
      ensures ids == FlatMap(baseNames, NamedRules(BaseNames(), up))
    {
      ids := [];
      for i := 0 to |baseNames|
        invariant ids == FlatMap(baseNames[..i], NamedRules(BaseNames(), up))
      {
        assert baseNames[..i + 1][..i] == baseNames[..i];
        var raw := baseNameMap.Get(baseNames[i], up(i));
        if raw.Err? {
          continue;
        }
        if !raw.value.NameSet? {
          continue;
        }
        ids := ids + raw.value.ruleNames;
      }
      assert baseNames[..|baseNames|] == baseNames;
    }

    /** The lists of some visible entry; empty when there is none or it is of another type. */
    method GetOmnipresentRules(up: bool) returns (policies: seq<string>, baseNames: seq<string>)
      ensures var all := Visible(omnipresentRules.Mine(), omnipresentRules.codec);
              if up && all != map[]
              then exists k <- all :: if all[k].Assigned? then Assigned(policies, baseNames) == all[k]
                                      else policies == [] && baseNames == []
              else policies == [] && baseNames == []
    {
      var all := omnipresentRules.GetAll(up);
      if all.Err? || all.value.Keys == {} {
        return [], [];
      }
      var k :| k in all.value.Keys;
      if !all.value[k].Assigned? {
        return [], [];
      }
      return all.value[k].policies, all.value[k].baseNames;
    }

    /** The maps live in their own hashes of one Redis client and use the wrapped codecs. */
    ghost predicate Wired(state: Codec<RedisState>)
    {
      && policyMap.client == redis && policyMap.hash == "policydb:rules"
      && baseNameMap.client == redis && baseNameMap.hash == "policydb:base_names"
      && policyMap.codec == PolicyCodec(policyProto, state) && baseNameMap.codec == NamesCodec(namesProto, state)
    }

    /** The listeners of the base-name and policy streams take one batch each. */
    method Sync(names: Batch, policies: Batch, onNames: Conditions, onPolicies: Conditions, ghost state: Codec<RedisState>)
      requires Wired(state)
      modifies redis
      ensures baseNameMap.Mine() == ApplyBatch(old(baseNameMap.Mine()), names, NamesDecoder(namesProto),
                                               baseNameMap.codec, onNames)
      ensures policyMap.Mine() == ApplyBatch(old(policyMap.Mine()), policies, PolicyDecoder(policyProto),
                                             policyMap.codec, onPolicies)
    {
      assert "policydb:rules"[9] != "policydb:base_names"[9];
      var nameListener := new StoredObjectListener(baseNameMap, NamesDecoder(namesProto));
      var _ := nameListener.Update(names, onNames);
      var policyListener := new StoredObjectListener(policyMap, PolicyDecoder(policyProto));
      var _ := policyListener.Update(policies, onPolicies);
    }

    /** Both streams resync into one Redis, then a session's base names are charged. */
    method ResyncAndCharge(names: Batch, policies: Batch, onNames: Conditions, onPolicies: Conditions,
                           ghost state: Codec<RedisState>, baseNames: seq<string>, dynamicRules: seq<PolicyRule>)
      returns (keys: seq<ChargingKey>)
      requires Wired(state)
      requires RoundTrips(policyProto) && RoundTrips(namesProto) && RoundTrips(state)
      requires names.resync && policies.resync
      requires NoStoreErrors(names.updates, NamesDecoder(namesProto), baseNameMap.codec, onNames)
      requires NoStoreErrors(policies.updates, PolicyDecoder(policyProto), policyMap.codec, onPolicies)
      modifies redis
      ensures keys == DirectKeys(names, policies, namesProto, policyProto, baseNames, dynamicRules)
    {
      ghost var ns, ps := baseNameMap.Mine(), policyMap.Mine();
      Sync(names, policies, onNames, onPolicies, state);
      var up := (i: nat) => true;
      var ids := GetRuleIDsForBaseNames(baseNames, up);
      keys := GetChargingKeysForRules(ids, dynamicRules, up);
      ChargingFollowsSnapshots(ns, ps, names, policies, namesProto, policyProto, state, onNames, onPolicies,
                               baseNames, dynamicRules, up);
    }
  }

  // End to end

  /** The rule names and the rule the snapshots give for a key. */
  function StreamedNames(b: Batch, proto: Codec<seq<string>>, name: string): seq<string>
  {
    match Snapshot(b, NamesDecoder(proto), name)
    case None => []
    case Some(o) => match CastNames(o) case None => [] case Some(ns) => ns
  }

  function StreamedPolicy(b: Batch, proto: Codec<PolicyRule>, id: string): Option<PolicyRule>
  {
    match Snapshot(b, PolicyDecoder(proto), id) case None => None case Some(o) => CastPolicy(o)
  }

  function StreamedKeys(b: Batch, proto: Codec<PolicyRule>): (nat, string) -> seq<ChargingKey>
  {
    (i, id) => KeysOf(StreamedPolicy(b, proto, id))
  }

  function StreamedRules(b: Batch, proto: Codec<seq<string>>): (nat, string) -> seq<string>
  {
    (i, name) => StreamedNames(b, proto, name)
  }

  /** The reference: charging keys computed from the streamed snapshots alone. */
  function DirectKeys(names: Batch, policies: Batch, namesProto: Codec<seq<string>>, policyProto: Codec<PolicyRule>,
                      baseNames: seq<string>, dynamicRules: seq<PolicyRule>): seq<ChargingKey>
  {
    FlatMap(FlatMap(baseNames, StreamedRules(names, namesProto)), StreamedKeys(policies, policyProto))
    + FlatMap(dynamicRules, DynamicKeys())
  }

  lemma {:induction false} FlatMapSame<A(!new), B>(xs: seq<A>, f: (nat, A) -> seq<B>, g: (nat, A) -> seq<B>)
    requires forall i: nat, x :: f(i, x) == g(i, x)
    ensures FlatMap(xs, f) == FlatMap(xs, g)
    decreases |xs|
  {
    if xs != [] {
      FlatMapSame(xs[..|xs| - 1], f, g);
    }
  }

  /**
   End to end: after error-free resyncs of both streams, from any earlier store,
   the keys charged for a list of base names equal, in order and with
   multiplicity, those computed directly from the two snapshots.
   */
  lemma ChargingFollowsSnapshots(nameFields: map<string, string>, policyFields: map<string, string>,
                                 names: Batch, policies: Batch,
                                 namesProto: Codec<seq<string>>, policyProto: Codec<PolicyRule>, state: Codec<RedisState>,
                                 onNames: Conditions, onPolicies: Conditions,
                                 baseNames: seq<string>, dynamicRules: seq<PolicyRule>, up: nat -> bool)
    requires RoundTrips(policyProto) && RoundTrips(namesProto) && RoundTrips(state)
    requires names.resync && policies.resync && forall i :: up(i)
    requires NoStoreErrors(names.updates, NamesDecoder(namesProto), NamesCodec(namesProto, state), onNames)
    requires NoStoreErrors(policies.updates, PolicyDecoder(policyProto), PolicyCodec(policyProto, state), onPolicies)
    ensures var nc, pc := NamesCodec(namesProto, state), PolicyCodec(policyProto, state);
            var ns := Visible(ApplyBatch(nameFields, names, NamesDecoder(namesProto), nc, onNames), nc);
            var ps := Visible(ApplyBatch(policyFields, policies, PolicyDecoder(policyProto), pc, onPolicies), pc);
            FlatMap(FlatMap(baseNames, NamedRules(ns, up)), StaticKeys(ps, up)) + FlatMap(dynamicRules, DynamicKeys())
            == DirectKeys(names, policies, namesProto, policyProto, baseNames, dynamicRules)
  {
    var nc, pc := NamesCodec(namesProto, state), PolicyCodec(policyProto, state);
    var nd, pd := NamesDecoder(namesProto), PolicyDecoder(policyProto);
    StoredCodecsRoundTrip(policyProto, namesProto, state);
    ResyncShowsSnapshot(nameFields, names, nd, nc, onNames);
    ResyncShowsSnapshot(policyFields, policies, pd, pc, onPolicies);
    var ns := Visible(ApplyBatch(nameFields, names, nd, nc, onNames), nc);
    var ps := Visible(ApplyBatch(policyFields, policies, pd, pc, onPolicies), pc);
    FlatMapSame(baseNames, NamedRules(ns, up), StreamedRules(names, namesProto));
    var ids := FlatMap(baseNames, StreamedRules(names, namesProto));
    FlatMapSame(ids, StaticKeys(ps, up), StreamedKeys(policies, policyProto));
  }
}
