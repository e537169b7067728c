/**
  Gateway configuration descriptors and the single construction extension
  point (`createGateway`). The generic object factory the registry hands a
  descriptor to is not part of this model: it is a `Constructor` parameter,
  an arbitrary and possibly failing function.
 */
module GatewayConfig {
  import opened Wrappers

  /** A scalar value of a configuration entry (class name, purse, secret, ...). */
  datatype Value = Str(s: string) | Int(i: int) | Bool(b: bool) | Null

  /** A configuration record: a type tag and construction parameters, by key. */
  type Descriptor = map<string, Value>

  /** A constructed gateway. The registry never looks inside one; it only
      hands it back, so an opaque handle stands for the object's identity. */
  datatype Instance = Instance(handle: nat)

  /** Why the external factory refused a descriptor. */
  datatype ConfigError = ConfigError(reason: string)

  /** The external generic object factory. */
  type Constructor = Descriptor -> Result<Instance, ConfigError>

  /** The descriptor field that receives the registry key. */
  const IdKey: string := "id"

  /** `d` is `config` with its `id` field set to `id`: every configured key
      and `id` are present, `id` holds the key, every other field is kept. */
  predicate Keyed(config: Descriptor, id: string, d: Descriptor) {
    && d.Keys == config.Keys + {IdKey}
    && d[IdKey] == Str(id)
    && forall k :: k in config && k != IdKey ==> d[k] == config[k]
  }

  /** The descriptor with its `id` field set to the registry key: the key is
      added when absent and overrides any configured value when present. */
  function WithId(config: Descriptor, id: string): (d: Descriptor)
    ensures d.Keys == config.Keys + {IdKey}
    ensures d[IdKey] == Str(id)
    ensures forall k :: k in config && k != IdKey ==> d[k] == config[k]
  {
    config[IdKey := Str(id)]
  }

  /** Only one descriptor is `config` keyed by `id`. */
  lemma KeyedIsUnique(config: Descriptor, id: string, d: Descriptor)
    requires Keyed(config, id, d)
    ensures d == WithId(config, id)
  {
  }

  /** Builds the gateway registered under `id` from its configuration: the
      factory sees the configuration keyed by `id`, whatever `id` it held. */
  function CreateGateway(id: string, config: Descriptor, construct: Constructor): (r: Result<Instance, ConfigError>)
    ensures forall d :: Keyed(config, id, d) ==> r == construct(d)
  {
    assert forall d :: Keyed(config, id, d) ==> d == WithId(config, id) by {
      forall d | Keyed(config, id, d)
        ensures d == WithId(config, id)
      {
        KeyedIsUnique(config, id, d);
      }
    }
    construct(WithId(config, id))
  }

  /** Whatever `id` a configuration carries, the descriptor the factory
      receives depends only on the key: two configurations that differ at
      most in their `id` field are handed over as the same descriptor. */
  lemma KeyOverridesConfiguredId(id: string, c1: Descriptor, c2: Descriptor)
    requires c1 - {IdKey} == c2 - {IdKey}
    ensures WithId(c1, id) == WithId(c2, id)
  {
    var d1, d2 := WithId(c1, id), WithId(c2, id);
    forall k | k in d1
      ensures k in d2 && d1[k] == d2[k]
    {
      if k != IdKey {
        assert k in c1 - {IdKey};
      }
    }
    forall k | k in d2
      ensures k in d1
    {
      if k != IdKey {
        assert k in c2 - {IdKey};
      }
    }
    assert d1 == d2;
  }
}
