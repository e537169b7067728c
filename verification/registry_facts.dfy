/**
  Properties of the gateway registry that relate several operations or
  several calls: lookup errors, memoisation, monotone resolution, and the
  agreement of the bulk lookup with single lookups.
 */
module GatewayRegistryFacts {
  import opened Wrappers
  import opened GatewayConfig
  import opened GatewayRegistry

  /** Replacing the store keeps nothing of the store it replaces. */
  lemma SetGatewaysForgetsPrevious(a: Table, b: Table, gateways: Table)
    ensures SetGateways(a, gateways) == SetGateways(b, gateways)
  {
  }

  /** Right after the store is replaced, every id given is registered, and
      looking it up acts on the entry it was given with. */
  lemma SetThenGet(current: Table, gateways: Table, i: nat, construct: Constructor)
    requires i < |gateways|
    ensures var t := SetGateways(current, gateways);
      && HasGateway(t, gateways[i].id)
      && Fetched(construct, gateways, i, GetGateway(t, gateways[i].id, construct))
  {
  }

  /** A lookup fails with `UnknownGateway` exactly when the id is not
      registered, and such an error always names the id that was asked for. */
  lemma UnknownExactlyWhenAbsent(t: Table, id: string, construct: Constructor)
    ensures GetGateway(t, id, construct).result == Failure(UnknownGateway(id)) <==> !HasGateway(t, id)
    ensures var r := GetGateway(t, id, construct).result;
      r.Failure? && r.error.UnknownGateway? ==> r.error.id == id
  {
  }

  /** `HasGateway` is not disturbed by lookups: the set of registered ids is
      the same after any `GetGateway`. */
  lemma LookupKeepsKeys(t: Table, id: string, other: string, construct: Constructor)
    ensures HasGateway(GetGateway(t, id, construct).table, other) == HasGateway(t, other)
  {
  }

  /** Once a lookup has produced a gateway, looking the same id up again
      returns the identical gateway, changes nothing and builds nothing. */
  lemma GetGatewayMemoises(t: Table, id: string, construct: Constructor)
    requires GetGateway(t, id, construct).result.Success?
    ensures var s := GetGateway(t, id, construct);
      GetGateway(s.table, id, construct) == Step(s.result, s.table, [])
  {
  }

  /** A slot registered with a built gateway is returned as is, without
      construction and without changing the store. */
  lemma BuiltEntryReturnedAsIs(t: Table, i: nat, construct: Constructor)
    requires i < |t| && t[i].entry.Resolved?
    ensures GetGateway(t, t[i].id, construct) == Step(Success(t[i].entry.instance), t, [])
  {
  }

  /** A lookup of an unresolved slot hands the constructor exactly one
      descriptor: the configured one with its `id` field set to the key. */
  lemma LookupPassesKey(t: Table, i: nat, construct: Constructor)
    requires i < |t| && t[i].entry.Unresolved?
    ensures var s := GetGateway(t, t[i].id, construct);
      && |s.calls| == 1
      && s.calls[0][IdKey] == Str(t[i].id)
      && s.calls[0] - {IdKey} == t[i].entry.config - {IdKey}
  {
  }

  /** Resolution only moves forward: after two successive lookups, of any
      ids, every slot is the original one or that slot now built. */
  lemma LookupsOnlyMoveForward(t: Table, a: string, b: string, construct: Constructor)
    ensures var s1 := GetGateway(t, a, construct);
      var s2 := GetGateway(s1.table, b, construct);
      Extends(t, s2.table)
  {
  }

  /** Resolving all slots: every value it lists is what `GetGateway` returns
      for that key on the resulting store, without further construction. */
  lemma GetGatewaysAgreesWithGetGateway(t: Table, construct: Constructor, j: nat)
    requires GetGateways(t, construct).result.Success?
    requires j < |t|
    ensures var s := GetGateways(t, construct);
      && s.result.value[j].0 == t[j].id
      && GetGateway(s.table, t[j].id, construct) == Step(Success(s.result.value[j].1), s.table, [])
  {
  }

  /** A store with no unresolved slot hands nothing to the constructor. */
  lemma {:induction false} NoConstructionsWhenBuilt(slots: seq<Slot>)
    requires forall j :: 0 <= j < |slots| ==> slots[j].entry.Resolved?
    ensures Constructions(slots) == []
    decreases |slots|
  {
    if |slots| > 0 {
      NoConstructionsWhenBuilt(slots[1..]);
    }
  }

  /** After a successful bulk lookup, a second one returns the same listing,
      leaves the store as it is and builds nothing. */
  lemma {:induction false} GetGatewaysIdempotent(t: Table, construct: Constructor)
    requires GetGateways(t, construct).result.Success?
    ensures var s := GetGateways(t, construct);
      GetGateways(s.table, construct) == Step(s.result, s.table, [])
  {
    var s := GetGateways(t, construct);
    var u := s.table;
    var s2 := GetGateways(u, construct);
    assert FirstFailure(construct, t) == |t|;
    forall j | 0 <= j < |u|
      ensures u[j].entry.Resolved? && Outcome(construct, u[j]) == Outcome(construct, t[j])
    {
      assert u[j] == Settle(construct, t[j]);
    }
    assert s2.result.Success?;
    assert FirstFailure(construct, u) == |u|;
    forall j | 0 <= j < |u| ensures s2.table[j] == u[j] {
      assert s2.table[j] == Settle(construct, u[j]);
    }
    assert s2.table == u;
    assert s2.result.value == s.result.value;
    NoConstructionsWhenBuilt(u);
    assert u[..|u|] == u;
  }

  /** A failed bulk lookup leaves the gateways it built before the failure
      in their slots, so a later lookup of those ids builds nothing. */
  lemma {:induction false} GetGatewaysFailureKeepsEarlierSlots(t: Table, construct: Constructor, j: nat)
    requires GetGateways(t, construct).result.Failure?
    requires j < FirstFailure(construct, t)
    ensures var s := GetGateways(t, construct);
      GetGateway(s.table, t[j].id, construct) == Step(Success(Outcome(construct, t[j]).value), s.table, [])
  {
    var s := GetGateways(t, construct);
    assert s.table[j] == Settle(construct, t[j]);
    BuiltEntryReturnedAsIs(s.table, j, construct);
  }

  /** A single PayPal entry: the constructor receives the configured purse
      and secret together with the key as `id`, and an unregistered id is
      reported by name. */
  lemma PayPalScenario(construct: Constructor)
    ensures var config := map["class" := Str("PayPalGateway"), "purse" := Str("x@x.com"), "secret" := Str("s")];
      var t := SetGateways([], [Slot("paypal", Unresolved(config))]);
      var s := GetGateway(t, "paypal", construct);
      && s.calls == [map["class" := Str("PayPalGateway"), "purse" := Str("x@x.com"), "secret" := Str("s"), "id" := Str("paypal")]]
      && (s.result.Success? <==> s.table[0].entry.Resolved?)
      && GetGateway(t, "missing", construct) == Step(Failure(UnknownGateway("missing")), t, [])
  {
  }
}
