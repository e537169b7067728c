/**
  The payment module's gateway registry: an ordered, id-keyed store whose
  slots hold either a configuration descriptor or an already built gateway.
  A descriptor is turned into a gateway on first access and the gateway is
  written back into its slot, so later accesses return the same object.

  Every operation is a pure function of the store. The ones that may build
  a gateway return a `Step`: the outcome, the store afterwards, and the log
  of descriptors handed to the constructor, which is how "built once" and
  "not built at all" are observable.
 */
module GatewayRegistry {
  import opened Wrappers
  import opened GatewayConfig

  /** A slot's content: not built yet, or built (the one-way transition). */
  datatype Entry = Unresolved(config: Descriptor) | Resolved(instance: Instance)

  /** One registered gateway: its id and its current entry. */
  datatype Slot = Slot(id: string, entry: Entry)

  /** No id is registered twice. */
  predicate UniqueIds(slots: seq<Slot>) {
    forall i, j :: 0 <= i < j < |slots| ==> slots[i].id != slots[j].id
  }

  /** The store, in registration order; like the array it models, it never
      holds the same key twice. */
  type Table = slots: seq<Slot> | UniqueIds(slots) witness []

  /** Errors a lookup reports. */
  datatype Error =
    | UnknownGateway(id: string)         // the id is not registered
    | Configuration(cause: ConfigError)  // the constructor refused the descriptor

  /** An operation's outcome, the store after it, and the descriptors it
      handed to the constructor, in order. */
  datatype Step<T> = Step(result: Result<T, Error>, table: Table, calls: seq<Descriptor>)

  /** The registered ids, in registration order. */
  function Ids(slots: seq<Slot>): (ids: seq<string>)
    ensures |ids| == |slots|
    ensures forall i :: 0 <= i < |slots| ==> ids[i] == slots[i].id
  {
    seq(|slots|, i requires 0 <= i < |slots| => slots[i].id)
  }

  /** The position of the first slot registered under `id`, if any. */
  function Find(slots: seq<Slot>, id: string): (r: Option<nat>)
    ensures r.None? <==> id !in Ids(slots)
    ensures r.Some? ==> r.value < |slots| && slots[r.value].id == id
    ensures r.Some? ==> forall i :: 0 <= i < r.value ==> slots[i].id != id
    decreases |slots|
  {
    if |slots| == 0 then None
    else if slots[0].id == id then Some(0)
    else
      match Find(slots[1..], id)
      case None =>
        assert forall i :: 1 <= i < |slots| ==> slots[i] == slots[1..][i - 1];
        None
      case Some(k) => Some(k + 1)
  }

  /** What resolving a slot yields on its own: the stored gateway, or what
      construction makes of the stored descriptor. */
  function Outcome(construct: Constructor, slot: Slot): (r: Result<Instance, ConfigError>)
  {
    match slot.entry
    case Resolved(x) => Success(x)
    case Unresolved(config) => CreateGateway(slot.id, config, construct)
  }

  /** The slot after an attempt to resolve it: built on success, untouched
      when construction fails. */
  function Settle(construct: Constructor, slot: Slot): (s: Slot)
    ensures s.id == slot.id
    ensures s.entry.Resolved? <==> Outcome(construct, slot).Success?
    ensures Outcome(construct, slot).Success? ==> s.entry == Resolved(Outcome(construct, slot).value)
    ensures Outcome(construct, slot).Failure? ==> s == slot
    ensures slot.entry.Resolved? ==> s == slot
  {
    match Outcome(construct, slot)
    case Success(x) => Slot(slot.id, Resolved(x))
    case Failure(_) => slot
  }

  /** The descriptors that resolving `slots` in order hands to the
      constructor: one per unresolved slot, carrying that slot's id. */
  function Constructions(slots: seq<Slot>): (calls: seq<Descriptor>)
    ensures |calls| <= |slots|
    ensures forall c :: c in calls ==> IdKey in c
    decreases |slots|
  {
    if |slots| == 0 then []
    else
      match slots[0].entry
      case Resolved(_) => Constructions(slots[1..])
      case Unresolved(config) => [WithId(config, slots[0].id)] + Constructions(slots[1..])
  }

  /** Every slot of `after` is the same slot of `before`, or that slot
      moved from unresolved to resolved: ids and order are kept, and a built
      gateway is never replaced or dropped. */
  predicate Extends(before: seq<Slot>, after: seq<Slot>) {
    && |after| == |before|
    && forall i :: 0 <= i < |before| ==>
         || after[i] == before[i]
         || (after[i].id == before[i].id && before[i].entry.Unresolved? && after[i].entry.Resolved?)
  }

  /** The position of the first slot of `slots` whose resolution fails, or
      `|slots|` when every slot resolves. */
  function FirstFailure(construct: Constructor, slots: seq<Slot>): (k: nat)
    ensures k <= |slots|
    ensures forall j :: 0 <= j < k ==> Outcome(construct, slots[j]).Success?
    ensures k < |slots| ==> Outcome(construct, slots[k]).Failure?
    decreases |slots|
  {
    if |slots| == 0 then 0
    else if Outcome(construct, slots[0]).Failure? then 0
    else 1 + FirstFailure(construct, slots[1..])
  }

  /** Replaces the whole store. Nothing is validated and nothing of the
      previous store survives. */
  function SetGateways(current: Table, gateways: Table): (t: Table)
    ensures Ids(t) == Ids(gateways)
    ensures forall i :: 0 <= i < |gateways| ==> Find(t, gateways[i].id) == Some(i) && t[i].entry == gateways[i].entry
  {
    gateways
  }

  /** Whether `id` is registered. A pure lookup: it never builds anything. */
  function HasGateway(t: Table, id: string): (b: bool)
    ensures b <==> id in Ids(t)
    ensures b <==> exists i :: 0 <= i < |t| && t[i].id == id
  {
    Find(t, id).Some?
  }

  /** What looking up the gateway of slot `i` did: returned the slot's
      outcome, settled that slot and no other, and handed the constructor
      the slot's descriptor only if the slot was unresolved. */
  predicate Fetched(construct: Constructor, t: Table, i: nat, s: Step<Instance>)
    requires i < |t|
  {
    && s.result == (match Outcome(construct, t[i])
                    case Success(x) => Success(x)
                    case Failure(e) => Failure(Configuration(e)))
    && s.table == t[i := Settle(construct, t[i])]
    && s.calls == Constructions([t[i]])
  }

  /** The gateway registered under `id`, built from its descriptor on first
      access and memoised in its slot. */
  function GetGateway(t: Table, id: string, construct: Constructor): (s: Step<Instance>)
    ensures Extends(t, s.table)
    ensures forall i :: 0 <= i < |t| && t[i].id != id ==> s.table[i] == t[i]
    ensures id !in Ids(t) ==> s == Step(Failure(UnknownGateway(id)), t, [])
    ensures forall i :: 0 <= i < |t| && t[i].id == id ==> Fetched(construct, t, i, s)
  {
    match Find(t, id)
    case None => Step(Failure(UnknownGateway(id)), t, [])
    case Some(k) =>
      match t[k].entry
      case Resolved(x) =>
        assert t[k := t[k]] == t;
        Step(Success(x), t, [])
      case Unresolved(config) =>
        match CreateGateway(id, config, construct)
        case Success(x) =>
          var t' := t[k := Slot(id, Resolved(x))];
          assert Ids(t') == Ids(t);
          Step(Success(x), t', [WithId(config, id)])
        case Failure(e) =>
          assert t[k := t[k]] == t;
          Step(Failure(Configuration(e)), t, [WithId(config, id)])
  }

  /** Resolves slots `i..` of `t` in order, stopping at the first failure;
      the slots before `i` are taken as done. */
  function ResolveFrom(t: Table, i: nat, construct: Constructor): (s: Step<seq<(string, Instance)>>)
    requires i <= |t|
    ensures Extends(t, s.table)
    ensures forall j :: 0 <= j < i ==> s.table[j] == t[j]
    decreases |t| - i
  {
    if i == |t| then Step(Success([]), t, [])
    else
      var head := GetGateway(t, t[i].id, construct);
      match head.result
      case Failure(e) => Step(Failure(e), head.table, head.calls)
      case Success(x) =>
        var rest := ResolveFrom(head.table, i + 1, construct);
        var r := match rest.result
                 case Success(xs) => Success([(t[i].id, x)] + xs)
                 case Failure(err) => Failure(err);
        Step(r, rest.table, head.calls + rest.calls)
  }

  /** Where resolution of slots `i..` stops: the first failing slot, or `|t|`. */
  function StopAt(construct: Constructor, t: seq<Slot>, i: nat): (k: nat)
    requires i <= |t|
    ensures i <= k <= |t|
    ensures forall j :: i <= j < k ==> Outcome(construct, t[j]).Success?
    ensures k < |t| ==> Outcome(construct, t[k]).Failure?
  {
    var n := FirstFailure(construct, t[i..]);
    assert forall j :: i <= j < i + n ==> t[j] == t[i..][j - i];
    assert i + n < |t| ==> t[i + n] == t[i..][n];
    i + n
  }

  /** The slots from `i` on that one resolution pass touches: up to and
      including the failing one. */
  function Attempted(construct: Constructor, t: seq<Slot>, i: nat): (e: nat)
    requires i <= |t|
    ensures i <= e <= |t|
  {
    var k := StopAt(construct, t, i);
    if k < |t| then k + 1 else k
  }

  /** Looking up slot `i` of `t` from the front: the step `ResolveFrom` takes. */
  lemma HeadStep(construct: Constructor, t: Table, i: nat)
    requires i < |t|
    ensures Fetched(construct, t, i, GetGateway(t, t[i].id, construct))
    ensures var h := GetGateway(t, t[i].id, construct);
      h.table[i + 1..] == t[i + 1..] && h.table[..i] == t[..i]
    ensures Outcome(construct, t[i]).Failure? ==> StopAt(construct, t, i) == i
    ensures Outcome(construct, t[i]).Success? ==> StopAt(construct, t, i) == StopAt(construct, t, i + 1)
    ensures Outcome(construct, t[i]).Success? ==>
      var h := GetGateway(t, t[i].id, construct);
      StopAt(construct, h.table, i + 1) == StopAt(construct, t, i + 1)
      && Attempted(construct, h.table, i + 1) == Attempted(construct, t, i + 1)
  {
  }

  /** The store after resolving slots `i..`: every slot before the first
      failure is settled, the rest are untouched. */
  lemma {:induction false} ResolveFromTable(construct: Constructor, t: Table, i: nat)
    requires i <= |t|
    ensures var s := ResolveFrom(t, i, construct); var k := StopAt(construct, t, i);
      && (forall j :: i <= j < k ==> s.table[j] == Settle(construct, t[j]))
      && (forall j :: k <= j < |t| ==> s.table[j] == t[j])
    decreases |t| - i
  {
    if i < |t| {
      HeadStep(construct, t, i);
      ResolveFromUnfold(construct, t, i);
      var h := GetGateway(t, t[i].id, construct);
      var s := ResolveFrom(t, i, construct);
      var k := StopAt(construct, t, i);
      if Outcome(construct, t[i]).Success? {
        ResolveFromTable(construct, h.table, i + 1);
        SuffixAgrees(h.table, t, i + 1);
        assert s.table == ResolveFrom(h.table, i + 1, construct).table;
        assert k == StopAt(construct, h.table, i + 1);
        assert s.table[i] == h.table[i];
      } else {
        assert k == i;
        assert s.table == h.table;
      }
    }
  }

  /** Two sequences with equal suffixes agree at every position of it. */
  lemma SuffixAgrees(a: seq<Slot>, b: seq<Slot>, n: nat)
    requires n <= |a| == |b|
    requires a[n..] == b[n..]
    ensures forall j :: n <= j < |a| ==> a[j] == b[j]
  {
  }

  /** The outcome of resolving slots `i..`: success exactly when no slot
      fails; otherwise the error of the first failing slot. */
  lemma {:induction false} ResolveFromResult(construct: Constructor, t: Table, i: nat)
    requires i <= |t|
    ensures var s := ResolveFrom(t, i, construct); var k := StopAt(construct, t, i);
      && (s.result.Success? <==> k == |t|)
      && (k < |t| ==> s.result == Failure(Configuration(Outcome(construct, t[k]).error)))
    decreases |t| - i
  {
    if i < |t| {
      HeadStep(construct, t, i);
      ResolveFromUnfold(construct, t, i);
      var h := GetGateway(t, t[i].id, construct);
      var k := StopAt(construct, t, i);
      if Outcome(construct, t[i]).Success? {
        ResolveFromResult(construct, h.table, i + 1);
        SuffixAgrees(h.table, t, i + 1);
        assert k == StopAt(construct, h.table, i + 1);
      } else {
        assert k == i;
      }
    }
  }

  /** Every slot of `slots` resolves. */
  predicate AllResolve(construct: Constructor, slots: seq<Slot>) {
    forall j :: 0 <= j < |slots| ==> Outcome(construct, slots[j]).Success?
  }

  /** The listing a successful pass over `slots` yields: each slot's id with
      its gateway, one pair per slot, in registration order. */
  function Listing(construct: Constructor, slots: seq<Slot>): (r: seq<(string, Instance)>)
    requires AllResolve(construct, slots)
    ensures |r| == |slots|
    ensures forall j :: 0 <= j < |slots| ==> r[j] == (slots[j].id, Outcome(construct, slots[j]).value)
    decreases |slots|
  {
    if |slots| == 0 then []
    else
      assert forall j :: 1 <= j < |slots| ==> slots[1..][j - 1] == slots[j];
      [(slots[0].id, Outcome(construct, slots[0]).value)] + Listing(construct, slots[1..])
  }

  /** A successful pass over slots `i..` found every one of them resolving
      and lists them as `Listing` does. */
  lemma {:induction false} ResolveFromListing(construct: Constructor, t: Table, i: nat)
    requires i <= |t|
    ensures var s := ResolveFrom(t, i, construct);
      s.result.Success? ==>
        AllResolve(construct, t[i..]) && s.result.value == Listing(construct, t[i..])
    decreases |t| - i
  {
    if i < |t| {
      HeadStep(construct, t, i);
      ResolveFromUnfold(construct, t, i);
      var h := GetGateway(t, t[i].id, construct);
      var s := ResolveFrom(t, i, construct);
      if h.result.Success? {
        var rest := ResolveFrom(h.table, i + 1, construct);
        ResolveFromListing(construct, h.table, i + 1);
        if rest.result.Success? {
          assert h.table[i + 1..] == t[i + 1..];
          assert Outcome(construct, t[i]).Success?;
          var u := t[i..];
          assert u[0] == t[i] && u[1..] == t[i + 1..];
          assert AllResolve(construct, u) by {
            forall j | 0 <= j < |u| ensures Outcome(construct, u[j]).Success? {
              if j > 0 {
                assert u[j] == u[1..][j - 1];
              }
            }
          }
          assert Listing(construct, u) == [(t[i].id, Outcome(construct, t[i]).value)] + Listing(construct, t[i + 1..]);
        }
      }
    }
  }

  /** `ResolveFrom` one slot at a time: when slot `i` resolves, the pass
      is that slot followed by the pass over `i + 1..` on the updated store. */
  lemma ResolveFromUnfold(construct: Constructor, t: Table, i: nat)
    requires i < |t|
    ensures var h := GetGateway(t, t[i].id, construct); var s := ResolveFrom(t, i, construct);
      && (h.result.Failure? ==> s == Step(Failure(h.result.error), h.table, h.calls))
      && (h.result.Success? ==>
            var rest := ResolveFrom(h.table, i + 1, construct);
            && s.table == rest.table
            && s.calls == h.calls + rest.calls
            && (rest.result.Success? ==> s.result == Success([(t[i].id, h.result.value)] + rest.result.value))
            && (rest.result.Failure? ==> s.result == Failure(rest.result.error)))
  {
  }

  /** Constructions of a sequence is that of its head followed by that of its tail. */
  lemma ConstructionsCons(slots: seq<Slot>)
    requires |slots| > 0
    ensures Constructions(slots) == Constructions([slots[0]]) + Constructions(slots[1..])
  {
    var head := [slots[0]];
    assert head[0] == slots[0] && head[1..] == [];
    assert Constructions(head[1..]) == [];
    match slots[0].entry
    case Resolved(_) =>
      assert Constructions(head) == [];
    case Unresolved(config) =>
      assert Constructions(head) == [WithId(config, slots[0].id)];
  }

  /** The descriptors handed to the constructor while resolving slots `i..`:
      those of the unresolved slots up to and including the failing one. */
  lemma {:induction false} ResolveFromCalls(construct: Constructor, t: Table, i: nat)
    requires i <= |t|
    ensures ResolveFrom(t, i, construct).calls == Constructions(t[i..Attempted(construct, t, i)])
    decreases |t| - i
  {
    if i < |t| {
      HeadStep(construct, t, i);
      ResolveFromUnfold(construct, t, i);
      var h := GetGateway(t, t[i].id, construct);
      var e := Attempted(construct, t, i);
      if Outcome(construct, t[i]).Success? {
        ResolveFromCalls(construct, h.table, i + 1);
        var rest := ResolveFrom(h.table, i + 1, construct);
        assert e == Attempted(construct, h.table, i + 1);
        assert h.table[i + 1..e] == t[i + 1..e];
        assert rest.calls == Constructions(t[i + 1..e]);
        ConstructionsCons(t[i..e]);
        assert t[i..e][0] == t[i] && t[i..e][1..] == t[i + 1..e];
      } else {
        assert t[i..e] == [t[i]];
      }
    }
  }

  /** Every registered gateway, keyed by id in registration order, each one
      obtained as `GetGateway` would; the first construction failure aborts
      the whole call, keeping the slots built before it. */
  function GetGateways(t: Table, construct: Constructor): (s: Step<seq<(string, Instance)>>)
    ensures Extends(t, s.table)
    ensures s.result.Success? <==> forall j :: 0 <= j < |t| ==> Outcome(construct, t[j]).Success?
    ensures var k := FirstFailure(construct, t);
      && (forall j :: 0 <= j < k ==> s.table[j] == Settle(construct, t[j]))
      && (forall j :: k <= j < |t| ==> s.table[j] == t[j])
      && (k < |t| ==> s.result == Failure(Configuration(Outcome(construct, t[k]).error)))
      && (s.result.Success? ==>
            && |s.result.value| == |t|
            && forall j :: 0 <= j < |t| ==> s.result.value[j] == (t[j].id, Outcome(construct, t[j]).value))
      && s.calls == Constructions(t[.. if k < |t| then k + 1 else k])
  {
    assert t[0..] == t;
    ResolveFromTable(construct, t, 0);
    ResolveFromResult(construct, t, 0);
    ResolveFromListing(construct, t, 0);
    ResolveFromCalls(construct, t, 0);
    assert t[0..Attempted(construct, t, 0)] == t[..Attempted(construct, t, 0)];
    ResolveFrom(t, 0, construct)
  }
}
