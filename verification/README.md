# Payment gateway registry

A Dafny model of the gateway registry of the `yuncms/yii2-payment` module
(`Module.php`). The module keeps an ordered store from gateway id to either a
configuration descriptor or an already built gateway object. A gateway is
built from its descriptor on first lookup and written back into its slot, so
every later lookup returns the same object. `createGateway` is the one
extension point: it sets the descriptor's `id` field to the registry key and
hands the descriptor to Yii's generic object factory.

Files:

- `wrappers.dfy`: `Option` and `Result`.
- `config.dfy` (module `GatewayConfig`): descriptors, gateway instances, the
  factory as a `Constructor` parameter, and `createGateway`.
- `registry.dfy` (module `GatewayRegistry`): the store and its operations.
- `registry_facts.dfy` (module `GatewayRegistryFacts`): properties that
  relate several calls.

How the PHP maps to the model:

- The private array `_gateways` becomes a `Table`. This is a sequence of
  `Slot(id, entry)` in registration order with no id repeated, like a PHP
  array.
- Each entry is `Unresolved(descriptor)` or `Resolved(instance)`. This tag
  replaces the `is_object` test.
- `Yii::createObject` becomes the `construct` argument. It is an arbitrary
  function from a descriptor to a gateway or a `ConfigError`, so every
  property holds for every deterministic factory.
- `InvalidParamException` becomes the error value `UnknownGateway(id)`. A
  factory failure comes back as `Configuration(cause)`, with the cause
  unchanged.
- Every operation is a pure function. An operation that may build returns a
  `Step`: its result, the store afterwards, and `calls`, the descriptors it
  handed to the factory, in order. The log is how the model states "builds
  once", "builds nothing" and "passes the key as `id`".
- `getGateways` is modelled by `ResolveFrom`. It walks the slots in order and
  calls `GetGateway` on each one. A lookup never adds, removes or reorders
  keys, so walking the current store visits the same ids as PHP's `foreach`
  over the original array.

## Model

| member | source | states |
|---|---|---|
| `GatewayConfig.WithId` | Module.php:105 | The descriptor handed to the factory has `id` set to the key. The key is added if absent and overrides any configured `id`. Every other field is kept unchanged. |
| `GatewayConfig.CreateGateway` | Module.php:103-107 | The factory is handed the configuration keyed by `id`. Its result is what the factory makes of any descriptor that has every configured field, has `id` equal to the key, and keeps every other field's configured value. |
| `GatewayConfig.KeyOverridesConfiguredId` | Module.php:105 | Two configurations that differ only in their `id` field are handed to the factory as the same descriptor. |
| `GatewayRegistry.Find` | Module.php:78 | The key lookup finds a slot exactly when the id is registered. The slot it returns holds that id, and no earlier slot does. |
| `GatewayRegistry.SetGateways` | Module.php:52-55 | The new store holds exactly the given ids, in the given order. Each id locates the entry it was given. Nothing is validated. |
| `GatewayRegistryFacts.SetGatewaysForgetsPrevious` | Module.php:54 | The store after `setGateways` does not depend on the store it replaces, so earlier built gateways are discarded. |
| `GatewayRegistryFacts.SetThenGet` | Module.php:52-55 | Right after `setGateways`, every given id is registered. Looking it up acts on the entry it was given. |
| `GatewayRegistry.HasGateway` | Module.php:92-95 | True exactly when the id is a key of the store. It is a pure function of the store, so it builds nothing and changes nothing. |
| `GatewayRegistry.GetGateway` | Module.php:76-85 | An unknown id gives `UnknownGateway(id)`, leaves the store unchanged and builds nothing. A built slot returns its gateway with no construction and no change. An unresolved slot hands the factory its descriptor with the key once. On success the gateway is stored in that slot and returned. On failure the error is returned and the store is unchanged. Slots of other ids never change. The store only moves forward (`Extends`). |
| `GatewayRegistryFacts.UnknownExactlyWhenAbsent` | Module.php:78-80 | A lookup fails with `UnknownGateway` if and only if the id is not registered. That error always names the requested id. |
| `GatewayRegistryFacts.LookupKeepsKeys` | Module.php:81-82 | After any lookup, `HasGateway` answers as before for every id. |
| `GatewayRegistryFacts.GetGatewayMemoises` | Module.php:81-84 | After a successful lookup, a second lookup of the same id returns the identical gateway, changes nothing and hands nothing to the factory. |
| `GatewayRegistryFacts.BuiltEntryReturnedAsIs` | Module.php:81-84 | A slot that already holds a gateway, including one registered through `setGateways`, is returned as is. There is no construction and no change. |
| `GatewayRegistryFacts.LookupPassesKey` | Module.php:103-106 | Looking up an unresolved slot hands the factory exactly one descriptor. Its `id` equals the key and its other fields equal the configured ones. |
| `GatewayRegistryFacts.LookupsOnlyMoveForward` | Module.php:81-82 | After two successive lookups, of any ids, every slot is either the original one or that slot now built. A built gateway is never replaced. |
| `GatewayRegistry.ResolveFrom` | Module.php:64-66 | The loop over slots `i..` keeps ids and order, never un-builds a slot, and leaves slots before `i` alone. |
| `GatewayRegistry.ResolveFromTable` | Module.php:64-66 | After the loop, every slot before the first failing one is built, or kept if already built. That failing slot and all later ones are untouched. |
| `GatewayRegistry.ResolveFromResult` | Module.php:63-67 | The loop succeeds exactly when no slot from `i` on fails. Otherwise it returns the first failing slot's error. |
| `GatewayRegistry.Listing` | Module.php:63-67 | The listing a successful loop builds has one pair per slot. Each slot's position holds its id and its gateway, so the listing is in registration order. |
| `GatewayRegistry.ResolveFromListing` | Module.php:63-67 | A successful loop over slots `i..` found every one of them resolving, and its result is exactly their `Listing`. |
| `GatewayRegistry.ResolveFromCalls` | Module.php:64-65 | The loop hands the factory the descriptors of the unresolved slots, in order, up to and including the failing one. |
| `GatewayRegistry.GetGateways` | Module.php:61-68 | Success holds exactly when every slot resolves. Then it returns exactly the registered keys in registration order, each paired with its gateway. Otherwise it fails with the first failure's error, keeps the slots built before it and leaves the rest untouched. Each unresolved slot reached is built at most once. |
| `GatewayRegistryFacts.GetGatewaysAgreesWithGetGateway` | Module.php:64-66 | After a successful `getGateways`, each listed value is what `getGateway` returns for that key, with no further construction. |
| `GatewayRegistryFacts.GetGatewaysIdempotent` | Module.php:61-68 | A second `getGateways` after a successful one returns the same listing, leaves the store alone and builds nothing. |
| `GatewayRegistryFacts.GetGatewaysFailureKeepsEarlierSlots` | Module.php:64-66 | When `getGateways` fails, the gateways built before the failure stay built. A later lookup of those ids returns them without construction. |
| `GatewayRegistryFacts.PayPalScenario` | Module.php:76-85 | With one PayPal descriptor registered, the factory receives its class, purse and secret plus `id` = `"paypal"`. Looking up `"missing"` fails with `UnknownGateway("missing")` and changes nothing. |

## Left out

- The behaviour of `Yii::createObject`: class lookup, dependency injection and property assignment. It is an external factory, so it is modelled as an arbitrary, possibly failing `Constructor`.
- Construction is deterministic: `construct` is a function, so handing it the same descriptor twice yields the same `Instance`. `Yii::createObject` returns a new object on every call. A fresh identity per construction is therefore not represented. For example, after `setGateways` re-registers a descriptor, the model's rebuilt gateway equals the earlier one, while PHP's would be a different object. The construction log in `Step.calls` still records each construction.
- What the gateways themselves do: payments and notifications. Instances are opaque. Only identity matters here, and it is stood for by the value `Instance(handle)`.
- The Yii module lifecycle and configuration wiring: the `\yii\base\Module` base class, `notifyPage`, and the `collection` key in the example configuration of the class comment.
- Concurrency. The check-then-write in `getGateway` assumes a single caller.
- PHP dynamic typing: a configuration given as a string or another non-array, and PHP's casting of integer-like string keys to integers. Ids are plain strings compared exactly, and descriptors are `map<string, Value>` with scalar values.
- The order of fields inside a descriptor. A PHP array is ordered, and assigning `id` appends it when absent. Descriptors are unordered maps here.
- Duplicate keys in `setGateways`' argument cannot occur, because a PHP array has unique keys. The `Table` type rules them out instead of a precondition.
