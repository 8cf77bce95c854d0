# Helper.cs utilities, modelled in Dafny

This project models the parts of `Helper.cs` that carry logic of their own, out of a
Unity game's shared utility file:

- **`Helper`** (module `Helper`, `helper.dfy`) holds two process-wide caches.
  - The lazily resolved main camera. Unity's overloaded `== null` is modelled by an
    explicit set of destroyed cameras.
  - The dictionary of `WaitForSeconds` objects, keyed by duration. It is filled on
    the first request for a duration and reused after that.
  - The static fields become the fields of a `Helper` object, and the getters
    become methods that update them.
- **`AlphaExtensions`** (module `AlphaExtensions`, `alpha_extensions.dfy`):
  - `GetRandom` on lists and on arrays, including the sentinel upper bound 0, which
    means "the whole collection", and the out-of-range exception.
  - `Fade` as a read-modify-write of a sprite renderer's colour.
  - `ToV2` and `Flat` as component copies.
  - `SetLayersRecursively` as a recursive walk over heap `GameObject`s. Each object
    has a mutable `layer` and a sequence of children. The walk is proved against a
    pure relayering of a tree abstraction.
- **`EventAndResponse.EventRaised`** (module `EventAndResponse`,
  `event_and_response.dfy`) fires five response channels in a fixed order:
  generic, int, bool, float, string. A channel fires only when it has at least one
  persistent listener, and each typed channel receives its own field of the bound
  game event. The method returns the trace of invocations and whether the run
  ended in a null-reference exception. It is proved equal to a reference
  definition (`Dispatch`), and the properties are proved about that definition.

`wrappers.dfy` declares the `Option` and `Result` datatypes the modules share.

Engine services are parameters of the model:
- `Camera.main` is the `main` argument.
- The value `Random.Range` returned is the `drawn` argument. It is constrained by
  what `Random.Range` can return.
- The listener counts are the `persistentCount` of each `UnityEvent`.

Two points of the code's behaviour that the model keeps:
- `Color` has four float components, modelled as reals, and `Fade` keeps r, g and b as they are.
- A null `gameEvent` is not excluded by a precondition. The code reads its fields without a null check. So a null event raises a null reference at the first typed channel with listeners, after the generic channel has fired, if it has listeners. The model represents that run and its outcome.

## Model

| member | source | states |
|---|---|---|
| `Helper.Helper.Camera` | Helper.cs:15-21 | The cached camera is returned as it is unless it is null or destroyed. Otherwise the engine's main camera is stored and returned. The returned value is always the value now stored. |
| `Helper.ResolveCamera` | Helper.cs:19-20 | A live cached camera is kept. A null or destroyed one is replaced by the main camera. |
| `Helper.ResolveIsStable` | Helper.cs:19-20 | Once the getter holds a live camera, a later call returns that same camera as long as it has not been destroyed since, whatever the main camera has become and whatever else has been destroyed. |
| `Helper.ResolveNullOnlyWhenBothNull` | Helper.cs:19-20 | The getter yields null exactly when the cached camera and the main camera are both null or destroyed. |
| `Helper.Helper.GetWait` | Helper.cs:24-30 | Afterwards the dictionary holds `time` and the returned handle is the one filed under it, with duration `time`. On a hit the dictionary is unchanged. On a miss a fresh handle is added under `time` and no other key changes. Every handle is filed under its own duration. |
| `Helper.Helper.HandlesAreDistinct` | Helper.cs:26-28 | Two different durations never share a cached handle. |
| `AlphaExtensions.ToV2` | Helper.cs:82 | The result's x and y are the input's x and y. |
| `AlphaExtensions.ToV2LosesOnlyZ` | Helper.cs:82 | `ToV2` keeps x and y and drops z. Two vectors have the same image exactly when their x and y agree, and x, y plus the original z rebuild the vector. |
| `AlphaExtensions.Flat` | Helper.cs:84 | The result keeps the input's x and z and has y equal to 0. |
| `AlphaExtensions.FlatLosesOnlyY` | Helper.cs:84 | `Flat` keeps x and z and sets y to 0. Two vectors have the same image exactly when their x and z agree. It changes a vector exactly when y is not 0, and it is idempotent. |
| `AlphaExtensions.WithAlpha` | Helper.cs:51-53 | The colour written back keeps r, g and b and carries the new alpha. |
| `AlphaExtensions.WithAlphaOverwrites` | Helper.cs:51-53 | Fading twice equals fading once to the last alpha. Fading changes the colour exactly when the alpha differs. |
| `AlphaExtensions.Fade` | Helper.cs:49-54 | The renderer's colour becomes its old colour with alpha replaced. Nothing else changes. |
| `AlphaExtensions.UpperBound` | Helper.cs:58 | An upper bound of 0 is replaced by the count and any other bound is kept. So the bound in force is 0 only for the default bounds on an empty collection. |
| `AlphaExtensions.GetRandom` | Helper.cs:56-60 | With upper bound 0 standing for the count, the call succeeds exactly when the drawn index is a valid index, and then returns the element at the drawn index. Otherwise it is the out-of-range error. |
| `AlphaExtensions.GetRandomArray` | Helper.cs:62-66 | The array overload gives the same result as the list overload on the array's contents, for every pair of bounds and every drawn index. |
| `AlphaExtensions.ZeroMeansCount` | Helper.cs:58-59 | An upper bound of 0 admits exactly the draws of an upper bound equal to the count. So the two produce exactly the same possible results. |
| `AlphaExtensions.DefaultBoundsReachEveryElement` | Helper.cs:56-59 | With the default bounds on a non-empty collection, the possible results are exactly the elements of the collection, and the call never fails. |
| `AlphaExtensions.GetRandomPicksInRange` | Helper.cs:56-60 | When the bounds name a non-empty range of valid indices, the pick succeeds and is an element of `ts[initialInclusive..finalExclusive]`. |
| `AlphaExtensions.GetRandomOnEmptyFails` | Helper.cs:58-59 | On an empty collection with the default bounds, the call always raises the out-of-range error. |
| `AlphaExtensions.RelayerIsUniform` | Helper.cs:73-80 | Relayering keeps the hierarchy's shape and puts every node at every depth on the new layer. |
| `AlphaExtensions.UniformOfSameShapeIsRelayer` | Helper.cs:73-80 | Any tree of the same shape with every node on the layer is the relayered tree. Together with `RelayerIsUniform`, this characterises the result exactly. |
| `AlphaExtensions.RelayerOverwrites` | Helper.cs:73-80 | Relayering twice equals relayering once to the last layer. |
| `AlphaExtensions.InFootprints` | Helper.cs:76-79 | An object belongs to the children's combined footprint exactly when it is in some child's subtree. |
| `AlphaExtensions.GameObject.UniformObjects` | Helper.cs:73-80 | When the abstract tree of a subtree is all on one layer, every object of that subtree has that layer. |
| `AlphaExtensions.SetLayersRecursively` | Helper.cs:73-80 | The subtree's abstract tree becomes the relayering of the old one. Every object in the subtree has the new layer. Only the `layer` fields of the subtree's objects may change, so nodes outside it are untouched. |
| `EventAndResponse.Invoke` | Helper.cs:148-156 | The invocation made for a channel belongs to that channel. |
| `EventAndResponse.EventRaised` | Helper.cs:146-157 | The trace of invocations and the outcome are exactly those of the reference dispatch. |
| `EventAndResponse.InArmed` | Helper.cs:148-156 | A channel is considered for firing exactly when it has at least one persistent listener. |
| `EventAndResponse.ArmedKeepsOrder` | Helper.cs:148-156 | Skipping channels without listeners keeps the fixed order of the rest. |
| `EventAndResponse.DispatchOrderIsComplete` | Helper.cs:148-156 | The order generic, int, bool, float, string is strict and covers all five channels. |
| `EventAndResponse.FireWithPayload` | Helper.cs:150-156 | With an event bound, firing a list of channels completes and invokes each of them, in order, with its payload. |
| `EventAndResponse.DispatchWithEvent` | Helper.cs:146-157 | With an event bound, raising it completes. A channel is invoked exactly when it has a persistent listener, in the order generic, int, bool, float, string, at most once, and each typed channel receives its own payload field. |
| `EventAndResponse.DispatchWithoutEvent` | Helper.cs:148-156 | With no event bound, the run raises a null reference exactly when some typed channel has listeners. The generic channel is the only one invoked, and only when it has listeners. |
| `EventAndResponse.OnlyIntChannelListening` | Helper.cs:150 | When only the int channel has listeners and the event sends 42, exactly one call is made: the int channel with 42. |

## Left out

- `Helper.IsOverUI` (Helper.cs:32-38): it only reads the event system, the mouse position and the engine's raycasters. That is input and foreign calls with no logic of its own.
- `Helper.GetWorldPositionOfCanvasElement` (Helper.cs:40-44): a single call into the engine's screen-to-world geometry.
- `AlphaExtensions.ToVector3Int` (Helper.cs:86): its behaviour is the float-to-int cast (truncation, NaN, overflow), which is floating-point numerics.
- `AlphaExtensions.DestroyChildren` (Helper.cs:68-71): `Object.Destroy` is deferred, engine-managed destruction.
- `Sound`, `TransformSet1` and `TransformSet` (Helper.cs:89-133): plain data holders with no behaviour. Their `[Range]` attributes are editor hints, not checked invariants.
- Engine floats are modelled as `real`. None of the modelled operations computes with them, so rounding does not arise. The cache key type of `GetWait` is left abstract with plain equality, so how `float` equality treats NaN and -0 is not modelled.
- `WaitForSeconds` construction, `Camera.main` resolution, `UnityEvent.Invoke` and the listeners' own effects are opaque. Listeners added at run time are not persistent and so do not count, as in the source. The model does not capture what the listeners do.
- `AlphaExtensions.GetRandom`:
  - The random draw is a parameter. Only what `Random.Range` can return constrains it, and when the lower bound exceeds the upper bound it is not constrained at all.
  - The two exception types, `ArgumentOutOfRangeException` for a list and `IndexOutOfRangeException` for an array, are one error value.
  - An `IList<T>` other than a list or an array may index differently; it is modelled as a sequence.
- `AlphaExtensions.SetLayersRecursively`:
  - A game object's children are fixed during the walk, so re-parenting by other code during the walk is not modelled.
  - The engine's check that a layer lies in 0..31 is not modelled. Any integer is accepted.
- `EventAndResponse.EventRaised`: the model takes the binder's fields (`gameEvent` and the five responses) and the payload fields as they were when the event was raised. The code reads them again at each `if` (Helper.cs:148-156), after earlier listeners have run. A listener that changes them for later channels is not captured, for example by writing `gameEvent.sentInt` or by setting `gameEvent` to null. So `DispatchWithEvent`'s payload clause holds for the values at the moment the event was raised.
- `EventAndResponse.EventRaised`: only the null-reference exception raised by reading a null `gameEvent` is modelled. A null `UnityEvent` field, for example on an `EventAndResponse` built with `new` in code, makes `GetPersistentEventCount` throw (Helper.cs:148-156). The model's channels are never null, so it does not capture this. An exception thrown by a listener is not modelled either.
- `AlphaExtensions.GetRandom` and `AlphaExtensions.GetRandomArray`: a null `ts` throws `NullReferenceException` at Helper.cs:58 and Helper.cs:64. The model's sequences and arrays cannot be null, so it does not capture this.
- `AlphaExtensions.Fade`: a null `renderer` throws at Helper.cs:51. The model's renderer cannot be null.
- `AlphaExtensions.SetLayersRecursively`: a null `gameObject` throws at Helper.cs:75. The model's game objects cannot be null.
- `AlphaExtensions.GetRandom`: the uniform distribution of the draw is not modelled. Only the set of indices it can return is constrained.
