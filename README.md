# browser-store, modelled in Dafny

`createLocalStore` builds a typed facade over a synchronous string-to-string
storage backend such as `localStorage`. It provides per-key `get`, `set`,
`update` and `clear`, plus a prefix-scoped `clearAll`. Each domain key is
namespaced by a prefix. Values are stored as JSON text. Callers register
change listeners with `onChange`, which returns a function that unregisters
the listener.

The model is split into modules:

- `LocalStore`: the facade itself.
  - The class `Store` has a field for each piece of state the factory closes over:
    - the backend contents, as `map<string, string>`;
    - the prefix;
    - the `listeners` array, as a sequence of registrations;
    - a counter that hands out registration identities;
    - `invoked`, the record of every listener call with its `(newValue, oldValue)` arguments.
  - `set`, `update`, `clear`, `clearAll`, `onChange` and the unregister function are methods that change the state in place.
  - `clearAll` is a loop that removes keys one at a time. `notifyListeners` and `indexOf` are loops over the registrations.
  - The pure parts are functions on values, each with lemmas: `getKey`, `safeJSONParse`, what `get` reads, the listener filter, the splice, the keys `clearAll` keeps, and the handler for the cross-context `storage` event.
- `JsonValue`, `JsonEncode`, `JsonDecode` and `JsonRoundTrip`: `JSON.stringify` and `JSON.parse`, written out as an encoder and a recursive-descent parser for a subset of JSON. They cover null, booleans, integers, strings, arrays, and objects with distinct property names. The round trip `Decode(Encode(v)) == Some(v)` is proved for every well-formed value. That proof is what lets `get` return what `set` wrote.
- `ObjectSpread`: the `{ ...oldValue, ...value }` merge in `update`. It builds an object's own enumerable entries, then assigns them one by one.
- `SeqLemmas`: two facts about sequence concatenation that the proofs share.

`set` re-throws a thrown value only if it is an `Error` whose name is not one of the two quota names. Any other thrown value is swallowed, with nothing written and nobody notified. `Store.Set` models this.

## Model

| member | source | states |
|---|---|---|
| LocalStore.PhysicalKey | index.ts:32 | the backend key starts with the prefix, and the rest of it is the domain key |
| LocalStore.PhysicalKeyInjective | index.ts:32 | two domain keys share a backend key exactly when they are equal |
| LocalStore.SafeParse | index.ts:46-53 | never fails; the result is null exactly when the text is missing, empty, unparsable or the text of null; otherwise it is the parsed value |
| LocalStore.ReadAfterWrite | index.ts:56-62 | after `set` stores the JSON text of a value, `get` on that key returns the value |
| LocalStore.GetItem | index.ts:88 | the backend gives text exactly for a stored key, and that text is the stored one |
| LocalStore.Read | index.ts:86-90 | what `get` returns is always well formed, and null for a key that was never stored |
| LocalStore.ReadAfterRemove | index.ts:92-97 | after `clear(key)`, `get(key)` returns null |
| LocalStore.ReadOtherKey | index.ts:32 | writing or removing one key's backend entry leaves what every other key reads unchanged |
| LocalStore.ReadAfterUpdate | index.ts:76-84 | what `update` writes is an object, and `get` reads it back as the spread of the old value and the partial |
| LocalStore.Retained | index.ts:99-110 | the backend after `clearAll` holds exactly the keys that do not start with the prefix, with their texts; with the empty prefix, nothing |
| LocalStore.ReadAfterClearAll | index.ts:99-110 | after `clearAll`, every domain key reads as null |
| LocalStore.ClearAllIdempotent | index.ts:99-110 | `clearAll` twice leaves the same backend as `clearAll` once |
| LocalStore.Notifications | index.ts:40-42 | the calls for one notification: at most one per registration, every one with the given `(newValue, oldValue)`; partner `NotificationsExact` says which |
| LocalStore.NotificationsStep | index.ts:40-42 | one more registration adds its own call when its key matches, and nothing otherwise |
| LocalStore.NotificationsAppend | index.ts:40-42 | notifying over two runs of registrations is notifying over the first, then over the second |
| LocalStore.NotificationsExact | index.ts:40-42 | a call is recorded exactly for each listener registered for the key, always with the same `(newValue, oldValue)`; the calls follow registration order |
| LocalStore.Unregistered | index.ts:131-133 | one registration fewer when one carries the identity, the same number otherwise, and never a registration that was not there |
| LocalStore.UnregisteredAt | index.ts:130-134 | removing the first registration with an identity is the splice at the index `indexOf` finds, and nothing when that index is -1 |
| LocalStore.UnregisteredMembers | index.ts:130-134 | unregistering removes exactly the registrations with that identity and keeps every other one |
| LocalStore.UnregisteredIncreasing | index.ts:130-134 | the registrations that remain stay in registration order |
| LocalStore.UnregisterTwice | index.ts:130-134 | calling the unregister function a second time changes nothing |
| LocalStore.NoSuchId | index.ts:131-132 | unregistering an identity that no registration carries changes nothing |
| LocalStore.UnregisteredSilent | index.ts:130-134 | an unregistered callback is not called by any later notification |
| LocalStore.StorageEventArgs | index.ts:120-126 | the handler calls the callback exactly for events on this key's backend key; a value another context stored or replaced reaches the callback unchanged, and a removal arrives as null |
| LocalStore.IsQuotaError | index.ts:66 | the two error names that mean the storage quota is exhausted |
| LocalStore.Store.constructor | index.ts:22-29 | a new store holds the given backend and prefix and has no listeners and no calls |
| LocalStore.Store.Get | index.ts:86-90 | returns what the backend's text under the prefixed key parses to, and changes nothing |
| LocalStore.Store.NotifyListeners | index.ts:35-43 | appends, in order, one call for each listener registered for the key |
| LocalStore.Store.Set | index.ts:56-74 | on a write, stores the JSON text under the prefixed key, changes no other key, and notifies the key's listeners with the value and the previous `get`; on a quota `Error` or a thrown non-`Error`, returns normally with storage and calls unchanged; any other `Error` is re-thrown by name |
| LocalStore.Store.Update | index.ts:76-84 | as `Set`, with the value being the spread of the current value and the partial, and re-throwing the same `Error` `Set` re-throws |
| LocalStore.Store.Clear | index.ts:92-97 | removes only the prefixed key, then notifies the key's listeners with null and the previous `get`, whether or not a value was stored |
| LocalStore.Store.ClearAll | index.ts:99-110 | leaves exactly the keys that do not start with the prefix, or an empty backend without a prefix; no listener is called and no registration changes |
| LocalStore.Store.OnChange | index.ts:112-118 | appends one registration whose identity is the counter's next value, and advances the counter, so no identity handed out before, even an unregistered one, is ever reused |
| LocalStore.Store.IndexOf | index.ts:131 | returns the first position of the registration, or -1 when it is absent |
| LocalStore.Store.Unregister | index.ts:130-134 | removes the first registration with the identity, keeping the others in order |
| JsonValue.Lookup | index.ts:78-81 | a property lookup finds something exactly when the name is present |
| JsonValue.LookupDistinct | index.ts:78-81 | in an object with distinct names, each property's name looks up its own value |
| JsonValue.SetField | index.ts:78-81 | assigning a property makes it hold the value and leaves every other property; a new name is appended at the end |
| JsonValue.SetFieldKeepsPlaces | index.ts:78-81 | assigning a property keeps the names of the existing properties in place |
| JsonValue.SetFieldKeepsWellFormed | index.ts:78-81 | assigning a property keeps property names distinct |
| JsonEncode.Encode | index.ts:61 | `JSON.stringify` never gives empty text, and its first character tells strings, arrays and objects apart; partner `DecodeEncode` gives the value back from it |
| JsonEncode.NatText | index.ts:61 | the decimal text of a number is non-empty and made of digits |
| JsonDecode.ParseValue | index.ts:49 | a parsed value is well formed and the parse consumes input |
| JsonDecode.Decode | index.ts:49 | only well-formed values are decoded, and empty text is rejected |
| JsonRoundTrip.NatTextValue | index.ts:61 | the digits written for a number read back as that number |
| JsonRoundTrip.IntRoundTrip | index.ts:61 | an integer's text parses back to the integer, leaving what follows |
| JsonRoundTrip.EscapeRoundTrip | index.ts:61 | a string's escaped text parses back to the string, up to the closing quote |
| JsonRoundTrip.ValueRoundTrip | index.ts:61 | a well-formed value's text parses back to the value, leaving what follows |
| JsonRoundTrip.FieldsRoundTrip | index.ts:61 | an object's property list parses back to the same properties in the same order |
| JsonRoundTrip.DecodeEncode | index.ts:61 | decoding the encoding of a well-formed value gives the value back |
| ObjectSpread.Indexed | index.ts:78-81 | the entries of an array or string have distinct names, and the decimal text of index `i` looks up element `i` |
| ObjectSpread.IndexNames | index.ts:78-81 | decimal index names never collide, so each one finds its own element |
| ObjectSpread.OwnEntries | index.ts:79-80 | a well-formed value spreads distinct names with well-formed values, and null, booleans and numbers spread nothing |
| ObjectSpread.Assign | index.ts:78-81 | copying properties onto an object leaves the names of both |
| ObjectSpread.Spread | index.ts:78-81 | the merge is always an object and holds the names of both sides; partner `SpreadSemantics` gives each property's value |
| ObjectSpread.AssignLookup | index.ts:78-81 | after assignment, a name holds the source's value if the source has it, otherwise the target's value |
| ObjectSpread.AssignKeepsPlaces | index.ts:78-81 | assignment keeps the target's property names in place |
| ObjectSpread.AssignFresh | index.ts:78-81 | assigning properties whose names are all new appends them in order |
| ObjectSpread.SpreadSemantics | index.ts:78-81 | the merge is a well-formed object; the partial's properties override the current ones, every other current property is kept, and current names keep their places |
| ObjectSpread.SpreadOverNull | index.ts:78-81 | spreading over a null current value gives just the partial's own entries |

## Left out

- The default `window.localStorage` backend is left out. The backend is always given as a map.
- Subscribing to and unsubscribing from the host's `storage` event (`addEventListener` and `removeEventListener`) is left out. These are host I/O. Only the handler's key test and argument parsing are modelled, as `StorageEventArgs`.
- The `console.error` call on a quota error is left out. It is logging with no state.
- The TypeScript typing, the global `LocalStore` interface and the `as any` cast are left out. They are compile-time only.
- Domain keys are strings. `String(key)` on a number or symbol key is not modelled.
- `Object.keys(storage)` is modelled as the backend's key set, and `clearAll` visits it in an arbitrary order. The removals commute, so the order cannot change the result.
- `setItem` succeeding or throwing is an input to `Set` and `Update`. A failed `setItem` is taken to leave the backend unchanged.
- Listener callbacks are opaque. A call is recorded in `invoked` and does nothing else.
- LocalStore.Store.Set: callbacks are assumed not to throw and not to re-enter the store. In the code, an `Error` thrown by a callback would pass through the same `catch` as a failed write, after the value was already stored.
- Numbers are unbounded integers. They match JavaScript numbers only for the safe integers (magnitude at most 2^53). `JSON.parse` rounds a larger integer to the nearest double, where `Decode` keeps it exact. `JSON.stringify` writes a magnitude of 10^21 or more in exponent form, where `Encode` writes every digit. `-0` is not told apart from `0`. So `DecodeEncode`, `ReadAfterWrite` and `Store.Set` hold as stated for the program only when every number in the value is a safe integer.
- The JSON codec covers integers only. Text with fractions or exponents does not decode, so `get` reads it as null. `JSON.parse` would accept it.
- `undefined`, functions, `NaN` and other values that `JSON.stringify` does not map to JSON text are not modelled.
- The parser rejects `\u` escapes that name a UTF-16 surrogate. Characters outside the Basic Multilingual Plane are treated as single characters rather than surrogate pairs.
- ObjectSpread.OwnEntries: the properties of an object keep their insertion order. JavaScript lists integer-like property names first, in ascending order.
- ObjectSpread.OwnEntries: spreading a string gives one entry per character. JavaScript gives one entry per UTF-16 code unit, so a character outside the Basic Multilingual Plane gives two entries there, each holding one of its surrogate halves.
- JavaScript's `this` binding of `set` and `update` (`this.get`) is not modelled. The model always calls the store's own `Get`.
- Races with other contexts writing the same backend between two calls are left out. Each call runs to completion.
