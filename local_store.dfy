/**
 * The typed facade `createLocalStore` returns: per-key get, set, update and
 * clear over a synchronous string-to-string backend, every key namespaced
 * by a prefix, values kept as JSON text, and in-process change listeners.
 */
module LocalStore {
  import opened Wrappers
  import opened JsonValue
  import opened JsonEncode
  import opened JsonDecode
  import JsonRoundTrip
  import ObjectSpread
  import SeqLemmas

  // ----- keys and reads -----

  /** `getKey`: the backend key of a domain key is the prefix followed by the key. */
  function PhysicalKey(prefix: string, key: string): (pk: string)
    ensures prefix <= pk && pk[|prefix|..] == key
  {
    prefix + key
  }

  /** Two domain keys share a backend key only when they are the same key. */
  lemma PhysicalKeyInjective(prefix: string, key: string, other: string)
    ensures PhysicalKey(prefix, key) == PhysicalKey(prefix, other) <==> key == other
  {
    if PhysicalKey(prefix, key) == PhysicalKey(prefix, other) {
      assert key == PhysicalKey(prefix, key)[|prefix|..];
    }
  }

  /**
   * `safeJSONParse`: never fails. The result is null exactly when the text
   * is missing, empty, rejected by `JSON.parse`, or the text of null itself.
   */
  function SafeParse(text: Option<string>): (v: Value)
    ensures v == Null <==>
      text.None? || text.value == [] || Decode(text.value).None? || Decode(text.value) == Some(Null)
    ensures v != Null ==> Decode(text.value) == Some(v)
    ensures WellFormed(v)
  {
    if text.None? || text.value == [] then Null
    else
      match Decode(text.value)
      case None => Null
      case Some(v) => v
  }

  /** `getItem(pk)`: the text the backend holds under `pk`, or null when there is none. */
  function GetItem(storage: map<string, string>, pk: string): (text: Option<string>)
    ensures text.Some? <==> pk in storage
    ensures text.Some? ==> text.value == storage[pk]
  {
    if pk in storage then Some(storage[pk]) else None
  }

  /**
   * `get(key)` on a backend in state `storage`: always a well-formed value,
   * and null for a key that was never stored.
   */
  function Read(storage: map<string, string>, prefix: string, key: string): (v: Value)
    ensures WellFormed(v)
    ensures PhysicalKey(prefix, key) !in storage ==> v == Null
  {
    SafeParse(GetItem(storage, PhysicalKey(prefix, key)))
  }

  /** After the backend stores the JSON text of `v` under a key, `get` gives back `v`. */
  lemma ReadAfterWrite(storage: map<string, string>, prefix: string, key: string, v: Value)
    requires WellFormed(v)
    ensures Read(storage[PhysicalKey(prefix, key) := Encode(v)], prefix, key) == v
  {
    JsonRoundTrip.DecodeEncode(v);
    JsonRoundTrip.EncodeLead(v);
  }

  /**
   * What `update` writes reads back as the spread of the old value and the
   * partial: an object holding the partial's properties over the old ones.
   */
  lemma ReadAfterUpdate(storage: map<string, string>, prefix: string, key: string, partial: Value)
    requires WellFormed(partial)
    ensures var merged := ObjectSpread.Spread(Read(storage, prefix, key), partial);
      && merged.Obj?
      && Read(storage[PhysicalKey(prefix, key) := Encode(merged)], prefix, key) == merged
  {
    var merged := ObjectSpread.Spread(Read(storage, prefix, key), partial);
    ObjectSpread.SpreadSemantics(Read(storage, prefix, key), partial);
    ReadAfterWrite(storage, prefix, key, merged);
  }

  /** After `clear(key)`, `get(key)` reads null. */
  lemma ReadAfterRemove(storage: map<string, string>, prefix: string, key: string)
    ensures Read(storage - {PhysicalKey(prefix, key)}, prefix, key) == Null
  {
  }

  /** Writing or removing one key leaves what every other key reads unchanged. */
  lemma ReadOtherKey(storage: map<string, string>, prefix: string, key: string, other: string, text: string)
    requires other != key
    ensures Read(storage[PhysicalKey(prefix, key) := text], prefix, other) == Read(storage, prefix, other)
    ensures Read(storage - {PhysicalKey(prefix, key)}, prefix, other) == Read(storage, prefix, other)
  {
    PhysicalKeyInjective(prefix, key, other);
  }

  // ----- clearAll -----

  /**
   * The backend after `clearAll`: exactly the keys that do not start with
   * the prefix, with their texts. With the empty prefix every key starts
   * with it, so nothing is left, as `storage.clear()` leaves it.
   */
  function Retained(storage: map<string, string>, prefix: string): (r: map<string, string>)
    ensures forall k :: k in r <==> k in storage && !(prefix <= k)
    ensures forall k :: k in r ==> r[k] == storage[k]
    ensures prefix == [] ==> r == map[]
  {
    map k | k in storage && !(prefix <= k) :: storage[k]
  }

  /** After `clearAll` every domain key reads as null. */
  lemma ReadAfterClearAll(storage: map<string, string>, prefix: string, key: string)
    ensures Read(Retained(storage, prefix), prefix, key) == Null
  {
    assert PhysicalKey(prefix, key) !in Retained(storage, prefix);
  }

  /** `clearAll` twice is `clearAll` once. */
  lemma ClearAllIdempotent(storage: map<string, string>, prefix: string)
    ensures Retained(Retained(storage, prefix), prefix) == Retained(storage, prefix)
  {
  }

  // ----- listeners -----

  /** One `onChange` registration: the domain key and the registration's identity. */
  datatype Listener = Listener(key: string, id: nat)

  /** One invocation of a listener callback, with its `(newValue, oldValue)` arguments. */
  datatype Notification = Notification(listener: nat, newValue: Value, oldValue: Value)

  /** Registrations in the order `onChange` appended them: identities increase. */
  ghost predicate IdsIncreasing(ls: seq<Listener>)
  {
    forall i, j :: 0 <= i < j < |ls| ==> ls[i].id < ls[j].id
  }

  /**
   * `notifyListeners(key, newValue, oldValue)`: the invocations of the
   * listeners registered for `key`, in registration order; at most one per
   * registration, each with the same arguments.
   */
  function Notifications(ls: seq<Listener>, key: string, newValue: Value, oldValue: Value): (r: seq<Notification>)
    ensures |r| <= |ls|
    ensures forall n :: n in r ==> n.newValue == newValue && n.oldValue == oldValue
  {
    if ls == [] then []
    else
      (if ls[0].key == key then [Notification(ls[0].id, newValue, oldValue)] else [])
      + Notifications(ls[1..], key, newValue, oldValue)
  }

  /** Notifying over two runs of registrations notifies over the first, then the second. */
  lemma {:induction false} NotificationsAppend(a: seq<Listener>, b: seq<Listener>, key: string, newValue: Value, oldValue: Value)
    ensures Notifications(a + b, key, newValue, oldValue) ==
      Notifications(a, key, newValue, oldValue) + Notifications(b, key, newValue, oldValue)
  {
    if a == [] {
      assert a + b == b;
    } else {
      var head := if a[0].key == key then [Notification(a[0].id, newValue, oldValue)] else [];
      var first, second := Notifications(a[1..], key, newValue, oldValue), Notifications(b, key, newValue, oldValue);
      assert (a + b)[0] == a[0];
      assert (a + b)[1..] == a[1..] + b;
      calc {
        Notifications(a + b, key, newValue, oldValue);
        head + Notifications(a[1..] + b, key, newValue, oldValue);
        { NotificationsAppend(a[1..], b, key, newValue, oldValue); }
        head + (first + second);
        head + first + second;
      }
    }
  }

  /** Notifying over one more registration adds at most that registration's call. */
  lemma NotificationsStep(ls: seq<Listener>, i: int, key: string, newValue: Value, oldValue: Value)
    requires 0 <= i < |ls|
    ensures Notifications(ls[..i + 1], key, newValue, oldValue) == Notifications(ls[..i], key, newValue, oldValue) +
      if ls[i].key == key then [Notification(ls[i].id, newValue, oldValue)] else []
  {
    NotificationsAppend(ls[..i], [ls[i]], key, newValue, oldValue);
    assert ls[..i + 1] == ls[..i] + [ls[i]];
    assert [ls[i]][1..] == [];
  }

  /**
   * Exactly the listeners registered for `key` are invoked, every one with
   * the same `(newValue, oldValue)`; with identities in registration order,
   * the invocations follow that order.
   */
  lemma {:induction false} NotificationsExact(ls: seq<Listener>, key: string, newValue: Value, oldValue: Value)
    ensures forall n :: n in Notifications(ls, key, newValue, oldValue) <==>
      n.newValue == newValue && n.oldValue == oldValue && Listener(key, n.listener) in ls
    ensures IdsIncreasing(ls) ==> forall i, j ::
      0 <= i < j < |Notifications(ls, key, newValue, oldValue)| ==>
        Notifications(ls, key, newValue, oldValue)[i].listener < Notifications(ls, key, newValue, oldValue)[j].listener
  {
    if ls != [] {
      NotificationsExact(ls[1..], key, newValue, oldValue);
      assert forall l :: l in ls <==> l == ls[0] || l in ls[1..];
      if IdsIncreasing(ls) {
        var rest := Notifications(ls[1..], key, newValue, oldValue);
        forall n | n in rest ensures ls[0].id < n.listener {
          var k :| 0 <= k < |ls[1..]| && ls[1..][k] == Listener(key, n.listener);
          assert ls[k + 1].id == n.listener;
        }
      }
    }
  }

  /**
   * `listeners.indexOf(listener)` followed by `splice(index, 1)`: the first
   * registration with `id` removed, so one fewer registration when there is
   * one with `id`, and none added.
   */
  function Unregistered(ls: seq<Listener>, id: nat): (r: seq<Listener>)
    ensures |r| == if exists i :: 0 <= i < |ls| && ls[i].id == id then |ls| - 1 else |ls|
    ensures forall l :: l in r ==> l in ls
  {
    if ls == [] then []
    else if ls[0].id == id then ls[1..]
    else [ls[0]] + Unregistered(ls[1..], id)
  }

  /** Removing the first registration with `id`, found at index `i`, is the splice at `i`. */
  lemma {:induction false} UnregisteredAt(ls: seq<Listener>, id: nat, i: int)
    requires -1 <= i < |ls|
    requires i >= 0 ==> ls[i].id == id
    requires forall j :: 0 <= j < |ls| && (i < 0 || j < i) ==> ls[j].id != id
    ensures Unregistered(ls, id) == if i < 0 then ls else ls[..i] + ls[i + 1..]
  {
    if ls != [] && i != 0 {
      UnregisteredAt(ls[1..], id, if i < 0 then -1 else i - 1);
      if i < 0 {
        assert [ls[0]] + ls[1..] == ls;
      } else {
        assert [ls[0]] + (ls[1..][..i - 1] + ls[1..][i..]) == ls[..i] + ls[i + 1..];
      }
    }
  }

  /** Dropping the first registration keeps identities increasing, all above the dropped one. */
  lemma IdsIncreasingTail(ls: seq<Listener>)
    requires ls != [] && IdsIncreasing(ls)
    ensures IdsIncreasing(ls[1..])
    ensures forall l :: l in ls[1..] ==> ls[0].id < l.id
  {
    forall l | l in ls[1..] ensures ls[0].id < l.id {
      var k :| 0 <= k < |ls[1..]| && ls[1..][k] == l;
      assert ls[k + 1] == l;
    }
  }

  /**
   * With increasing identities, unregistering removes exactly the
   * registrations with that identity and keeps the others.
   */
  lemma {:induction false} UnregisteredMembers(ls: seq<Listener>, id: nat)
    requires IdsIncreasing(ls)
    ensures forall l :: l in Unregistered(ls, id) <==> l in ls && l.id != id
  {
    if ls != [] {
      IdsIncreasingTail(ls);
      UnregisteredMembers(ls[1..], id);
      assert forall l :: l in ls <==> l == ls[0] || l in ls[1..];
    }
  }

  /** Unregistering keeps the remaining registrations in registration order. */
  lemma {:induction false} UnregisteredIncreasing(ls: seq<Listener>, id: nat)
    requires IdsIncreasing(ls)
    ensures IdsIncreasing(Unregistered(ls, id))
  {
    if ls != [] && ls[0].id != id {
      IdsIncreasingTail(ls);
      UnregisteredIncreasing(ls[1..], id);
      UnregisteredMembers(ls[1..], id);
      var r := [ls[0]] + Unregistered(ls[1..], id);
      forall i, j | 0 <= i < j < |r| ensures r[i].id < r[j].id {
        assert r[j] in Unregistered(ls[1..], id);
      }
    }
  }

  /** Calling the unregister function a second time changes nothing. */
  lemma UnregisterTwice(ls: seq<Listener>, id: nat)
    requires IdsIncreasing(ls)
    ensures Unregistered(Unregistered(ls, id), id) == Unregistered(ls, id)
  {
    UnregisteredMembers(ls, id);
    NoSuchId(Unregistered(ls, id), id);
  }

  /** Unregistering an identity no registration carries changes nothing. */
  lemma {:induction false} NoSuchId(ls: seq<Listener>, id: nat)
    requires forall l :: l in ls ==> l.id != id
    ensures Unregistered(ls, id) == ls
  {
    if ls != [] {
      NoSuchId(ls[1..], id);
      assert [ls[0]] + ls[1..] == ls;
    }
  }

  /** An unregistered callback is not invoked by later notifications. */
  lemma UnregisteredSilent(ls: seq<Listener>, id: nat, key: string, newValue: Value, oldValue: Value)
    requires IdsIncreasing(ls)
    ensures forall n :: n in Notifications(Unregistered(ls, id), key, newValue, oldValue) ==> n.listener != id
  {
    UnregisteredMembers(ls, id);
    NotificationsExact(Unregistered(ls, id), key, newValue, oldValue);
  }

  // ----- the cross-context storage event -----

  /** The `storage` event the host fires when another context changes the backend. */
  datatype StorageEvent = StorageEvent(key: Option<string>, newValue: Option<string>, oldValue: Option<string>)

  /**
   * The handler `onChange` subscribes: for an event on this key's backend
   * key, the callback's `(newValue, oldValue)` arguments, parsed as `get`
   * parses; for any other event, no call. A value another context stored
   * reaches the callback intact, and a removal arrives as null.
   */
  function StorageEventArgs(prefix: string, key: string, event: StorageEvent): (r: Option<(Value, Value)>)
    ensures r.Some? <==> event.key == Some(PhysicalKey(prefix, key))
    ensures forall v :: WellFormed(v) && r.Some? && event.newValue == Some(Encode(v)) ==> r.value.0 == v
    ensures forall v :: WellFormed(v) && r.Some? && event.oldValue == Some(Encode(v)) ==> r.value.1 == v
    ensures r.Some? && event.newValue.None? ==> r.value.0 == Null
  {
    assert forall v :: WellFormed(v) ==> SafeParse(Some(Encode(v))) == v by {
      forall v | WellFormed(v) ensures SafeParse(Some(Encode(v))) == v {
        JsonRoundTrip.DecodeEncode(v);
        JsonRoundTrip.EncodeLead(v);
      }
    }
    if event.key == Some(PhysicalKey(prefix, key)) then
      Some((SafeParse(event.newValue), SafeParse(event.oldValue)))
    else None
  }

  // ----- the facade -----

  /** What a thrown value is: an `Error` with a name, or anything else. */
  datatype Thrown = ErrorValue(name: string) | NonErrorValue

  /** How the backend's `setItem` ends: it stores the text, or it throws. */
  datatype SetItemOutcome = Written | Throws(thrown: Thrown)

  /** How `set` and `update` end: they return, or they re-throw the `Error` named. */
  datatype Completion = Normal | Rethrown(name: string)

  /** The error names browsers give an exhausted storage quota. */
  predicate IsQuotaError(name: string)
  {
    name == "QuotaExceededError" || name == "NS_ERROR_DOM_QUOTA_REACHED"
  }

  class Store {
    /** The injected backend, as its key/text contents. */
    var storage: map<string, string>
    const prefix: string
    /** The `listeners` array, in registration order. */
    var listeners: seq<Listener>
    /** The identity the next registration gets. */
    var nextId: nat
    /** Every listener invocation so far, in order. */
    var invoked: seq<Notification>

    ghost predicate Valid()
      reads this
    {
      IdsIncreasing(listeners) && forall i :: 0 <= i < |listeners| ==> listeners[i].id < nextId
    }

    /** `createLocalStore({ storage, prefix })`: no listeners yet. */
    constructor (storage: map<string, string>, prefix: string)
      ensures Valid()
      ensures this.storage == storage && this.prefix == prefix
      ensures listeners == [] && invoked == []
    {
      this.storage := storage;
      this.prefix := prefix;
      listeners := [];
      nextId := 0;
      invoked := [];
    }

    /** `get(key)`: reads, never throws, changes nothing. */
    method Get(key: string) returns (value: Value)
      ensures value == Read(storage, prefix, key)
    {
      var storageKey := PhysicalKey(prefix, key);
      var text := GetItem(storage, storageKey);
      value := SafeParse(text);
    }

    /** `notifyListeners`: invokes, in order, every listener registered for `key`. */
    method NotifyListeners(key: string, newValue: Value, oldValue: Value)
      modifies this`invoked
      ensures invoked == old(invoked) + Notifications(listeners, key, newValue, oldValue)
    {
      var i := 0;
      while i < |listeners|
        invariant 0 <= i <= |listeners|
        invariant invoked == old(invoked) + Notifications(listeners[..i], key, newValue, oldValue)
      {
        NotificationsStep(listeners, i, key, newValue, oldValue);
        if listeners[i].key == key {
          var call := Notification(listeners[i].id, newValue, oldValue);
          SeqLemmas.Assoc(old(invoked), Notifications(listeners[..i], key, newValue, oldValue), [call]);
          invoked := invoked + [call];
        }
        i := i + 1;
      }
      assert listeners[..i] == listeners;
    }

    /**
     * `set(key, value)`: reads the old value, writes the JSON text, then
     * notifies. A quota error, or a thrown value that is not an `Error`,
     * is swallowed with nothing written and nobody notified; any other
     * `Error` is re-thrown.
     */
    method Set(key: string, value: Value, outcome: SetItemOutcome) returns (completion: Completion)
      requires Valid()
      modifies this
      ensures Valid() && listeners == old(listeners) && nextId == old(nextId)
      ensures completion.Rethrown? <==>
        outcome.Throws? && outcome.thrown.ErrorValue? && !IsQuotaError(outcome.thrown.name)
      ensures completion.Rethrown? ==> completion.name == outcome.thrown.name
      ensures outcome.Written? ==>
        && storage == old(storage)[PhysicalKey(prefix, key) := Encode(value)]
        && invoked == old(invoked) + Notifications(listeners, key, value, old(Read(storage, prefix, key)))
      ensures !outcome.Written? ==> storage == old(storage) && invoked == old(invoked)
    {
      var storageKey := PhysicalKey(prefix, key);
      var oldValue := Get(key);
      match outcome
      case Written =>
        storage := storage[storageKey := Encode(value)];
        NotifyListeners(key, value, oldValue);
        completion := Normal;
      case Throws(ErrorValue(name)) =>
        if IsQuotaError(name) {
          completion := Normal;
        } else {
          completion := Rethrown(name);
        }
      case Throws(NonErrorValue) =>
        completion := Normal;
    }

    /** `update(key, partial)`: `set(key, { ...get(key), ...partial })`. */
    method Update(key: string, partial: Value, outcome: SetItemOutcome) returns (completion: Completion)
      requires Valid()
      modifies this
      ensures Valid() && listeners == old(listeners) && nextId == old(nextId)
      ensures completion.Rethrown? <==>
        outcome.Throws? && outcome.thrown.ErrorValue? && !IsQuotaError(outcome.thrown.name)
      ensures completion.Rethrown? ==> completion.name == outcome.thrown.name
      ensures outcome.Written? ==>
        var merged := ObjectSpread.Spread(old(Read(storage, prefix, key)), partial);
        && storage == old(storage)[PhysicalKey(prefix, key) := Encode(merged)]
        && invoked == old(invoked) + Notifications(listeners, key, merged, old(Read(storage, prefix, key)))
      ensures !outcome.Written? ==> storage == old(storage) && invoked == old(invoked)
    {
      var oldValue := Get(key);
      var newValue := ObjectSpread.Spread(oldValue, partial);
      completion := Set(key, newValue, outcome);
    }

    /** `clear(key)`: removes the key, then notifies its listeners with `(null, oldValue)`. */
    method Clear(key: string)
      requires Valid()
      modifies this
      ensures Valid() && listeners == old(listeners) && nextId == old(nextId)
      ensures storage == old(storage) - {PhysicalKey(prefix, key)}
      ensures invoked == old(invoked) + Notifications(listeners, key, Null, old(Read(storage, prefix, key)))
    {
      var storageKey := PhysicalKey(prefix, key);
      var oldValue := Get(key);
      storage := storage - {storageKey};
      NotifyListeners(key, Null, oldValue);
    }

    /**
     * `clearAll()`: with a prefix, removes one by one every backend key
     * that starts with it; without one, clears the backend. No listener is
     * notified.
     */
    method ClearAll()
      modifies this`storage
      ensures storage == Retained(old(storage), prefix)
    {
      if prefix != [] {
        var keys := storage.Keys;
        while keys != {}
          invariant keys <= old(storage).Keys
          invariant forall k :: k in storage <==> k in old(storage) && (k in keys || !(prefix <= k))
          invariant forall k :: k in storage ==> storage[k] == old(storage)[k]
          decreases keys
        {
          var k :| k in keys;
          if prefix <= k {
            storage := storage - {k};
          }
          keys := keys - {k};
        }
      } else {
        storage := map[];
      }
    }

    /**
     * `onChange(key, callback)`: appends one registration and returns its
     * identity, which is new: identities are handed out in increasing
     * order and never reused, even after an unregister.
     */
    method OnChange(key: string) returns (id: nat)
      requires Valid()
      modifies this`listeners, this`nextId
      ensures Valid()
      ensures listeners == old(listeners) + [Listener(key, id)]
      ensures forall l :: l in old(listeners) ==> l.id != id
      ensures id == old(nextId) && nextId == id + 1
    {
      id := nextId;
      listeners := listeners + [Listener(key, id)];
      nextId := nextId + 1;
    }

    /** `listeners.indexOf`: the first position of the registration with `id`, or -1. */
    method IndexOf(id: nat) returns (index: int)
      ensures -1 <= index < |listeners|
      ensures index >= 0 ==> listeners[index].id == id
      ensures forall j :: 0 <= j < |listeners| && (index < 0 || j < index) ==> listeners[j].id != id
    {
      index := 0;
      while index < |listeners|
        invariant 0 <= index <= |listeners|
        invariant forall j :: 0 <= j < index ==> listeners[j].id != id
      {
        if listeners[index].id == id {
          return;
        }
        index := index + 1;
      }
      index := -1;
    }

    /**
     * The function `onChange` returns: removes its own registration if it
     * is still there; calling it again changes nothing.
     */
    method Unregister(id: nat)
      requires Valid()
      modifies this`listeners
      ensures Valid()
      ensures listeners == Unregistered(old(listeners), id)
    {
      var index := IndexOf(id);
      UnregisteredAt(listeners, id, index);
      UnregisteredMembers(listeners, id);
      UnregisteredIncreasing(listeners, id);
      if index > -1 {
        listeners := listeners[..index] + listeners[index + 1..];
      }
    }
  }
}
