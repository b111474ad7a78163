/** InstaFed's utility modules: the event registry, the path-addressed
    application state and the error handler's classification. State
    objects are modelled as values (a tree of objects, arrays and
    primitives). The clock is a parameter. */
module InstaFed {
  import opened Wrappers
  import opened Strings
  import opened Seqs
  import opened ErrorHandling

  /* ---------- EventManager ---------- */

  /** A listener function, known by its identity. */
  datatype Callback = Callback(id: nat)

  /** `callbacks.indexOf(x)` then `splice(index, 1)` when it is found. */
  function RemoveFirst(s: seq<Callback>, x: Callback): (r: seq<Callback>)
    ensures x !in s ==> r == s
    ensures x in s ==> |r| == |s| - 1
  {
    if x in s then
      var k := FirstIndex(s, x);
      s[..k] + s[k + 1..]
    else s
  }

  /** Removing takes exactly one copy of the callback away and keeps the
      order of the rest. */
  lemma RemoveFirstCount(s: seq<Callback>, x: Callback)
    ensures x in s ==> multiset(RemoveFirst(s, x)) == multiset(s) - multiset{x}
    ensures x in s ==> RemoveFirst(s, x) == s[..FirstIndex(s, x)] + s[FirstIndex(s, x) + 1..]
  {
    if x in s {
      var k := FirstIndex(s, x);
      assert s == s[..k] + [x] + s[k + 1..];
      assert multiset(s) == multiset(s[..k]) + multiset{x} + multiset(s[k + 1..]);
    }
  }

  /** Registering a new callback and removing it again restores the list. */
  lemma OnThenRemove(s: seq<Callback>, x: Callback)
    requires x !in s
    ensures RemoveFirst(s + [x], x) == s
  {
    assert (s + [x])[|s|] == x;
    assert forall m :: 0 <= m < |s| ==> (s + [x])[m] != x;
    assert FirstIndex(s + [x], x) == |s|;
    assert (s + [x])[..|s|] == s;
  }

  /** `EventManager`: the callbacks registered per event name. */
  class EventManager {
    var listeners: map<string, seq<Callback>>

    constructor()
      ensures listeners == map[]
    {
      listeners := map[];
    }

    /** The callbacks of `event`, in registration order. */
    function Registered(event: string): (r: seq<Callback>)
      reads this
      ensures event !in listeners ==> r == []
    {
      if event in listeners then listeners[event] else []
    }

    /** `on(event, callback)`: appended, duplicates allowed. */
    method On(event: string, callback: Callback)
      modifies this
      ensures listeners == old(listeners)[event := old(Registered(event)) + [callback]]
    {
      if event !in listeners {
        listeners := listeners[event := []];
      }
      listeners := listeners[event := listeners[event] + [callback]];
    }

    /** `emit(event, data)`: every callback of the event is called in
        order; `throws` says which ones throw, which does not stop the
        others. The result lists each call with whether it threw. */
    method Emit(event: string, throws: Callback -> bool) returns (calls: seq<(Callback, bool)>)
      ensures |calls| == |Registered(event)|
      ensures forall k :: 0 <= k < |calls| ==> calls[k] == (Registered(event)[k], throws(Registered(event)[k]))
    {
      calls := [];
      if event in listeners {
        var callbacks := listeners[event];
        var i := 0;
        while i < |callbacks|
          invariant 0 <= i <= |callbacks| && |calls| == i
          invariant forall k :: 0 <= k < i ==> calls[k] == (callbacks[k], throws(callbacks[k]))
        {
          var threw := throws(callbacks[i]);
          calls := calls + [(callbacks[i], threw)];
          i := i + 1;
        }
      }
    }

    /** `removeListener(event, callback)`: the first copy goes; nothing
        changes when the callback or the event is absent. */
    method RemoveListener(event: string, callback: Callback)
      modifies this
      ensures event in old(listeners) ==> listeners == old(listeners)[event := RemoveFirst(old(listeners)[event], callback)]
      ensures event !in old(listeners) ==> listeners == old(listeners)
    {
      if event in listeners {
        var callbacks := listeners[event];
        if callback in callbacks {
          var index := FirstIndex(callbacks, callback);
          listeners := listeners[event := callbacks[..index] + callbacks[index + 1..]];
        }
      }
    }
  }

  /* ---------- AppStateManager ---------- */

  /** A state value as JavaScript holds it; numbers are integers here. */
  datatype JsValue =
    | Object(fields: map<string, JsValue>)
    | Array(items: seq<JsValue>)
    | Str(s: string)
    | Num(n: int)
    | Bool(b: bool)
    | Null

  const EmptyObject: JsValue := Object(map[])

  /** Objects and arrays: the values that `in` and property assignment
      accept (on the others they throw a `TypeError`). */
  predicate IsContainer(v: JsValue) {
    v.Object? || v.Array?
  }

  /** The array index a key names: its canonical decimal text ("0", "12",
      not "01"). */
  function IndexOf(key: string): (r: Option<nat>)
    ensures r.Some? ==> key == NatToDecimal(r.value)
  {
    if key != [] && (forall k :: 0 <= k < |key| ==> '0' <= key[k] <= '9') && NatToDecimal(DecimalValue(key)) == key
    then Some(DecimalValue(key))
    else None
  }

  /** Every index is named by its decimal text. */
  lemma IndexOfDecimal(k: nat)
    ensures IndexOf(NatToDecimal(k)) == Some(k)
  {
    DecimalRoundTrip(k);
  }

  /** `key in v` and then `v[key]`: an object's own fields, and an array's
      elements by index and its `length`; `None` for anything else. */
  function Child(v: JsValue, key: string): (r: Option<JsValue>)
    ensures !IsContainer(v) ==> r.None?
    ensures v.Object? ==> (r.Some? <==> key in v.fields)
    ensures v.Array? && key == "length" ==> r == Some(Num(|v.items|))
  {
    match v
    case Object(fields) => if key in fields then Some(fields[key]) else None
    case Array(items) =>
      if key == "length" then Some(Num(|items|))
      else if IndexOf(key).Some? && IndexOf(key).value < |items| then Some(items[IndexOf(key).value])
      else None
    case _ => None
  }

  /** The value the walk of `update` continues with: the existing child, or
      the `{}` it creates when the key is missing. */
  function ChildOrNew(v: JsValue, key: string): JsValue {
    if Child(v, key).Some? then Child(v, key).value else EmptyObject
  }

  /** What a write does: the new value, a `TypeError`, or a write this
      model does not represent (see `Assign`). */
  datatype Write = Written(value: JsValue) | Threw | Unmodelled

  /** `v[key] = x` on an object or array: an object gains or replaces the
      field; an array replaces the element at an index below its length or
      appends at its length. Any other key on an array is `Unmodelled`. */
  function Assign(v: JsValue, key: string, x: JsValue): (r: Write)
    requires IsContainer(v)
    ensures r.Written? ==> Child(r.value, key) == Some(x) && r.value.Object? == v.Object? && IsContainer(r.value)
    ensures v.Object? ==> r == Written(Object(v.fields[key := x]))
    ensures r.Unmodelled? <==> v.Array? && (IndexOf(key).None? || IndexOf(key).value > |v.items|)
  {
    if v.Object? then Written(Object(v.fields[key := x]))
    else if IndexOf(key).None? then Unmodelled
    else if IndexOf(key).value < |v.items| then Written(Array(v.items[IndexOf(key).value := x]))
    else if IndexOf(key).value == |v.items| then Written(Array(v.items + [x]))
    else Unmodelled
  }

  /** An assignment changes no other key, apart from an array's `length`. */
  lemma AssignFrame(v: JsValue, key: string, x: JsValue, other: string)
    requires IsContainer(v) && Assign(v, key, x).Written?
    requires other != key && other != "length"
    ensures Child(Assign(v, key, x).value, other) == Child(v, other)
  {
    if v.Array? && IndexOf(other).Some? && IndexOf(key).Some? {
      assert IndexOf(other).value != IndexOf(key).value;
    }
  }

  /** The walk of `update` does not throw: every container on it holds an
      object or array at each existing key it goes through, and the last
      one it reaches is a container too. */
  predicate Walkable(v: JsValue, keys: seq<string>)
    requires |keys| >= 1
    decreases |keys|
  {
    IsContainer(v) &&
    (|keys| == 1 || Child(v, keys[0]).None? || Walkable(Child(v, keys[0]).value, keys[1..]))
  }

  /** Every key the walk writes into an array is an index no greater than
      the array's length. */
  predicate ArrayKeysFit(v: JsValue, keys: seq<string>)
    requires |keys| >= 1
    decreases |keys|
  {
    (v.Array? ==> IndexOf(keys[0]).Some? && IndexOf(keys[0]).value <= |v.items|) &&
    (|keys| == 1 || ArrayKeysFit(ChildOrNew(v, keys[0]), keys[1..]))
  }

  /** The walk of `update(path, value)` on the keys of `path`: missing
      intermediate keys get a new `{}` and the last key is assigned. It
      throws exactly when the walk is not walkable, before anything was
      created; it leaves the model exactly when it writes into an array at
      a key that does not fit. */
  function SetPath(v: JsValue, keys: seq<string>, x: JsValue): (r: Write)
    requires |keys| >= 1
    ensures r.Threw? <==> !Walkable(v, keys)
    ensures r.Unmodelled? <==> Walkable(v, keys) && !ArrayKeysFit(v, keys)
    ensures r.Written? ==> IsContainer(r.value) && r.value.Object? == v.Object?
    ensures r.Written? && v.Object? ==> r.value.fields.Keys == v.fields.Keys + {keys[0]}
    decreases |keys|
  {
    if !IsContainer(v) then Threw
    else if |keys| == 1 then Assign(v, keys[0], x)
    else
      match SetPath(ChildOrNew(v, keys[0]), keys[1..], x)
      case Written(c) => Assign(v, keys[0], c)
      case other => other
  }

  /** The walk of `get(path)`: undefined (`None`) as soon as a key is
      missing or the current value is not an object or array. */
  function Lookup(v: JsValue, keys: seq<string>): (r: Option<JsValue>)
    ensures keys == [] ==> r == Some(v)
    decreases |keys|
  {
    if keys == [] then Some(v)
    else match Child(v, keys[0])
      case Some(c) => Lookup(c, keys[1..])
      case None => None
  }

  /** The walk of `get` reaches key `i` and stops there: the value reached
      is not an object or array, or does not have that key. */
  predicate StopsAt(v: JsValue, keys: seq<string>, i: nat)
    requires i < |keys|
  {
    Lookup(v, keys[..i]).Some? && Child(Lookup(v, keys[..i]).value, keys[i]).None?
  }

  /** Reading through a child is reading the rest of the path from it. */
  lemma LookupPrefixStep(v: JsValue, keys: seq<string>, c: JsValue, j: nat)
    requires j < |keys| && Child(v, keys[0]) == Some(c)
    ensures Lookup(v, keys[..j + 1]) == Lookup(c, keys[1..][..j])
  {
    assert keys[..j + 1][0] == keys[0];
    assert keys[..j + 1][1..] == keys[1..][..j];
  }

  /** The walk of `get` stops at some key of `keys`. */
  predicate Stops(v: JsValue, keys: seq<string>) {
    exists i :: 0 <= i < |keys| && StopsAt(v, keys, i)
  }

  /** `get` is undefined exactly when its walk stops at some key. */
  lemma {:induction false} LookupNone(v: JsValue, keys: seq<string>)
    ensures Lookup(v, keys).None? <==> Stops(v, keys)
    decreases |keys|
  {
    if keys != [] {
      assert keys[..0] == [];
      match Child(v, keys[0])
      case None =>
        assert StopsAt(v, keys, 0);
      case Some(c) =>
        LookupNone(c, keys[1..]);
        assert !StopsAt(v, keys, 0);
        if Lookup(v, keys).None? {
          var j :| 0 <= j < |keys| - 1 && StopsAt(c, keys[1..], j);
          LookupPrefixStep(v, keys, c, j);
          assert StopsAt(v, keys, j + 1);
        } else if exists i :: 0 <= i < |keys| && StopsAt(v, keys, i) {
          var i :| 0 <= i < |keys| && StopsAt(v, keys, i);
          LookupPrefixStep(v, keys, c, i - 1);
          assert StopsAt(c, keys[1..], i - 1);
        }
    }
  }

  /** Reading a path back after writing it gives the written value. */
  lemma {:induction false} LookupAfterSet(v: JsValue, keys: seq<string>, x: JsValue)
    requires |keys| >= 1 && SetPath(v, keys, x).Written?
    ensures Lookup(SetPath(v, keys, x).value, keys) == Some(x)
    decreases |keys|
  {
    if |keys| > 1 {
      LookupAfterSet(ChildOrNew(v, keys[0]), keys[1..], x);
    }
  }

  /** `p` is a prefix of `q`. */
  predicate PrefixOf(p: seq<string>, q: seq<string>) {
    |p| <= |q| && q[..|p|] == p
  }

  lemma EmptyPrefix(s: seq<string>)
    ensures PrefixOf([], s)
  {
    assert s[..0] == [];
  }

  /** Two paths with the same first key are in prefix order exactly when
      their tails are. */
  lemma ConsPrefix(a: seq<string>, b: seq<string>)
    requires a != [] && b != [] && a[0] == b[0]
    ensures PrefixOf(a, b) <==> PrefixOf(a[1..], b[1..])
  {
    if PrefixOf(a[1..], b[1..]) {
      assert b[..|a|] == [b[0]] + b[1..][..|a| - 1];
      assert a == [a[0]] + a[1..];
    }
    if PrefixOf(a, b) {
      assert b[1..][..|a| - 1] == b[..|a|][1..];
    }
  }

  /** A write changes no path that is neither a prefix nor an extension of
      the written one, apart from the `length` of an array it appends to. */
  lemma {:induction false} SetPathFrame(v: JsValue, keys: seq<string>, x: JsValue, q: seq<string>)
    requires |keys| >= 1 && SetPath(v, keys, x).Written?
    requires !PrefixOf(q, keys) && !PrefixOf(keys, q) && "length" !in q
    ensures Lookup(SetPath(v, keys, x).value, q) == Lookup(v, q)
    decreases |keys|
  {
    EmptyPrefix(keys);
    if q[0] != keys[0] {
      if |keys| == 1 {
        AssignFrame(v, keys[0], x, q[0]);
      } else {
        AssignFrame(v, keys[0], SetPath(ChildOrNew(v, keys[0]), keys[1..], x).value, q[0]);
      }
    } else {
      ConsPrefix(q, keys);
      ConsPrefix(keys, q);
      EmptyPrefix(q[1..]);
      EmptyPrefix(keys[1..]);
      assert "length" !in q[1..];
      SetPathFrame(ChildOrNew(v, keys[0]), keys[1..], x, q[1..]);
    }
  }

  /** Every proper prefix of a written path holds an object or array
      afterwards, missing ones having been created. */
  lemma {:induction false} SetPathCreates(v: JsValue, keys: seq<string>, x: JsValue, i: nat)
    requires |keys| >= 1 && SetPath(v, keys, x).Written? && i < |keys|
    ensures Lookup(SetPath(v, keys, x).value, keys[..i]).Some?
    ensures IsContainer(Lookup(SetPath(v, keys, x).value, keys[..i]).value)
    decreases |keys|
  {
    if i > 0 {
      SetPathCreates(ChildOrNew(v, keys[0]), keys[1..], x, i - 1);
      assert keys[..i][1..] == keys[1..][..i - 1];
    }
  }

  /** The record `createError` builds, as a state value. */
  function RecordValue(e: ErrorRecord): (r: JsValue)
    ensures r.Object? && r.fields.Keys == {"message", "type", "timestamp", "originalError"}
  {
    Object(map[
      "message" := Str(e.message),
      "type" := Str(e.kind),
      "timestamp" := Str(e.timestamp),
      "originalError" :=
        match e.originalError
        case None => Null
        case Some(o) => Object(map["message" := Str(o.message), "stack" := Str(o.stack)])])
  }

  /** The entry `addError(error)` pushes: `message` is the error's message
      when it has a non-empty one, otherwise the error itself. */
  function ProcessingEntry(error: ErrorArg, now: string): (r: JsValue)
    ensures r.Object? && r.fields.Keys == {"message", "timestamp", "type"}
    ensures r.fields["type"] == Str("processing") && r.fields["timestamp"] == Str(now)
    ensures error.Text? ==> r.fields["message"] == Str(error.text)
    ensures error.Record? && error.record.message != [] ==> r.fields["message"] == Str(error.record.message)
    ensures error.Record? && error.record.message == [] ==> r.fields["message"] == RecordValue(error.record)
  {
    var message := match error
      case Text(s) => Str(s)
      case Record(e) => if e.message != [] then Str(e.message) else RecordValue(e);
    Object(map["message" := message, "timestamp" := Str(now), "type" := Str("processing")])
  }

  /** The literal `AppStateManager.state` starts from. */
  const InitialState: JsValue := Object(map[
    "currentStep" := Num(1),
    "archiveFile" := Null,
    "archiveData" := Null,
    "convertedData" := Null,
    "stats" := Object(map["photos" := Num(0), "videos" := Num(0), "totalSize" := Num(0)]),
    "username" := Null,
    "processingErrors" := Array([]),
    "options" := Object(map[
      "fixEmptyCaptions" := Bool(true),
      "captionPlaceholder" := Str("Migrated thanks to #instafed"),
      "customPlaceholder" := Str(""),
      "optimizeStructure" := Bool(true),
      "cleanMetadata" := Bool(false),
      "metadataLevel" := Str("strict"),
      "addHashtags" := Bool(false),
      "hashtagList" := Str("#migration #pixelfed"),
      "preserveDates" := Bool(false)])])

  /** `state.processingErrors` when it is an array, the only case where
      `push` works. */
  function ErrorsOf(v: JsValue): (r: Option<seq<JsValue>>)
    ensures r.Some? <==> Lookup(v, ["processingErrors"]).Some? && Lookup(v, ["processingErrors"]).value.Array?
    ensures r.Some? ==> v.Object? && v.fields["processingErrors"] == Array(r.value)
  {
    if v.Object? && "processingErrors" in v.fields && v.fields["processingErrors"].Array?
    then Some(v.fields["processingErrors"].items)
    else None
  }

  /** The state with `processingErrors` set to the array `items`. */
  function WithErrors(v: JsValue, items: seq<JsValue>): (r: JsValue)
    requires v.Object?
    ensures ErrorsOf(r) == Some(items)
    ensures r.Object? && r.fields.Keys == v.fields.Keys + {"processingErrors"}
    ensures forall key :: key in v.fields && key != "processingErrors" ==> r.fields[key] == v.fields[key]
  {
    Object(v.fields["processingErrors" := Array(items)])
  }

  /** `get("processingErrors.<k>")` and `get("processingErrors.length")`
      read the error list's entries and its size. */
  lemma ErrorsReadBack(v: JsValue, k: nat)
    requires ErrorsOf(v).Some?
    ensures Lookup(v, ["processingErrors", "length"]) == Some(Num(|ErrorsOf(v).value|))
    ensures k < |ErrorsOf(v).value| ==> Lookup(v, ["processingErrors", NatToDecimal(k)]) == Some(ErrorsOf(v).value[k])
    ensures k >= |ErrorsOf(v).value| ==> Lookup(v, ["processingErrors", NatToDecimal(k)]).None?
  {
    IndexOfDecimal(k);
    assert ["processingErrors", "length"][1..] == ["length"];
    assert ["processingErrors", NatToDecimal(k)][1..] == [NatToDecimal(k)];
  }

  /** The path `processingErrors.<k>` splits into those two keys. */
  lemma ErrorPathSplit(k: nat)
    ensures Split("processingErrors." + NatToDecimal(k), '.') == ["processingErrors", NatToDecimal(k)]
  {
    var d := NatToDecimal(k);
    assert forall m :: 0 <= m < |d| ==> d[m] != '.';
    SplitTwo("processingErrors", '.', d);
    assert "processingErrors." + d == "processingErrors" + "." + d;
  }

  /** The path `processingErrors.length` splits into those two keys. */
  lemma LengthPathSplit()
    ensures Split("processingErrors.length", '.') == ["processingErrors", "length"]
  {
    SplitTwo("processingErrors", '.', "length");
    assert "processingErrors.length" == "processingErrors" + "." + "length";
  }

  /** Each listener called with the value, in subscription order; a
      throwing listener is caught, so it stops none of the others. */
  predicate Delivers(calls: seq<(Callback, JsValue)>, callbacks: seq<Callback>, value: JsValue) {
    |calls| == |callbacks| && forall k :: 0 <= k < |calls| ==> calls[k] == (callbacks[k], value)
  }

  /** `AppStateManager`: the state tree and its listeners per path. */
  class AppStateManager {
    var state: JsValue
    var listeners: map<string, seq<Callback>>

    /** The state is always an object. */
    predicate Valid()
      reads this
    {
      state.Object?
    }

    constructor()
      ensures state == InitialState && listeners == map[]
      ensures Valid() && ErrorsOf(state) == Some([])
    {
      state := InitialState;
      listeners := map[];
    }

    /** The listeners subscribed to `path`, in subscription order. */
    function Subscribed(path: string): (r: seq<Callback>)
      reads this
      ensures path !in listeners ==> r == []
    {
      if path in listeners then listeners[path] else []
    }

    /** `subscribe(path, callback)`: appended, duplicates allowed. */
    method Subscribe(path: string, callback: Callback)
      modifies this
      ensures listeners == old(listeners)[path := old(Subscribed(path)) + [callback]]
      ensures state == old(state)
    {
      listeners := listeners[path := Subscribed(path) + [callback]];
    }

    /** `notifyListeners(path, value)`: the calls it makes. */
    method NotifyListeners(path: string, value: JsValue) returns (calls: seq<(Callback, JsValue)>)
      ensures Delivers(calls, Subscribed(path), value)
    {
      calls := [];
      var callbacks := Subscribed(path);
      var i := 0;
      while i < |callbacks|
        invariant 0 <= i <= |callbacks| && Delivers(calls, callbacks[..i], value)
      {
        calls := calls + [(callbacks[i], value)];
        i := i + 1;
      }
      assert callbacks[..i] == callbacks;
    }

    /** `reset()`: the state becomes a fresh copy of the initial literal. */
    method Reset()
      modifies this
      ensures state == InitialState && ErrorsOf(state) == Some([])
      ensures listeners == old(listeners) && Valid()
    {
      state := InitialState;
    }

    /** `update(path, value)` on the dot-separated keys of `path`, then the
        path's listeners are notified. A throwing walk changes nothing and
        notifies no one. */
    method Update(path: string, value: JsValue) returns (outcome: Write, calls: seq<(Callback, JsValue)>)
      modifies this
      ensures outcome == SetPath(old(state), Split(path, '.'), value)
      ensures outcome.Written? ==> state == outcome.value && Delivers(calls, Subscribed(path), value)
      ensures !outcome.Written? ==> state == old(state) && calls == []
      ensures listeners == old(listeners) && state.Object? == old(state).Object?
    {
      outcome := SetPath(state, Split(path, '.'), value);
      calls := [];
      if outcome.Written? {
        state := outcome.value;
        calls := NotifyListeners(path, value);
      }
    }

    /** `get(path)`: undefined exactly when the walk stops at some key. */
    function Get(path: string): (r: Option<JsValue>)
      reads this
      ensures r.None? <==> Stops(state, Split(path, '.'))
    {
      var keys := Split(path, '.');
      LookupNone(state, keys);
      Lookup(state, keys)
    }

    /** `addError(error)`: one entry is pushed onto `processingErrors` and
        its listeners get the array. When `processingErrors` is not an
        array, `push` throws and nothing changes. */
    method AddError(error: ErrorArg, now: string) returns (pushed: bool, calls: seq<(Callback, JsValue)>)
      modifies this
      ensures pushed <==> ErrorsOf(old(state)).Some?
      ensures pushed ==> state == WithErrors(old(state), ErrorsOf(old(state)).value + [ProcessingEntry(error, now)])
      ensures pushed ==> Delivers(calls, Subscribed("processingErrors"), Array(ErrorsOf(state).value))
      ensures !pushed ==> state == old(state) && calls == []
      ensures listeners == old(listeners)
    {
      var errors := ErrorsOf(state);
      calls := [];
      pushed := errors.Some?;
      if pushed {
        var items := errors.value + [ProcessingEntry(error, now)];
        state := WithErrors(state, items);
        calls := NotifyListeners("processingErrors", Array(items));
      }
    }

    /** `clearErrors()`: `processingErrors` becomes a new empty array and
        its listeners get `[]`. */
    method ClearErrors() returns (calls: seq<(Callback, JsValue)>)
      requires Valid()
      modifies this
      ensures state == WithErrors(old(state), [])
      ensures Delivers(calls, Subscribed("processingErrors"), Array([]))
      ensures listeners == old(listeners) && Valid()
    {
      state := WithErrors(state, []);
      calls := NotifyListeners("processingErrors", Array([]));
    }
  }

  /** After a successful update, `get` of the same path returns the value. */
  method UpdateThenGet(store: AppStateManager, path: string, value: JsValue) returns (outcome: Write)
    modifies store
    ensures outcome.Written? ==> store.Get(path) == Some(value)
  {
    var calls;
    outcome, calls := store.Update(path, value);
    if outcome.Written? {
      LookupAfterSet(old(store.state), Split(path, '.'), value);
    }
  }

  /** After a push onto `processingErrors`, `get` reads the new entry at
      its index and the `length` grown by one. */
  lemma PushedReadBack(v: JsValue, items: seq<JsValue>, entry: JsValue)
    requires v.Object?
    ensures Lookup(WithErrors(v, items + [entry]), Split("processingErrors." + NatToDecimal(|items|), '.')) == Some(entry)
    ensures Lookup(WithErrors(v, items + [entry]), Split("processingErrors.length", '.')) == Some(Num(|items| + 1))
  {
    ErrorsReadBack(WithErrors(v, items + [entry]), |items|);
    ErrorPathSplit(|items|);
    LengthPathSplit();
  }

  /** After `addError` the new entry reads back at its index and the
      `length` grows by one. */
  method AddErrorThenGet(store: AppStateManager, error: ErrorArg, now: string) returns (pushed: bool)
    modifies store
    ensures pushed <==> ErrorsOf(old(store.state)).Some?
    ensures pushed ==> var n := |ErrorsOf(old(store.state)).value|;
      store.Get("processingErrors." + NatToDecimal(n)) == Some(ProcessingEntry(error, now)) &&
      store.Get("processingErrors.length") == Some(Num(n + 1))
  {
    var calls;
    pushed, calls := store.AddError(error, now);
    if pushed {
      PushedReadBack(old(store.state), ErrorsOf(old(store.state)).value, ProcessingEntry(error, now));
    }
  }

  /* ---------- ErrorHandler ---------- */

  /** A thrown value as `handleError` reads it. */
  datatype Thrown = Thrown(name: string, message: string, stack: string, isError: bool)

  /** The type `handleError` assigns: network conditions are tested first,
      then validation conditions. */
  function Classify(name: string, message: string): (r: string)
    ensures r == Network <==> name == "NetworkError" || Contains(message, "network") || Contains(message, "connexion")
    ensures r == ValidationType <==>
      !(name == "NetworkError" || Contains(message, "network") || Contains(message, "connexion")) &&
      (name == "ValidationError" || Contains(message, "invalid") || Contains(message, "invalide"))
    ensures r == Network || r == ValidationType || r == Unknown
  {
    if name == "NetworkError" || Contains(message, "network") || Contains(message, "connexion") then Network
    else if name == "ValidationError" || Contains(message, "invalid") || Contains(message, "invalide") then ValidationType
    else Unknown
  }

  /** The `invalide` test is subsumed by the `invalid` one. */
  lemma InvalideSubsumed(message: string)
    ensures Contains(message, "invalide") ==> Contains(message, "invalid")
  {
    if Contains(message, "invalide") {
      var i := ContainsWitness(message, "invalide");
      assert message[i..i + 7] == message[i..i + 8][..7];
      ContainsAt(message, "invalid", i);
    }
  }

  /** The notices `getUserFriendlyMessage` chooses between. */
  datatype Notice = ConnectionNotice | InvalidFileNotice | ProcessingNotice | UnexpectedNotice

  function NoticeText(n: Notice): string {
    match n
    case ConnectionNotice => "Erreur de connexion. Vérifiez votre connexion internet."
    case InvalidFileNotice => "Fichier invalide. Assurez-vous que c'est un fichier ZIP Instagram."
    case ProcessingNotice => "Erreur de traitement. Réessayez avec un autre fichier."
    case UnexpectedNotice => "Une erreur inattendue s'est produite."
  }

  /** `getUserFriendlyMessage(errorInfo)` by the record's type. */
  function UserFriendly(kind: string): Notice {
    if kind == Network then ConnectionNotice
    else if kind == ValidationType then InvalidFileNotice
    else if kind == Api then ProcessingNotice
    else UnexpectedNotice
  }

  /** Each of the three types `handleError` assigns has its own notice, so
      the API notice is never shown for a handled error. */
  lemma HandledNotices(name: string, message: string)
    ensures UserFriendly(Classify(name, message)) != ProcessingNotice
    ensures UserFriendly(Classify(name, message)) == ConnectionNotice <==> Classify(name, message) == Network
  {
  }

  /** The record `handleError` builds for a thrown value. */
  function HandledRecord(error: Thrown, now: string): (r: ErrorRecord)
    ensures r.kind == Classify(error.name, error.message)
    ensures r.message != []
    ensures r.originalError.Some? <==> error.isError
  {
    CreateError(
      if error.message != [] then error.message else DefaultMessage,
      Some(Classify(error.name, error.message)),
      if error.isError then Some(JsError(error.message, error.stack)) else None,
      now)
  }

  /** `handleError(error)`: the record is built, its notice chosen, and it
      is pushed onto the state's `processingErrors`; when that is not an
      array, `addError` throws and nothing is added. */
  method HandleError(store: AppStateManager, error: Thrown, now: string) returns (info: ErrorRecord, notice: Notice, added: bool)
    modifies store
    ensures info == HandledRecord(error, now)
    ensures notice == UserFriendly(info.kind)
    ensures added <==> ErrorsOf(old(store.state)).Some?
    ensures added ==> store.state == WithErrors(old(store.state), ErrorsOf(old(store.state)).value + [ProcessingEntry(Text(info.message), now)])
    ensures !added ==> store.state == old(store.state)
    ensures store.listeners == old(store.listeners)
  {
    info := HandledRecord(error, now);
    notice := UserFriendly(info.kind);
    var calls;
    added, calls := store.AddError(Record(info), now);
  }
}
