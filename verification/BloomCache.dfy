/**
 * base/infrastructure/redis/cacheManager.go: a cache whose reads may be answered by a Bloom filter first.
 * A write puts the value in Redis at once and adds its item to the filter later, from a goroutine.
 */
module BloomCache {
  import opened Common

  const NULL_VALUE: string := "__NULL__"

  /** What is to be cached: a nil value, one that marshals to a text, or one that does not marshal. */
  datatype Data = NilData | Json(text: string) | Unmarshalable

  /** The outcome of a read: bytes, nothing, or a Redis error. */
  datatype Reply = Bytes(value: string) | Nothing | Failed

  /** Redis and the filter. `falsePositives` are items the filter reports although never added. */
  datatype Store = Store(
    values: map<string, string>,
    added: set<string>,
    falsePositives: set<string>,
    pending: multiset<string>)
  {
    predicate MightContain(item: string) {
      item in added || item in falsePositives
    }

    /** `GET`, with a null marker read as nothing. */
    function Plain(key: string): (r: Reply) {
      if key in values && values[key] != NULL_VALUE then Bytes(values[key]) else Nothing
    }

    /** `Get` with a filter: an empty item switches the filter off, and so does a filter that errs. */
    function Guarded(key: string, item: string, filterUp: bool): (r: Reply) {
      if item != "" && filterUp && !MightContain(item) then Nothing else Plain(key)
    }

    /** The item of every key with a real value is in the filter, on its way there, or empty. */
    predicate Covered(itemOf: string -> string) {
      forall key :: key in values && values[key] != NULL_VALUE && itemOf(key) != "" ==>
        itemOf(key) in added || itemOf(key) in pending
    }
  }

  class CacheManager {
    var values: map<string, string>
    var added: set<string>
    var falsePositives: set<string>
    var pending: multiset<string>

    function State(): (s: Store)
      reads this
    {
      Store(values, added, falsePositives, pending)
    }

    constructor ()
      ensures State() == Store(map[], {}, {}, multiset{})
    {
      values, added, falsePositives, pending := map[], {}, {}, multiset{};
    }

    /** `Set`; `item` is None without filter arguments. */
    method Set(key: string, data: Data, item: Option<string>, redisUp: bool) returns (ok: bool)
      modifies this
      ensures ok <==> redisUp && !data.Unmarshalable?
      ensures State() == AfterSet(old(State()), key, data, item, redisUp)
    {
      if data.NilData? {
        if !redisUp { return false; }
        values := values[key := NULL_VALUE];
        return true;
      }
      if data.Unmarshalable? { return false; }
      if !redisUp { return false; }
      values := values[key := data.text];
      if item.Some? && item.value != "" {
        pending := pending + multiset{item.value};
      }
      return true;
    }

    /** One pending `BF.ADD` completes. */
    method CompleteAdd(item: string)
      modifies this
      ensures State() == AfterAdd(old(State()), item)
    {
      if item in pending {
        pending := pending - multiset{item};
        added := added + {item};
      }
    }

    /** `Delete`, and equally the expiry of a key. */
    method Delete(key: string)
      modifies this
      ensures State() == AfterDelete(old(State()), key)
    {
      values := values - {key};
    }

    method Get(key: string, item: Option<string>, filterUp: bool, redisUp: bool) returns (reply: Reply)
      ensures item.Some? && redisUp ==> reply == State().Guarded(key, item.value, filterUp)
      ensures item.None? && redisUp ==> reply == State().Plain(key)
      ensures !redisUp ==> reply == if item.Some? && item.value != "" && filterUp && !State().MightContain(item.value)
                                    then Nothing else Failed
    {
      if item.Some? && item.value != "" {
        if filterUp && item.value !in added && item.value !in falsePositives {
          return Nothing;
        }
      }
      if !redisUp { return Failed; }
      if key !in values { return Nothing; }
      var bytes := values[key];
      if bytes == NULL_VALUE { return Nothing; }
      return Bytes(bytes);
    }

    /**
     * `MGet`: a missing key is left out, a null marker maps to None (Go's nil). Without keys Redis is not asked; an
     * unreachable Redis is an error with no result.
     */
    method MGet(keys: seq<string>, redisUp: bool) returns (ok: bool, result: map<string, Option<string>>, hits: nat, misses: nat)
      ensures ok <==> redisUp || keys == []
      ensures !ok ==> result == map[] && hits == 0 && misses == 0
      ensures ok ==> forall k :: k in result <==> k in keys && k in values
      ensures ok ==> forall k :: k in keys ==>
                State().Plain(k) == if k in result && result[k].Some? then Bytes(result[k].value) else Nothing
      ensures ok ==> forall k :: k in result ==> (result[k].None? <==> values[k] == NULL_VALUE)
      ensures ok ==> hits + misses == |keys| && misses == |set i: nat | i < |keys| && keys[i] !in values|
    {
      ok, result, hits, misses := true, map[], 0, 0;
      MissesAreMissing(keys, values);
      if |keys| == 0 {
        return;
      }
      if !redisUp {
        return false, map[], 0, 0;
      }
      for i := 0 to |keys|
        invariant forall k :: k in result <==> k in keys[..i] && k in values
        invariant forall k :: k in result ==> result[k] == if values[k] == NULL_VALUE then None else Some(values[k])
        invariant hits + misses == i
        invariant misses == Misses(keys[..i], values)
      {
        assert keys[..i + 1] == keys[..i] + [keys[i]];
        if keys[i] !in values {
          misses := misses + 1;
        } else {
          var bytes := values[keys[i]];
          if bytes == NULL_VALUE {
            result := result[keys[i] := None];
          } else {
            result := result[keys[i] := Some(bytes)];
          }
          hits := hits + 1;
        }
      }
      assert keys[..|keys|] == keys;
    }
  }

  function Misses(keys: seq<string>, values: map<string, string>): (n: nat) {
    if keys == [] then 0
    else Misses(keys[..|keys| - 1], values) + (if keys[|keys| - 1] in values then 0 else 1)
  }

  /** The misses are the positions whose key is missing, repeated keys counted each time. */
  lemma {:induction false} MissesAreMissing(keys: seq<string>, values: map<string, string>)
    ensures Misses(keys, values) == |set i: nat | i < |keys| && keys[i] !in values|
    decreases |keys|
  {
    if keys != [] {
      var n := |keys| - 1;
      MissesAreMissing(keys[..n], values);
      var last := if keys[n] in values then {} else {n};
      assert (set i: nat | i < |keys| && keys[i] !in values) == (set i: nat | i < n && keys[..n][i] !in values) + last;
    }
  }

  function AfterSet(s: Store, key: string, data: Data, item: Option<string>, redisUp: bool): (r: Store) {
    if !redisUp || data.Unmarshalable? then s
    else if data.NilData? then s.(values := s.values[key := NULL_VALUE])
    else s.(values := s.values[key := data.text],
            pending := if item.Some? && item.value != "" then s.pending + multiset{item.value} else s.pending)
  }

  function AfterAdd(s: Store, item: string): (r: Store) {
    if item in s.pending then s.(pending := s.pending - multiset{item}, added := s.added + {item}) else s
  }

  function AfterDelete(s: Store, key: string): (r: Store) {
    s.(values := s.values - {key})
  }

  /** What reads give after a write: the new text, nothing after a nil value, and other keys as before; failed writes change nothing. */
  lemma ReadAfterWrite(s: Store, key: string, data: Data, item: Option<string>, redisUp: bool, other: string)
    ensures var t := AfterSet(s, key, data, item, redisUp);
            && (other != key || !redisUp || data.Unmarshalable? ==> t.Plain(other) == s.Plain(other))
            && (redisUp && data.NilData? ==> t.Plain(key) == Nothing)
            && (redisUp && data.Json? && data.text != "__NULL__" ==> t.Plain(key) == Bytes(data.text))
            && t.added == s.added && t.falsePositives == s.falsePositives
            && (t.pending == s.pending || (redisUp && data.Json? && item.Some? && item.value != ""))
            && (redisUp && data.Json? && item.Some? && item.value != "" ==> t.pending == s.pending + multiset{item.value})
  {
  }

  /** After a deletion the key reads as nothing, guarded or not, and every other key as before. */
  lemma ReadAfterDelete(s: Store, key: string, other: string, item: string, filterUp: bool)
    ensures var t := AfterDelete(s, key);
            && t.Plain(key) == Nothing && t.Guarded(key, item, filterUp) == Nothing
            && (other != key ==> t.Plain(other) == s.Plain(other) && t.Guarded(other, item, filterUp) == s.Guarded(other, item, filterUp))
            && t.pending == s.pending && t.added == s.added
  {
  }

  /** A completed add is in the filter, and no other key reads differently without the filter. */
  lemma ReadAfterAdd(s: Store, item: string, key: string)
    ensures var t := AfterAdd(s, item);
            && t.Plain(key) == s.Plain(key)
            && (item in s.pending ==> t.MightContain(item) && t.pending[item] == s.pending[item] - 1)
            && (item !in s.pending ==> t == s)
            && forall i :: i != item ==> (t.MightContain(i) <==> s.MightContain(i)) && t.pending[i] == s.pending[i]
  {
  }

  datatype Operation =
    | SetValue(key: string, data: Data, redisUp: bool)
    | CompleteAdd(item: string)
    | DeleteKey(key: string)

  /** A run in which every write of a key passes that key's own item. */
  function After(ops: seq<Operation>, itemOf: string -> string, falsePositives: set<string>): (s: Store) {
    if ops == [] then Store(map[], {}, falsePositives, multiset{})
    else
      var s := After(ops[..|ops| - 1], itemOf, falsePositives);
      match ops[|ops| - 1]
      case SetValue(key, data, up) => AfterSet(s, key, data, Some(itemOf(key)), up)
      case CompleteAdd(item) => AfterAdd(s, item)
      case DeleteKey(key) => AfterDelete(s, key)
  }

  /** After every run, a real value's item is in the filter or on its way there. */
  lemma {:induction false} EveryValueIsCovered(ops: seq<Operation>, itemOf: string -> string, falsePositives: set<string>)
    ensures After(ops, itemOf, falsePositives).Covered(itemOf)
    decreases |ops|
  {
    if ops != [] {
      EveryValueIsCovered(ops[..|ops| - 1], itemOf, falsePositives);
    }
  }

  /** With no add outstanding, reading through the filter gives what reading without it gives, for every key. */
  lemma GuardedEqualsPlainOnceDrained(
    ops: seq<Operation>, itemOf: string -> string, falsePositives: set<string>, key: string, filterUp: bool)
    requires After(ops, itemOf, falsePositives).pending == multiset{}
    ensures var s := After(ops, itemOf, falsePositives);
            s.Guarded(key, itemOf(key), filterUp) == s.Plain(key)
  {
    EveryValueIsCovered(ops, itemOf, falsePositives);
  }

  /**
   * While adds are outstanding the two differ exactly for a real value whose item the filter denies, and then
   * that item is still on its way.
   */
  lemma GuardedDiffersOnlyWhileAdding(
    ops: seq<Operation>, itemOf: string -> string, falsePositives: set<string>, key: string, filterUp: bool)
    ensures var s := After(ops, itemOf, falsePositives);
            && (s.Guarded(key, itemOf(key), filterUp) != s.Plain(key)
                <==> s.Plain(key).Bytes? && filterUp && itemOf(key) != "" && !s.MightContain(itemOf(key)))
            && (s.Guarded(key, itemOf(key), filterUp) != s.Plain(key) ==> itemOf(key) in s.pending)
  {
    EveryValueIsCovered(ops, itemOf, falsePositives);
  }

  /** Such a moment exists: a value just written is not visible through the filter. */
  lemma FreshValueIsHidden(key: string, itemOf: string -> string)
    requires itemOf(key) != ""
    ensures var s := After([SetValue(key, Json("{}"), true)], itemOf, {});
            s.Plain(key) == Bytes("{}") && s.Guarded(key, itemOf(key), true) == Nothing
  {
    var ops := [SetValue(key, Json("{}"), true)];
    assert ops[..0] == [];
  }
}
