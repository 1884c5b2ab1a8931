/**
 * The key-value store as seen through the go-redis client: a map from key to
 * typed value, a map of remaining lifetimes, and the commands the migrator
 * and the validator issue against it. Each command's answer follows the
 * KeyDB/Redis semantics for that command, including the error a command
 * gives on a key of the wrong kind; a command whose round trip to the server
 * fails (connection lost, timeout) is one listed in `failing`.
 */
module KeyDB {
  import opened Wrappers

  type Key = string

  /** A sorted-set score. Only its equality is ever used. */
  type Score(==)

  /** One entry of a sorted set as ZRANGE ... WITHSCORES reports it. */
  datatype ZMember = ZMember(member: string, score: Score)

  /** A stored value, tagged with its kind. A sorted set is kept in the
      store's own rank order; `StreamValue` stands for every kind the
      migrator does not handle. */
  datatype Value =
    | StringValue(s: string)
    | HashValue(fields: map<string, string>)
    | ListValue(items: seq<string>)
    | SetValue(members: set<string>)
    | ZSetValue(entries: seq<ZMember>)
    | StreamValue

  /** The answer of TYPE for a key holding `v`. */
  function TypeName(v: Value): string
  {
    match v
    case StringValue(_) => "string"
    case HashValue(_) => "hash"
    case ListValue(_) => "list"
    case SetValue(_) => "set"
    case ZSetValue(_) => "zset"
    case StreamValue => "stream"
  }

  /** The answer of TYPE for a missing key. */
  const NoneType: string := "none"

  /** The commands the model issues. */
  datatype Command = EXISTS | TYPE | GET | SET | HGETALL | HMSET | LRANGE | SMEMBERS | ZRANGE | EXPIRE

  datatype StoreError =
    | Nil                      // GET on a missing key (go-redis' redis.Nil)
    | WrongType                // the key holds a value of another kind
    | WrongArgCount            // HMSET without a complete field/value pair
    | Unavailable(command: Command)  // the round trip itself failed

  datatype Result<+T> = Ok(value: T) | Err(error: StoreError)

  /** The expiration go-redis maps to SET ... KEEPTTL. */
  const KeepTTL: int := -1

  /** The field map that HMSET writes for an argument list of alternating
      fields and values; a field given twice keeps its last value. */
  function PairsToMap(args: seq<string>): (m: map<string, string>)
    requires |args| % 2 == 0
    decreases |args|
  {
    if args == [] then map[]
    else PairsToMap(args[..|args| - 2])[args[|args| - 2] := args[|args| - 1]]
  }

  /** The lifetimes after SET with the given expiration: a positive one is
      applied, KeepTTL keeps the old one, anything else clears it. */
  function ExpiryAfterSet(expiry: map<Key, int>, key: Key, ttl: int): map<Key, int>
  {
    if ttl > 0 then expiry[key := ttl]
    else if ttl == KeepTTL then expiry
    else expiry - {key}
  }

  predicate NoDuplicates<T(==)>(xs: seq<T>)
  {
    forall i, j :: 0 <= i < j < |xs| ==> xs[i] != xs[j]
  }

  function Elements<T>(xs: seq<T>): set<T>
  {
    set x | x in xs
  }

  class Store {
    var data: map<Key, Value>
    /** Remaining lifetime of every key that has one; a key absent here never expires. */
    var expiry: map<Key, int>
    const failing: set<Command>

    constructor (data: map<Key, Value>, expiry: map<Key, int>, failing: set<Command>)
      ensures this.data == data && this.expiry == expiry && this.failing == failing
    {
      this.data := data;
      this.expiry := expiry;
      this.failing := failing;
    }

    /** EXISTS key: how many of the given keys exist. */
    function Exists(key: Key): (r: Result<int>)
      reads this
      ensures r.Ok? <==> EXISTS !in failing
      ensures r.Ok? ==> (r.value == 1 <==> key in data) && (r.value == 0 <==> key !in data)
    {
      if EXISTS in failing then Err(Unavailable(EXISTS))
      else Ok(if key in data then 1 else 0)
    }

    /** TYPE key. */
    function Type(key: Key): (r: Result<string>)
      reads this
      ensures r.Ok? <==> TYPE !in failing
      ensures r.Ok? ==> (r.value == NoneType <==> key !in data)
      ensures r.Ok? && key in data ==> r.value == TypeName(data[key])
    {
      if TYPE in failing then Err(Unavailable(TYPE))
      else if key in data then Ok(TypeName(data[key]))
      else Ok(NoneType)
    }

    /** GET key: a missing key is an error, unlike every read below. */
    function Get(key: Key): (r: Result<string>)
      reads this
      ensures r.Ok? <==> GET !in failing && key in data && data[key].StringValue?
      ensures r.Ok? ==> data[key] == StringValue(r.value)
      ensures GET !in failing && key !in data ==> r == Err(Nil)
      ensures GET !in failing && key in data && !data[key].StringValue? ==> r == Err(WrongType)
    {
      if GET in failing then Err(Unavailable(GET))
      else if key !in data then Err(Nil)
      else if data[key].StringValue? then Ok(data[key].s)
      else Err(WrongType)
    }

    /** HGETALL key; a missing key reads as the empty hash. */
    function HGetAll(key: Key): (r: Result<map<string, string>>)
      reads this
      ensures r.Ok? <==> HGETALL !in failing && (key in data ==> data[key].HashValue?)
      ensures r.Ok? && key in data ==> data[key] == HashValue(r.value)
      ensures r.Ok? && key !in data ==> r.value == map[]
      ensures HGETALL !in failing && key in data && !data[key].HashValue? ==> r == Err(WrongType)
    {
      if HGETALL in failing then Err(Unavailable(HGETALL))
      else if key !in data then Ok(map[])
      else if data[key].HashValue? then Ok(data[key].fields)
      else Err(WrongType)
    }

    /** LRANGE key 0 -1; a missing key reads as the empty list. */
    function LRange(key: Key): (r: Result<seq<string>>)
      reads this
      ensures r.Ok? <==> LRANGE !in failing && (key in data ==> data[key].ListValue?)
      ensures r.Ok? && key in data ==> data[key] == ListValue(r.value)
      ensures r.Ok? && key !in data ==> r.value == []
      ensures LRANGE !in failing && key in data && !data[key].ListValue? ==> r == Err(WrongType)
    {
      if LRANGE in failing then Err(Unavailable(LRANGE))
      else if key !in data then Ok([])
      else if data[key].ListValue? then Ok(data[key].items)
      else Err(WrongType)
    }

    /** ZRANGE key 0 -1 WITHSCORES, in rank order; a missing key reads as empty. */
    function ZRangeWithScores(key: Key): (r: Result<seq<ZMember>>)
      reads this
      ensures r.Ok? <==> ZRANGE !in failing && (key in data ==> data[key].ZSetValue?)
      ensures r.Ok? && key in data ==> data[key] == ZSetValue(r.value)
      ensures r.Ok? && key !in data ==> r.value == []
      ensures ZRANGE !in failing && key in data && !data[key].ZSetValue? ==> r == Err(WrongType)
    {
      if ZRANGE in failing then Err(Unavailable(ZRANGE))
      else if key !in data then Ok([])
      else if data[key].ZSetValue? then Ok(data[key].entries)
      else Err(WrongType)
    }

    /** The member set SMEMBERS reports; a missing key reads as the empty set. */
    function Members(key: Key): (r: Result<set<string>>)
      reads this
      ensures r.Ok? <==> SMEMBERS !in failing && (key in data ==> data[key].SetValue?)
      ensures r.Ok? && key in data ==> data[key] == SetValue(r.value)
      ensures r.Ok? && key !in data ==> r.value == {}
      ensures SMEMBERS !in failing && key in data && !data[key].SetValue? ==> r == Err(WrongType)
    {
      if SMEMBERS in failing then Err(Unavailable(SMEMBERS))
      else if key !in data then Ok({})
      else if data[key].SetValue? then Ok(data[key].members)
      else Err(WrongType)
    }

    /** SMEMBERS key: every member once, in an order the store chooses. */
    method SMembers(key: Key) returns (r: Result<seq<string>>)
      ensures Members(key).Err? ==> r == Err(Members(key).error)
      ensures Members(key).Ok? ==> r.Ok? && NoDuplicates(r.value) && Elements(r.value) == Members(key).value
    {
      var m := Members(key);
      if m.Err? {
        return Err(m.error);
      }
      var left, listed := m.value, [];
      while left != {}
        invariant left <= m.value
        invariant NoDuplicates(listed)
        invariant Elements(listed) == m.value - left
        decreases left
      {
        var x :| x in left;
        assert Elements(listed + [x]) == Elements(listed) + {x};
        listed := listed + [x];
        left := left - {x};
      }
      return Ok(listed);
    }

    /** Why HMSET key args would be refused, if it would. */
    function HMSetError(key: Key, args: seq<string>): Option<StoreError>
      reads this
    {
      if HMSET in failing then Some(Unavailable(HMSET))
      else if args == [] || |args| % 2 == 1 then Some(WrongArgCount)
      else if key in data && !data[key].HashValue? then Some(WrongType)
      else None
    }

    /** SET key value with an expiration; replaces a value of any kind. */
    method Set(key: Key, value: string, ttl: int) returns (r: Outcome<StoreError>)
      modifies this
      ensures SET in failing ==> r == Fail(Unavailable(SET)) && unchanged(this)
      ensures SET !in failing ==> r == Pass && data == old(data)[key := StringValue(value)]
                                    && expiry == ExpiryAfterSet(old(expiry), key, ttl)
    {
      if SET in failing {
        return Fail(Unavailable(SET));
      }
      data := data[key := StringValue(value)];
      expiry := ExpiryAfterSet(expiry, key, ttl);
      return Pass;
    }

    /** HMSET key f1 v1 f2 v2 ...: adds the pairs to the hash at key (creating
        it when missing) and leaves its other fields and its lifetime alone. */
    method HMSet(key: Key, args: seq<string>) returns (r: Outcome<StoreError>)
      modifies this
      ensures HMSetError(key, args) == old(HMSetError(key, args))
      ensures old(HMSetError(key, args)).Some? ==>
                r == Fail(old(HMSetError(key, args)).value) && unchanged(this)
      ensures old(HMSetError(key, args)).None? ==>
                && r == Pass
                && expiry == old(expiry)
                && data == old(data)[key := HashValue(
                     (if key in old(data) then old(data)[key].fields else map[]) + PairsToMap(args))]
    {
      var e := HMSetError(key, args);
      if e.Some? {
        return Fail(e.value);
      }
      var prior := if key in data then data[key].fields else map[];
      data := data[key := HashValue(prior + PairsToMap(args))];
      return Pass;
    }

    /** EXPIRE key ttl: sets the lifetime of an existing key (a non-positive
        one deletes it); on a missing key it does nothing and answers false. */
    method Expire(key: Key, ttl: int) returns (r: Result<bool>)
      modifies this
      ensures EXPIRE in failing ==> r == Err(Unavailable(EXPIRE)) && unchanged(this)
      ensures EXPIRE !in failing && key !in old(data) ==> r == Ok(false) && unchanged(this)
      ensures EXPIRE !in failing && key in old(data) && ttl > 0 ==>
                r == Ok(true) && data == old(data) && expiry == old(expiry)[key := ttl]
      ensures EXPIRE !in failing && key in old(data) && ttl <= 0 ==>
                r == Ok(true) && data == old(data) - {key} && expiry == old(expiry) - {key}
    {
      if EXPIRE in failing {
        return Err(Unavailable(EXPIRE));
      }
      if key !in data {
        return Ok(false);
      }
      if ttl > 0 {
        expiry := expiry[key := ttl];
      } else {
        data := data - {key};
        expiry := expiry - {key};
      }
      return Ok(true);
    }
  }
}
