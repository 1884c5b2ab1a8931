/**
 * Copying one key from the source store to the destination store: strings
 * with SET (expiration passed along), hashes with HMSET followed by EXPIRE.
 */
module Migrator {
  import opened Wrappers
  import opened KeyDB
  import Validator

  /** migrateString: GET at the source, then SET at the destination with the
      given expiration; the first error met is the result. */
  method MigrateString(src: Store, dst: Store, key: Key, ttl: int) returns (r: Outcome<StoreError>)
    modifies dst
    ensures old(src.Get(key)).Err? ==> r == Fail(old(src.Get(key)).error) && unchanged(dst)
    ensures old(src.Get(key)).Ok? && SET in dst.failing ==> r == Fail(Unavailable(SET)) && unchanged(dst)
    ensures old(src.Get(key)).Ok? && SET !in dst.failing ==>
              && r == Pass
              && dst.data == old(dst.data)[key := StringValue(old(src.Get(key)).value)]
              && dst.expiry == ExpiryAfterSet(old(dst.expiry), key, ttl)
    ensures src != dst ==> unchanged(src)
  {
    var v := src.Get(key);
    if v.Err? {
      return Fail(v.error);
    }
    r := dst.Set(key, v.value, ttl);
  }

  /** The field at pair position `i` of an HMSET argument list. */
  function FieldAt(args: seq<string>, i: nat): string
    requires 2 * i + 1 < |args|
  {
    args[2 * i]
  }

  /** The value at pair position `i` of an HMSET argument list. */
  function ValueAt(args: seq<string>, i: nat): string
    requires 2 * i + 1 < |args|
  {
    args[2 * i + 1]
  }

  /** The argument list migrateHash hands to HMSET: every field of the hash
      exactly once, each followed by its value, in the order Go's range over
      the map happens to visit them. */
  method HMSetArgs(hash: map<string, string>) returns (args: seq<string>)
    ensures |args| == 2 * |hash|
    ensures forall i :: 0 <= i < |hash| ==> FieldAt(args, i) in hash && ValueAt(args, i) == hash[FieldAt(args, i)]
    ensures forall i, j :: 0 <= i < j < |hash| ==> FieldAt(args, i) != FieldAt(args, j)
    ensures PairsToMap(args) == hash
  {
    args := [];
    var remaining := hash.Keys;
    ghost var done: set<string> := {};
    ghost var n := 0;
    while remaining != {}
      invariant done == hash.Keys - remaining && n == |done|
      invariant PairsOf(args, n, done, hash)
      decreases remaining
    {
      var field :| field in remaining;
      PairsOfStep(args, n, done, hash, field);
      args, remaining := args + [field, hash[field]], remaining - {field};
      done, n := done + {field}, n + 1;
    }
    assert Restrict(hash, done) == hash;
  }

  /** `args` lists `n` pairs: distinct fields of `done` with their values in
      `hash`, amounting to `hash` restricted to `done`. */
  ghost predicate PairsOf(args: seq<string>, n: nat, done: set<string>, hash: map<string, string>)
  {
    && |args| == 2 * n
    && (forall i :: 0 <= i < n ==> FieldAt(args, i) in done && FieldAt(args, i) in hash && ValueAt(args, i) == hash[FieldAt(args, i)])
    && (forall i, j :: 0 <= i < j < n ==> FieldAt(args, i) != FieldAt(args, j))
    && PairsToMap(args) == Restrict(hash, done)
  }

  lemma PairsOfStep(args: seq<string>, n: nat, done: set<string>, hash: map<string, string>, field: string)
    requires PairsOf(args, n, done, hash)
    requires done <= hash.Keys && field in hash && field !in done
    ensures PairsOf(args + [field, hash[field]], n + 1, done + {field}, hash)
  {
    AppendedPair(args, n, field, hash[field]);
    assert Restrict(hash, done + {field}) == Restrict(hash, done)[field := hash[field]];
  }

  /** The part of `m` on the keys in `keys`. */
  ghost function Restrict(m: map<string, string>, keys: set<string>): map<string, string>
  {
    map f | f in keys && f in m :: m[f]
  }

  /** Appending a pair to an argument list of `n` pairs adds pair position `n`. */
  lemma AppendedPair(args: seq<string>, n: nat, field: string, value: string)
    requires |args| == 2 * n
    ensures var next := args + [field, value];
            && (forall i :: 0 <= i < n ==> FieldAt(next, i) == FieldAt(args, i) && ValueAt(next, i) == ValueAt(args, i))
            && FieldAt(next, n) == field && ValueAt(next, n) == value
            && PairsToMap(next) == PairsToMap(args)[field := value]
  {
  }

  /** The destination refuses the hash write: its connection fails HMSET, or
      the key already holds a value of another kind. */
  predicate HashWriteRefused(dst: Store, key: Key)
    reads dst
  {
    HMSET in dst.failing || (key in dst.data && !dst.data[key].HashValue?)
  }

  /** The fields of `h` added to the hash at `key` (a missing key counting as
      the empty hash). */
  function MergedHash(data: map<Key, Value>, key: Key, h: map<string, string>): map<Key, Value>
  {
    data[key := HashValue((if key in data && data[key].HashValue? then data[key].fields else map[]) + h)]
  }

  /** migrateHash as written: HGETALL at the source; for a non-empty hash,
      HMSET at the destination, where a refused write ends the call with
      success; then EXPIRE when the ttl is positive, whose error is the result. */
  method MigrateHash(src: Store, dst: Store, key: Key, ttl: int) returns (r: Outcome<StoreError>)
    modifies dst
    ensures old(src.HGetAll(key)).Err? ==> r == Fail(old(src.HGetAll(key)).error) && unchanged(dst)
    ensures old(src.HGetAll(key)).Ok? && |old(src.HGetAll(key)).value| > 0 && old(HashWriteRefused(dst, key)) ==>
              r == Pass && unchanged(dst)
    ensures old(src.HGetAll(key)).Ok? && (|old(src.HGetAll(key)).value| == 0 || !old(HashWriteRefused(dst, key))) ==>
              HashMigrated(old(src.HGetAll(key)).value, old(dst.data), old(dst.expiry), dst.data, dst.expiry, dst.failing, key, ttl, r)
    ensures src != dst ==> unchanged(src)
  {
    var read := src.HGetAll(key);
    if read.Err? {
      return Fail(read.error);
    }
    var hash := read.value;
    if |hash| > 0 {
      var args := HMSetArgs(hash);
      var written := dst.HMSet(key, args);
      if written.Fail? {
        return Pass;
      }
    }
    r := ApplyTTL(dst, key, ttl);
  }

  /** The tail both versions of migrateHash share: EXPIRE only for a positive ttl. */
  method ApplyTTL(dst: Store, key: Key, ttl: int) returns (r: Outcome<StoreError>)
    modifies dst
    ensures ttl <= 0 ==> r == Pass && unchanged(dst)
    ensures ttl > 0 && EXPIRE in dst.failing ==> r == Fail(Unavailable(EXPIRE)) && unchanged(dst)
    ensures ttl > 0 && EXPIRE !in dst.failing ==>
              r == Pass && dst.data == old(dst.data)
              && dst.expiry == if key in old(dst.data) then old(dst.expiry)[key := ttl] else old(dst.expiry)
  {
    if ttl > 0 {
      var e := dst.Expire(key, ttl);
      return if e.Err? then Fail(e.error) else Pass;
    }
    return Pass;
  }

  /** The destination after the hash `h` was written (when non-empty) and the
      ttl applied (when positive), with `r` the result reported. */
  ghost predicate HashMigrated(h: map<string, string>, data0: map<Key, Value>, expiry0: map<Key, int>,
                               data: map<Key, Value>, expiry: map<Key, int>, failing: set<Command>,
                               key: Key, ttl: int, r: Outcome<StoreError>)
  {
    var written := if |h| > 0 then MergedHash(data0, key, h) else data0;
    && data == written
    && (ttl <= 0 ==> r == Pass && expiry == expiry0)
    && (ttl > 0 && EXPIRE in failing ==> r == Fail(Unavailable(EXPIRE)) && expiry == expiry0)
    && (ttl > 0 && EXPIRE !in failing ==>
          r == Pass && expiry == if key in written then expiry0[key := ttl] else expiry0)
  }

  /** migrateHash with the HMSET error passed on to the caller. */
  method MigrateHashChecked(src: Store, dst: Store, key: Key, ttl: int) returns (r: Outcome<StoreError>)
    modifies dst
    ensures old(src.HGetAll(key)).Err? ==> r == Fail(old(src.HGetAll(key)).error) && unchanged(dst)
    ensures old(src.HGetAll(key)).Ok? && |old(src.HGetAll(key)).value| > 0 && old(HashWriteRefused(dst, key)) ==>
              r == Fail(if HMSET in dst.failing then Unavailable(HMSET) else WrongType) && unchanged(dst)
    ensures old(src.HGetAll(key)).Ok? && (|old(src.HGetAll(key)).value| == 0 || !old(HashWriteRefused(dst, key))) ==>
              HashMigrated(old(src.HGetAll(key)).value, old(dst.data), old(dst.expiry), dst.data, dst.expiry, dst.failing, key, ttl, r)
    ensures r.Pass? ==> old(src.HGetAll(key)).Ok? && (|old(src.HGetAll(key)).value| == 0 || !old(HashWriteRefused(dst, key)))
    ensures src != dst ==> unchanged(src)
  {
    var read := src.HGetAll(key);
    if read.Err? {
      return Fail(read.error);
    }
    var hash := read.value;
    if |hash| > 0 {
      var args := HMSetArgs(hash);
      var written := dst.HMSet(key, args);
      if written.Fail? {
        return written;
      }
    }
    r := ApplyTTL(dst, key, ttl);
  }

  /** A string copied with success validates. */
  method MigrateStringThenValidate(src: Store, dst: Store, key: Key, ttl: int)
    returns (migrated: Outcome<StoreError>, validated: Outcome<Validator.Error>)
    requires EXISTS !in dst.failing && TYPE !in src.failing && TYPE !in dst.failing && GET !in dst.failing
    modifies dst
    ensures migrated.Pass? ==> Validator.ValidateString(src, dst, key).Pass? && validated.Pass?
  {
    migrated := MigrateString(src, dst, key, ttl);
    validated := Validator.ValidateKey(src, dst, key);
  }

  /** A non-empty hash copied with success by the corrected migrateHash into a
      destination that did not hold the key validates. */
  method MigrateHashThenValidate(src: Store, dst: Store, key: Key, ttl: int)
    returns (migrated: Outcome<StoreError>, validated: Outcome<Validator.Error>)
    requires key !in dst.data
    requires EXISTS !in dst.failing && TYPE !in src.failing && TYPE !in dst.failing && HGETALL !in dst.failing
    modifies dst
    ensures migrated.Pass? && old(src.HGetAll(key)).Ok? && |old(src.HGetAll(key)).value| > 0 ==> validated.Pass?
  {
    migrated := MigrateHashChecked(src, dst, key, ttl);
    validated := Validator.ValidateKey(src, dst, key);
  }

  /** migrateHash as written reports success for a hash whose write failed,
      and the key then does not validate. */
  method HiddenHashWriteFailure() returns (migrated: Outcome<StoreError>, validated: Outcome<Validator.Error>)
    ensures migrated == Pass
    ensures validated == Fail(Validator.MissingAtDestination("h1"))
  {
    var src := new Store(map["h1" := HashValue(map["f1" := "v1", "f2" := "v2"])], map["h1" := 60], {});
    var dst := new Store(map[], map[], {HMSET});
    migrated := MigrateHash(src, dst, "h1", 60);
    validated := Validator.ValidateKey(src, dst, "h1");
  }

  /** The corrected migrateHash reports the same failed write as an error. */
  method ReportedHashWriteFailure() returns (migrated: Outcome<StoreError>)
    ensures migrated == Fail(Unavailable(HMSET))
  {
    var src := new Store(map["h1" := HashValue(map["f1" := "v1", "f2" := "v2"])], map["h1" := 60], {});
    var dst := new Store(map[], map[], {HMSET});
    migrated := MigrateHashChecked(src, dst, "h1", 60);
  }

  /** A string key copied into an empty destination reads back the same and validates. */
  method StringScenario() returns (read: Result<string>, validated: Outcome<Validator.Error>)
    ensures read == Ok("alice") && validated == Pass
  {
    var src := new Store(map["user:1" := StringValue("alice")], map[], {});
    var dst := new Store(map[], map[], {});
    var migrated := MigrateString(src, dst, "user:1", 0);
    read := dst.Get("user:1");
    validated := Validator.ValidateKey(src, dst, "user:1");
  }

  /** migrateHash as written: when the destination accepts HMSET, a successful
      copy of a non-empty hash into a destination that lacked the key validates. */
  method MigrateHashAsWrittenThenValidate(src: Store, dst: Store, key: Key, ttl: int)
    returns (migrated: Outcome<StoreError>, validated: Outcome<Validator.Error>)
    requires key !in dst.data && HMSET !in dst.failing
    requires EXISTS !in dst.failing && TYPE !in src.failing && TYPE !in dst.failing && HGETALL !in dst.failing
    modifies dst
    ensures migrated.Pass? && old(src.HGetAll(key)).Ok? && |old(src.HGetAll(key)).value| > 0 ==> validated.Pass?
  {
    migrated := MigrateHash(src, dst, key, ttl);
    validated := Validator.ValidateKey(src, dst, key);
  }

  /** Copying a string key a second time, with the source unchanged, gives the
      same result and leaves the destination's values and lifetimes as the
      first copy left them. */
  method MigrateStringTwice(src: Store, dst: Store, key: Key, ttl: int)
    returns (first: Outcome<StoreError>, second: Outcome<StoreError>,
             dataAfterFirst: map<Key, Value>, expiryAfterFirst: map<Key, int>)
    requires src != dst
    modifies dst
    ensures old(src.Get(key)).Ok? && SET !in dst.failing ==>
              && dataAfterFirst == old(dst.data)[key := StringValue(old(src.Get(key)).value)]
              && expiryAfterFirst == ExpiryAfterSet(old(dst.expiry), key, ttl)
    ensures (old(src.Get(key)).Err? || SET in dst.failing) ==>
              dataAfterFirst == old(dst.data) && expiryAfterFirst == old(dst.expiry)
    ensures second == first
    ensures dst.data == dataAfterFirst && dst.expiry == expiryAfterFirst
  {
    first := MigrateString(src, dst, key, ttl);
    dataAfterFirst, expiryAfterFirst := dst.data, dst.expiry;
    second := MigrateString(src, dst, key, ttl);
  }

  /** Copying a hash key a second time with migrateHash, with the source
      unchanged, gives the same result and leaves the destination's values
      and lifetimes as the first copy left them. */
  method MigrateHashTwice(src: Store, dst: Store, key: Key, ttl: int)
    returns (first: Outcome<StoreError>, second: Outcome<StoreError>,
             dataAfterFirst: map<Key, Value>, expiryAfterFirst: map<Key, int>)
    requires src != dst
    modifies dst
    ensures old(src.HGetAll(key)).Err? ==>
              dataAfterFirst == old(dst.data) && expiryAfterFirst == old(dst.expiry)
    ensures old(src.HGetAll(key)).Ok? && |old(src.HGetAll(key)).value| > 0 && old(HashWriteRefused(dst, key)) ==>
              dataAfterFirst == old(dst.data) && expiryAfterFirst == old(dst.expiry)
    ensures old(src.HGetAll(key)).Ok? && (|old(src.HGetAll(key)).value| == 0 || !old(HashWriteRefused(dst, key))) ==>
              HashMigrated(old(src.HGetAll(key)).value, old(dst.data), old(dst.expiry),
                           dataAfterFirst, expiryAfterFirst, dst.failing, key, ttl, first)
    ensures second == first
    ensures dst.data == dataAfterFirst && dst.expiry == expiryAfterFirst
  {
    ghost var hash := src.HGetAll(key);
    ghost var refused := HashWriteRefused(dst, key);
    first := MigrateHash(src, dst, key, ttl);
    dataAfterFirst, expiryAfterFirst := dst.data, dst.expiry;
    if hash.Ok? && |hash.value| > 0 && !refused {
      MergedHashIdempotent(old(dst.data), key, hash.value);
      assert !HashWriteRefused(dst, key);
    }
    second := MigrateHash(src, dst, key, ttl);
  }

  /** Adding the same fields a second time changes nothing. */
  lemma MergedHashIdempotent(data: map<Key, Value>, key: Key, h: map<string, string>)
    ensures MergedHash(MergedHash(data, key, h), key, h) == MergedHash(data, key, h)
  {
    var f := if key in data && data[key].HashValue? then data[key].fields else map[];
    assert (f + h) + h == f + h;
  }
}
