/**
 * The validator: re-reads one key from both stores and decides whether the
 * destination holds the same value as the source. Nothing here writes to
 * either store (no member has a `modifies` clause).
 */
module Validator {
  import opened Wrappers
  import opened KeyDB

  /** Why a key did not validate; one variant per error the validator builds. */
  datatype Error =
    | ExistsCheckFailed(cause: StoreError)
    | MissingAtDestination(key: Key)
    | SourceTypeUnavailable(key: Key)
    | DestinationTypeUnavailable(key: Key)
    | TypeMismatch(sourceType: string, destinationType: string)
    | NotSupported(typeName: string)
    | SourceReadFailed(cause: StoreError)       // wrapped read error (string and hash)
    | DestinationReadFailed(cause: StoreError)  // wrapped read error (string and hash)
    | ReadFailed(cause: StoreError)             // read error passed on as it is (list, set, zset)
    | ValueMismatch(key: Key)
    | HashLengthMismatch(key: Key)
    | HashFieldMismatch(key: Key, field: string)
    | ListLengthMismatch(key: Key)
    | ListMismatch(key: Key, index: nat)
    | SetLengthMismatch(key: Key)
    | MissingSetMember(member: string, key: Key)
    | ZSetLengthMismatch(key: Key)
    | ZSetMismatch(key: Key, index: nat)

  /** The kinds the validator compares. */
  predicate Supported(v: Value)
  {
    !v.StreamValue?
  }

  /** The command that reads a value of the kind of `v`. */
  function ReadCommand(v: Value): Command
    requires Supported(v)
  {
    match v
    case StringValue(_) => GET
    case HashValue(_) => HGETALL
    case ListValue(_) => LRANGE
    case SetValue(_) => SMEMBERS
    case ZSetValue(_) => ZRANGE
  }

  /** The key holds equal values of a supported kind in both stores, and both
      stores answer every command a validation of that key issues. */
  predicate Replicated(src: Store, dst: Store, key: Key)
    reads src, dst
  {
    && EXISTS !in dst.failing
    && TYPE !in src.failing && TYPE !in dst.failing
    && key in src.data && key in dst.data
    && src.data[key] == dst.data[key]
    && Supported(src.data[key])
    && ReadCommand(src.data[key]) !in src.failing
    && ReadCommand(src.data[key]) !in dst.failing
  }

  /** A hash with as many fields as `d` whose every field `d` holds with the same value is `d`. */
  lemma SameSizeSubmapIsEqual(s: map<string, string>, d: map<string, string>)
    requires |s| == |d|
    requires forall f :: f in s ==> f in d && d[f] == s[f]
    ensures s == d
  {
    SubsetOfSameSizeIsEqual(s.Keys, d.Keys);
  }

  lemma {:induction false} SubsetOfSameSizeIsEqual<T>(a: set<T>, b: set<T>)
    requires a <= b && |a| == |b|
    ensures a == b
  {
    if a != b {
      assert b - a != {} by {
        if b - a == {} {
          forall x | x in b ensures x in a {
            assert x !in b - a;
          }
        }
      }
      var x :| x in b - a;
      SubsetIsNoLarger(a, b - {x});
    }
  }

  lemma {:induction false} SubsetIsNoLarger<T>(a: set<T>, b: set<T>)
    requires a <= b
    ensures |a| <= |b|
    decreases |a|
  {
    if a != {} {
      var x :| x in a;
      SubsetIsNoLarger(a - {x}, b - {x});
    }
  }

  /** A list without duplicates has as many elements as members. */
  lemma {:induction false} DistinctListSize<T>(xs: seq<T>)
    requires NoDuplicates(xs)
    ensures |Elements(xs)| == |xs|
  {
    if xs != [] {
      var last := xs[|xs| - 1];
      var init := xs[..|xs| - 1];
      assert xs == init + [last];
      assert Elements(xs) == Elements(init) + {last};
      assert last !in Elements(init) by {
        forall i | 0 <= i < |init| ensures init[i] != last {
          assert init[i] == xs[i];
        }
      }
      DistinctListSize(init);
    }
  }

  /** ValidateString: GET at both ends, then compare. */
  function ValidateString(src: Store, dst: Store, key: Key): (r: Outcome<Error>)
    reads src, dst
    ensures r.Pass? <==> && GET !in src.failing && GET !in dst.failing
                         && key in src.data && src.data[key].StringValue?
                         && key in dst.data && dst.data[key] == src.data[key]
    ensures src.Get(key).Err? ==> r == Fail(SourceReadFailed(src.Get(key).error))
    ensures src.Get(key).Ok? && dst.Get(key).Err? ==> r == Fail(DestinationReadFailed(dst.Get(key).error))
  {
    var s := src.Get(key);
    if s.Err? then Fail(SourceReadFailed(s.error))
    else
      var d := dst.Get(key);
      if d.Err? then Fail(DestinationReadFailed(d.error))
      else if s.value != d.value then Fail(ValueMismatch(key))
      else Pass
  }

  /** ValidateHget: HGETALL at both ends, then equal sizes and every source
      field present at the destination with the same value. */
  method ValidateHget(src: Store, dst: Store, key: Key) returns (r: Outcome<Error>)
    ensures r.Pass? <==> && src.HGetAll(key).Ok? && dst.HGetAll(key).Ok?
                         && src.HGetAll(key).value == dst.HGetAll(key).value
    ensures src.HGetAll(key).Err? ==> r == Fail(SourceReadFailed(src.HGetAll(key).error))
    ensures src.HGetAll(key).Ok? && dst.HGetAll(key).Err? ==> r == Fail(DestinationReadFailed(dst.HGetAll(key).error))
    ensures src.HGetAll(key).Ok? && dst.HGetAll(key).Ok? && |src.HGetAll(key).value| != |dst.HGetAll(key).value| ==>
                  r == Fail(HashLengthMismatch(key))
    ensures && src.HGetAll(key).Ok? && dst.HGetAll(key).Ok? && |src.HGetAll(key).value| == |dst.HGetAll(key).value|
            && src.HGetAll(key).value != dst.HGetAll(key).value ==>
              r.Fail? && r.error.HashFieldMismatch?
    ensures r.Fail? && r.error.HashFieldMismatch? ==>
              var s, d, f := src.HGetAll(key).value, dst.HGetAll(key).value, r.error.field;
              r.error.key == key && f in s && (f !in d || d[f] != s[f])
  {
    var sr := src.HGetAll(key);
    if sr.Err? {
      return Fail(SourceReadFailed(sr.error));
    }
    var dr := dst.HGetAll(key);
    if dr.Err? {
      return Fail(DestinationReadFailed(dr.error));
    }
    var s, d := sr.value, dr.value;
    if |s| != |d| {
      return Fail(HashLengthMismatch(key));
    }
    // the fields are visited in no particular order, as Go's range over a map
    var remaining := s.Keys;
    while remaining != {}
      invariant remaining <= s.Keys
      invariant forall f :: f in s && f !in remaining ==> f in d && d[f] == s[f]
      decreases remaining
    {
      var f :| f in remaining;
      if f !in d || d[f] != s[f] {
        return Fail(HashFieldMismatch(key, f));
      }
      remaining := remaining - {f};
    }
    SameSizeSubmapIsEqual(s, d);
    return Pass;
  }

  /** validateList: LRANGE 0 -1 at both ends, then equal lengths and equal
      elements position by position; a mismatch names the first position. */
  method ValidateList(src: Store, dst: Store, key: Key) returns (r: Outcome<Error>)
    ensures r.Pass? <==> && src.LRange(key).Ok? && dst.LRange(key).Ok?
                         && src.LRange(key).value == dst.LRange(key).value
    ensures src.LRange(key).Err? ==> r == Fail(ReadFailed(src.LRange(key).error))
    ensures src.LRange(key).Ok? && dst.LRange(key).Err? ==> r == Fail(ReadFailed(dst.LRange(key).error))
    ensures src.LRange(key).Ok? && dst.LRange(key).Ok? && |src.LRange(key).value| != |dst.LRange(key).value| ==>
                  r == Fail(ListLengthMismatch(key))
    ensures && src.LRange(key).Ok? && dst.LRange(key).Ok? && |src.LRange(key).value| == |dst.LRange(key).value|
            && src.LRange(key).value != dst.LRange(key).value ==>
              r.Fail? && r.error.ListMismatch?
    ensures r.Fail? && r.error.ListMismatch? ==>
              var s, d, i := src.LRange(key).value, dst.LRange(key).value, r.error.index;
              r.error.key == key && i < |s| == |d| && s[i] != d[i] && s[..i] == d[..i]
  {
    var sr := src.LRange(key);
    if sr.Err? {
      return Fail(ReadFailed(sr.error));
    }
    var dr := dst.LRange(key);
    if dr.Err? {
      return Fail(ReadFailed(dr.error));
    }
    var s, d := sr.value, dr.value;
    if |s| != |d| {
      return Fail(ListLengthMismatch(key));
    }
    for i := 0 to |s|
      invariant s[..i] == d[..i]
    {
      if s[i] != d[i] {
        return Fail(ListMismatch(key, i));
      }
      assert s[..i + 1] == s[..i] + [s[i]] && d[..i + 1] == d[..i] + [d[i]];
    }
    assert s == s[..|s|] && d == d[..|d|];
    return Pass;
  }

  /** validateSet: SMEMBERS at both ends, then equal lengths and every
      destination member found among the source members. */
  method ValidateSet(src: Store, dst: Store, key: Key) returns (r: Outcome<Error>)
    ensures r.Pass? <==> && src.Members(key).Ok? && dst.Members(key).Ok?
                         && src.Members(key).value == dst.Members(key).value
    ensures src.Members(key).Err? ==> r == Fail(ReadFailed(src.Members(key).error))
    ensures src.Members(key).Ok? && dst.Members(key).Err? ==> r == Fail(ReadFailed(dst.Members(key).error))
    ensures src.Members(key).Ok? && dst.Members(key).Ok? && |src.Members(key).value| != |dst.Members(key).value| ==>
                  r == Fail(SetLengthMismatch(key))
    ensures && src.Members(key).Ok? && dst.Members(key).Ok? && |src.Members(key).value| == |dst.Members(key).value|
            && src.Members(key).value != dst.Members(key).value ==>
              r.Fail? && r.error.MissingSetMember?
    ensures r.Fail? && r.error.MissingSetMember? ==>
              r.error.key == key && r.error.member in dst.Members(key).value - src.Members(key).value
  {
    var sr := src.SMembers(key);
    if sr.Err? {
      return Fail(ReadFailed(sr.error));
    }
    var dr := dst.SMembers(key);
    if dr.Err? {
      return Fail(ReadFailed(dr.error));
    }
    r := CompareMembers(key, sr.value, dr.value);
  }

  /** The comparison validateSet makes on the two SMEMBERS answers: equal
      lengths, then every destination member found among the source members
      (collected into a map first). For lists without duplicates this is set
      equality. */
  method CompareMembers(key: Key, s: seq<string>, d: seq<string>) returns (r: Outcome<Error>)
    requires NoDuplicates(s) && NoDuplicates(d)
    ensures r.Pass? <==> Elements(s) == Elements(d)
    ensures |Elements(s)| != |Elements(d)| ==> r == Fail(SetLengthMismatch(key))
    ensures |Elements(s)| == |Elements(d)| && Elements(s) != Elements(d) ==> r.Fail? && r.error.MissingSetMember?
    ensures r.Fail? ==> r.error.SetLengthMismatch? || r.error.MissingSetMember?
    ensures r.Fail? && r.error.MissingSetMember? ==> r.error.key == key && r.error.member in Elements(d) - Elements(s)
  {
    DistinctListSize(s);
    DistinctListSize(d);
    if |s| != |d| {
      return Fail(SetLengthMismatch(key));
    }
    var srcMap: map<string, bool> := map[];
    for i := 0 to |s|
      invariant srcMap.Keys == Elements(s[..i])
      invariant forall m :: m in srcMap ==> srcMap[m]
    {
      assert Elements(s[..i + 1]) == Elements(s[..i]) + {s[i]} by {
        assert s[..i + 1] == s[..i] + [s[i]];
      }
      srcMap := srcMap[s[i] := true];
    }
    assert s == s[..|s|];
    for j := 0 to |d|
      invariant forall k :: 0 <= k < j ==> d[k] in Elements(s)
    {
      var member := d[j];
      if !(member in srcMap && srcMap[member]) {
        return Fail(MissingSetMember(member, key));
      }
    }
    assert Elements(d) <= Elements(s);
    SubsetOfSameSizeIsEqual(Elements(d), Elements(s));
    return Pass;
  }

  /** validateZSet: ZRANGE 0 -1 WITHSCORES at both ends, then equal lengths and
      equal (member, score) pairs rank by rank; a mismatch names the first rank. */
  method ValidateZSet(src: Store, dst: Store, key: Key) returns (r: Outcome<Error>)
    ensures r.Pass? <==> && src.ZRangeWithScores(key).Ok? && dst.ZRangeWithScores(key).Ok?
                         && src.ZRangeWithScores(key).value == dst.ZRangeWithScores(key).value
    ensures src.ZRangeWithScores(key).Err? ==> r == Fail(ReadFailed(src.ZRangeWithScores(key).error))
    ensures src.ZRangeWithScores(key).Ok? && dst.ZRangeWithScores(key).Err? ==>
                  r == Fail(ReadFailed(dst.ZRangeWithScores(key).error))
    ensures src.ZRangeWithScores(key).Ok? && dst.ZRangeWithScores(key).Ok?
            && |src.ZRangeWithScores(key).value| != |dst.ZRangeWithScores(key).value| ==>
                  r == Fail(ZSetLengthMismatch(key))
    ensures && src.ZRangeWithScores(key).Ok? && dst.ZRangeWithScores(key).Ok?
            && |src.ZRangeWithScores(key).value| == |dst.ZRangeWithScores(key).value|
            && src.ZRangeWithScores(key).value != dst.ZRangeWithScores(key).value ==>
              r.Fail? && r.error.ZSetMismatch?
    ensures r.Fail? && r.error.ZSetMismatch? ==>
              var s, d, i := src.ZRangeWithScores(key).value, dst.ZRangeWithScores(key).value, r.error.index;
              r.error.key == key && i < |s| == |d| && s[i] != d[i] && s[..i] == d[..i]
  {
    var sr := src.ZRangeWithScores(key);
    if sr.Err? {
      return Fail(ReadFailed(sr.error));
    }
    var dr := dst.ZRangeWithScores(key);
    if dr.Err? {
      return Fail(ReadFailed(dr.error));
    }
    var s, d := sr.value, dr.value;
    if |s| != |d| {
      return Fail(ZSetLengthMismatch(key));
    }
    for i := 0 to |s|
      invariant s[..i] == d[..i]
    {
      if s[i].member != d[i].member || s[i].score != d[i].score {
        return Fail(ZSetMismatch(key, i));
      }
      assert s[..i + 1] == s[..i] + [s[i]] && d[..i + 1] == d[..i] + [d[i]];
    }
    assert s == s[..|s|] && d == d[..|d|];
    return Pass;
  }

  /** Validatekey: existence at the destination first, then equal type tags,
      then the comparison for that type. */
  method ValidateKey(src: Store, dst: Store, key: Key) returns (r: Outcome<Error>)
    ensures EXISTS in dst.failing ==> r == Fail(ExistsCheckFailed(Unavailable(EXISTS)))
    ensures EXISTS !in dst.failing && key !in dst.data ==> r == Fail(MissingAtDestination(key))
    ensures && EXISTS !in dst.failing && key in dst.data && TYPE !in src.failing && TYPE !in dst.failing
            && src.Type(key).value != TypeName(dst.data[key]) ==>
                  r == Fail(TypeMismatch(src.Type(key).value, TypeName(dst.data[key])))
    ensures && EXISTS !in dst.failing && TYPE !in src.failing && TYPE !in dst.failing
            && key in dst.data && key in src.data && src.data[key].StreamValue? && dst.data[key].StreamValue? ==>
                  r == Fail(NotSupported("stream"))
    ensures r.Pass? <==> Replicated(src, dst, key)
  {
    var existing := dst.Exists(key);
    if existing.Err? {
      return Fail(ExistsCheckFailed(existing.error));
    }
    if existing.value == 0 {
      return Fail(MissingAtDestination(key));
    }
    var sourceType := src.Type(key);
    if sourceType.Err? {
      return Fail(SourceTypeUnavailable(key));
    }
    var destinationType := dst.Type(key);
    if destinationType.Err? {
      return Fail(DestinationTypeUnavailable(key));
    }
    if sourceType.value != destinationType.value {
      return Fail(TypeMismatch(sourceType.value, destinationType.value));
    }
    match sourceType.value
    case "string" => r := ValidateString(src, dst, key);
    case "hash" => r := ValidateHget(src, dst, key);
    case "list" => r := ValidateList(src, dst, key);
    case "set" => r := ValidateSet(src, dst, key);
    case "zset" => r := ValidateZSet(src, dst, key);
    case _ => r := Fail(NotSupported(sourceType.value));
  }

  /** An empty string is a value like any other: it matches an empty string
      and does not match a missing key. */
  lemma EmptyStringIsNotAbsence(src: Store, dst: Store, key: Key)
    requires GET !in src.failing && GET !in dst.failing
    requires key in src.data && src.data[key] == StringValue("")
    ensures key in dst.data && dst.data[key] == StringValue("") ==> ValidateString(src, dst, key) == Pass
    ensures key !in dst.data ==> ValidateString(src, dst, key) == Fail(DestinationReadFailed(Nil))
  {
  }

  /** Sorted sets holding the same pairs with tied scores in another rank
      order do not validate: the first rank is reported. A KeyDB/Redis store
      ranks tied scores by member, so it would not itself answer `[b, a]`;
      the example exercises the rank-by-rank comparison on an arbitrary
      ZRANGE answer. */
  method TiedScoresInOtherRankOrder(x: Score) returns (r: Outcome<Error>)
    ensures r == Fail(ZSetMismatch("leaders", 0))
  {
    var src := new Store(map["leaders" := ZSetValue([ZMember("a", x), ZMember("b", x)])], map[], {});
    var dst := new Store(map["leaders" := ZSetValue([ZMember("b", x), ZMember("a", x)])], map[], {});
    r := ValidateZSet(src, dst, "leaders");
    assert "a"[0] != "b"[0];
    assert src.data["leaders"].entries[..1][0] != dst.data["leaders"].entries[..1][0];
  }
}
