/**
  The dynamic values the pipeline passes around (the decoded JSON of the
  statistics API, and the fields of the canonical records), and the canonical
  attempt record that `Transformation.get_statistics` builds and that the
  store and the aggregator then extend in place with the keys `id` and `hour`.
*/
module Values {
  import opened Wrappers
  import opened DateTimes

  newtype byte = x: int | 0 <= x < 256

  /** A Python value as far as the pipeline inspects it: `None`, `bool`, `int`, `str`,
      `bytes`, a `dict` with string keys, a `datetime`, or anything else. */
  datatype Value =
    | Null
    | Bool(b: bool)
    | Int(i: int)
    | Str(s: string)
    | Bytes(bytes: seq<byte>)
    | Map(entries: map<string, Value>)
    | Time(t: DateTime)
    | Other

  /** `isinstance(v, (str, type(None)))` */
  predicate IsStrOrNone(v: Value) {
    v.Str? || v.Null?
  }

  /** `isinstance(v, (int, type(None)))`; `bool` is a subclass of `int`. */
  predicate IsIntOrNone(v: Value) {
    v.Int? || v.Bool? || v.Null?
  }

  /** `v == 1`; `True == 1` holds in Python. */
  predicate EqualsOne(v: Value) {
    v == Int(1) || v == Bool(true)
  }

  function OptionalText(v: Value): (r: Option<string>)
    requires IsStrOrNone(v)
    ensures r.Some? <==> v.Str?
    ensures r.Some? ==> r.value == v.s
  {
    if v.Str? then Some(v.s) else None
  }

  function OptionalValue(o: Option<string>): (v: Value)
    ensures IsStrOrNone(v) && OptionalText(v) == o
  {
    if o.Some? then Str(o.value) else Null
  }

  // ---------------------------------------------------------------------------
  // The canonical record

  /** The dictionary built per attempt at lines 239-249 of the pipeline. `extra` holds, in
      insertion order, the integer keys added later in place (`id` by the store, `hour`
      by the aggregator). */
  datatype Attempt = Attempt(
    userId: string,
    oauthConsumerKey: string,
    lisResultSourcedid: Option<string>,
    lisOutcomeServiceUrl: Option<string>,
    isCorrect: Value,
    attemptType: string,
    createdAt: PyDateTime,
    extra: seq<(string, int)>)

  const CanonicalKeys: seq<string> := [
    "user_id", "oauth_consumer_key", "lis_result_sourcedid", "lis_outcome_service_url",
    "is_correct", "attempt_type", "created_at"]

  function ExtraKeys(extra: seq<(string, int)>): (ks: seq<string>)
    ensures |ks| == |extra|
    ensures forall i :: 0 <= i < |extra| ==> ks[i] == extra[i].0
  {
    if extra == [] then [] else ExtraKeys(extra[..|extra| - 1]) + [extra[|extra| - 1].0]
  }

  function ExtraValues(extra: seq<(string, int)>): (vs: seq<Value>)
    ensures |vs| == |extra|
    ensures forall i :: 0 <= i < |extra| ==> vs[i] == Int(extra[i].1)
  {
    if extra == [] then [] else ExtraValues(extra[..|extra| - 1]) + [Int(extra[|extra| - 1].1)]
  }

  /** `user.keys()`, in insertion order. */
  function FieldKeys(a: Attempt): (ks: seq<string>)
    ensures |ks| == |CanonicalKeys| + |a.extra|
    ensures ks[..|CanonicalKeys|] == CanonicalKeys
  {
    CanonicalKeys + ExtraKeys(a.extra)
  }

  /** `user.values()`, aligned with `FieldKeys`. */
  function FieldValues(a: Attempt): (vs: seq<Value>)
    ensures |vs| == |FieldKeys(a)|
    ensures vs[0] == Str(a.userId) && vs[4] == a.isCorrect && vs[6] == Time(a.createdAt)
  {
    [Str(a.userId), Str(a.oauthConsumerKey), OptionalValue(a.lisResultSourcedid),
     OptionalValue(a.lisOutcomeServiceUrl), a.isCorrect, Str(a.attemptType), Time(a.createdAt)]
    + ExtraValues(a.extra)
  }

  /** `zip(user.keys(), user.values())` is the record: each canonical key with its field, in
      the order of lines 239-249, then each added key with its integer value. */
  lemma FieldsAligned(a: Attempt)
    ensures var ks, vs := FieldKeys(a), FieldValues(a);
      && |ks| == |vs|
      && ks[0] == "user_id" && vs[0] == Str(a.userId)
      && ks[1] == "oauth_consumer_key" && vs[1] == Str(a.oauthConsumerKey)
      && ks[2] == "lis_result_sourcedid" && vs[2] == OptionalValue(a.lisResultSourcedid)
      && ks[3] == "lis_outcome_service_url" && vs[3] == OptionalValue(a.lisOutcomeServiceUrl)
      && ks[4] == "is_correct" && vs[4] == a.isCorrect
      && ks[5] == "attempt_type" && vs[5] == Str(a.attemptType)
      && ks[6] == "created_at" && vs[6] == Time(a.createdAt)
      && forall i :: 0 <= i < |a.extra| ==>
           ks[|CanonicalKeys| + i] == a.extra[i].0 && vs[|CanonicalKeys| + i] == Int(a.extra[i].1)
  {
    var ks, vs := FieldKeys(a), FieldValues(a);
    forall i | 0 <= i < |a.extra|
      ensures ks[|CanonicalKeys| + i] == a.extra[i].0 && vs[|CanonicalKeys| + i] == Int(a.extra[i].1)
    {
      assert ks[|CanonicalKeys| + i] == ExtraKeys(a.extra)[i];
      assert vs[|CanonicalKeys| + i] == ExtraValues(a.extra)[i];
    }
  }

  /** `user.get(key)` on the added keys: the first entry under `key`. */
  function Get(extra: seq<(string, int)>, key: string): Option<int> {
    if extra == [] then None
    else if extra[0].0 == key then Some(extra[0].1)
    else Get(extra[1..], key)
  }

  /** `user[key] = user.get(key, v)`: an existing entry is kept where it is, otherwise the
      key is appended with `v`. */
  function SetDefault(extra: seq<(string, int)>, key: string, v: int): (r: seq<(string, int)>)
    ensures Get(extra, key).Some? ==> r == extra
    ensures Get(extra, key).None? ==> r == extra + [(key, v)]
  {
    if Get(extra, key).Some? then extra else extra + [(key, v)]
  }

  /** `key not in user`: no added entry carries the key. */
  lemma {:induction false} GetNone(extra: seq<(string, int)>, key: string)
    ensures Get(extra, key).None? <==> forall i :: 0 <= i < |extra| ==> extra[i].0 != key
    decreases |extra|
  {
    if extra != [] {
      GetNone(extra[1..], key);
      assert forall i :: 1 <= i < |extra| ==> extra[i] == extra[1..][i - 1];
    }
  }

  /** After `SetDefault` the key is present, bound to the old value if there was one. */
  lemma {:induction false} GetAppended(extra: seq<(string, int)>, key: string, v: int)
    requires Get(extra, key).None?
    ensures Get(extra + [(key, v)], key) == Some(v)
    decreases |extra|
  {
    if extra != [] {
      assert (extra + [(key, v)])[1..] == extra[1..] + [(key, v)];
      assert extra[0].0 != key;
      GetAppended(extra[1..], key, v);
    }
  }

  /** Other keys are not affected by appending `key`. */
  lemma {:induction false} GetOther(extra: seq<(string, int)>, key: string, v: int, other: string)
    requires other != key
    ensures Get(extra + [(key, v)], other) == Get(extra, other)
    decreases |extra|
  {
    if extra != [] {
      assert (extra + [(key, v)])[1..] == extra[1..] + [(key, v)];
      GetOther(extra[1..], key, v, other);
    }
  }

  lemma SetDefaultGet(extra: seq<(string, int)>, key: string, v: int)
    ensures Get(SetDefault(extra, key, v), key)
            == (if Get(extra, key).Some? then Get(extra, key) else Some(v))
  {
    if Get(extra, key).None? {
      GetAppended(extra, key, v);
    }
  }
}
