/**
  The validator and normaliser `Transformation`: each raw statistics record is
  checked and turned into a canonical `Attempt`; any failure aborts the whole
  batch, as an exception raised out of `get_statistics` does.
*/
module Transform {
  import opened Wrappers
  import opened DateTimes
  import opened Values

  /** `json.loads` and `ast.literal_eval` on a text value: `None` is the parse error the
      pipeline catches (`JSONDecodeError`; `SyntaxError` or `ValueError`). */
  datatype Parsers = Parsers(json: Value -> Option<Value>, literal: Value -> Option<Value>)

  /** What `get_statistics` raises, with the index of the record being processed. */
  datatype Error =
    | EmptyBatch                          // `Exception('Нет статистики.')`
    | NotSubscriptable(at: nat)           // `TypeError`: the record is not a dict
    | MissingKey(at: nat, key: string)    // `KeyError`
    | PassbackNotText(at: nat)            // `TypeError` out of `json.loads`
    | PassbackNotMapping(at: nat)         // `AttributeError`: the parsed value has no `get`
    | WrongType(at: nat)                  // `Exception('Неверный тип данных.')`
    | WrongOptionalType(at: nat)          // `Exception('Неверный тип данных решения задач ...')`
    | BadDate(at: nat)                    // `ValueError('Неверный формат даты.')`

  const ResultSourcedid := "lis_result_sourcedid"
  const OutcomeServiceUrl := "lis_outcome_service_url"
  const ConsumerKey := "oauth_consumer_key"

  /** The mapping returned when neither parser accepts the text. */
  const DefaultPassback: map<string, Value> :=
    map[ConsumerKey := Str(""), ResultSourcedid := Str(""), OutcomeServiceUrl := Str("")]

  /** `__prepare_passback_params`. */
  function PreparePassback(v: Value, parsers: Parsers, at: nat): Result<Value, Error> {
    if v.Map? then Success(v)
    else if !(v.Str? || v.Bytes?) then Failure(PassbackNotText(at))
    else if parsers.json(v).Some? then Success(parsers.json(v).value)
    else if parsers.literal(v).Some? then Success(parsers.literal(v).value)
    else Success(Map(DefaultPassback))
  }

  /** A mapping passes through unchanged; text is resolved by the first parser that accepts
      it, and falls back to three empty strings; anything else is refused. */
  lemma PassbackResolution(v: Value, parsers: Parsers, at: nat)
    ensures v.Map? ==> PreparePassback(v, parsers, at) == Success(v)
    ensures !v.Map? && !v.Str? && !v.Bytes? <==> PreparePassback(v, parsers, at).Failure?
    ensures PreparePassback(v, parsers, at).Failure? ==>
      PreparePassback(v, parsers, at).error == PassbackNotText(at)
    ensures (v.Str? || v.Bytes?) && parsers.json(v).Some? ==>
      PreparePassback(v, parsers, at) == Success(parsers.json(v).value)
    ensures (v.Str? || v.Bytes?) && parsers.json(v).None? && parsers.literal(v).Some? ==>
      PreparePassback(v, parsers, at) == Success(parsers.literal(v).value)
    ensures (v.Str? || v.Bytes?) && parsers.json(v).None? && parsers.literal(v).None? ==>
      var r := PreparePassback(v, parsers, at);
      && r.Success? && r.value.Map?
      && r.value.entries.Keys == {ConsumerKey, ResultSourcedid, OutcomeServiceUrl}
      && forall k :: k in r.value.entries ==> r.value.entries[k] == Str("")
  {
  }

  // ---------------------------------------------------------------------------
  // Validation

  /** The two assignments at the head of `__validated_data`. */
  function FillPassback(m: map<string, Value>): (r: map<string, Value>)
    ensures r.Keys == m.Keys + {ResultSourcedid, OutcomeServiceUrl}
    ensures forall k :: k in m ==> r[k] == m[k]
    ensures forall k :: k in r && k !in m ==> r[k] == Null
  {
    var m1 := m[ResultSourcedid := if ResultSourcedid in m then m[ResultSourcedid] else Null];
    m1[OutcomeServiceUrl := if OutcomeServiceUrl in m1 then m1[OutcomeServiceUrl] else Null]
  }

  /** Filling twice is filling once. */
  lemma FillIdempotent(m: map<string, Value>)
    ensures FillPassback(FillPassback(m)) == FillPassback(m)
  {
  }

  /** The passback mapping that `__validated_data` mutates in place. */
  class PassbackParams {
    var entries: map<string, Value>

    constructor (m: map<string, Value>)
      ensures entries == m
    {
      entries := m;
    }

    /** Lines 172-177. */
    method Fill()
      modifies this
      ensures entries == FillPassback(old(entries))
    {
      entries := entries[ResultSourcedid := if ResultSourcedid in entries then entries[ResultSourcedid] else Null];
      entries := entries[OutcomeServiceUrl := if OutcomeServiceUrl in entries then entries[OutcomeServiceUrl] else Null];
    }
  }

  predicate Filled(pb: map<string, Value>) {
    ResultSourcedid in pb && OutcomeServiceUrl in pb
  }

  /** The checks of `__validated_data`, once the passback mapping is filled, in the order
      Python evaluates them: the four lookups of the tuple (all before `any`), the type
      test, then the short-circuit `or` with its own lookup of `is_correct`, then the date. */
  function CheckAttempt(rec: map<string, Value>, pb: map<string, Value>, at: nat): Outcome<Error>
    requires Filled(pb)
  {
    if "lti_user_id" !in rec then Fail(MissingKey(at, "lti_user_id"))
    else if "attempt_type" !in rec then Fail(MissingKey(at, "attempt_type"))
    else if "created_at" !in rec then Fail(MissingKey(at, "created_at"))
    else if ConsumerKey !in pb then Fail(MissingKey(at, ConsumerKey))
    else if !rec["lti_user_id"].Str? || !rec["attempt_type"].Str? || !rec["created_at"].Str?
         || !pb[ConsumerKey].Str? then Fail(WrongType(at))
    else if !IsStrOrNone(pb[OutcomeServiceUrl]) then Fail(WrongOptionalType(at))
    else if "is_correct" !in rec then Fail(MissingKey(at, "is_correct"))
    else if !IsIntOrNone(rec["is_correct"]) then Fail(WrongOptionalType(at))
    else if !IsStrOrNone(pb[ResultSourcedid]) then Fail(WrongOptionalType(at))
    else if Parse(rec["created_at"].s).None? then Fail(BadDate(at))
    else Pass
  }

  /** What a record must satisfy, stated without regard to evaluation order. */
  predicate Acceptable(rec: map<string, Value>, pb: map<string, Value>) {
    && "lti_user_id" in rec && "attempt_type" in rec && "created_at" in rec
    && "is_correct" in rec && ConsumerKey in pb
    && ResultSourcedid in pb && OutcomeServiceUrl in pb
    && rec["lti_user_id"].Str? && rec["attempt_type"].Str? && rec["created_at"].Str?
    && pb[ConsumerKey].Str?
    && IsStrOrNone(pb[OutcomeServiceUrl]) && IsStrOrNone(pb[ResultSourcedid])
    && IsIntOrNone(rec["is_correct"])
    && Parse(rec["created_at"].s).Some?
  }

  /** Validation passes exactly when the record is acceptable. */
  lemma CheckAttemptIff(rec: map<string, Value>, pb: map<string, Value>, at: nat)
    requires Filled(pb)
    ensures CheckAttempt(rec, pb, at) == Pass <==> Acceptable(rec, pb)
  {
  }

  /** When every key is present, the failure says which class of test failed: a wrong
      required type, a wrong optional type, or an unparseable date. */
  lemma CheckAttemptErrors(rec: map<string, Value>, pb: map<string, Value>, at: nat)
    requires Filled(pb)
    requires "lti_user_id" in rec && "attempt_type" in rec && "created_at" in rec
    requires "is_correct" in rec && ConsumerKey in pb
    ensures CheckAttempt(rec, pb, at) == Fail(WrongType(at)) <==>
      !(rec["lti_user_id"].Str? && rec["attempt_type"].Str? && rec["created_at"].Str?
        && pb[ConsumerKey].Str?)
    ensures CheckAttempt(rec, pb, at) == Fail(WrongOptionalType(at)) <==>
      && rec["lti_user_id"].Str? && rec["attempt_type"].Str? && rec["created_at"].Str?
      && pb[ConsumerKey].Str?
      && !(IsStrOrNone(pb[OutcomeServiceUrl]) && IsStrOrNone(pb[ResultSourcedid])
           && IsIntOrNone(rec["is_correct"]))
    ensures CheckAttempt(rec, pb, at) == Fail(BadDate(at)) <==>
      && rec["lti_user_id"].Str? && rec["attempt_type"].Str? && rec["created_at"].Str?
      && pb[ConsumerKey].Str?
      && IsStrOrNone(pb[OutcomeServiceUrl]) && IsStrOrNone(pb[ResultSourcedid])
      && IsIntOrNone(rec["is_correct"])
      && Parse(rec["created_at"].s).None?
  {
  }

  /** `__validated_data(attemps, passback_params)`: fills the mapping in place, then checks. */
  method ValidatedData(rec: map<string, Value>, pb: PassbackParams, at: nat) returns (r: Outcome<Error>)
    modifies pb
    ensures pb.entries == FillPassback(old(pb.entries))
    ensures r == CheckAttempt(rec, pb.entries, at)
  {
    pb.Fill();
    r := CheckAttempt(rec, pb.entries, at);
  }

  // ---------------------------------------------------------------------------
  // Normalisation

  /** The canonical record of lines 239-249, for a record that passed validation. */
  function Canonical(rec: map<string, Value>, pb: map<string, Value>): Attempt
    requires Acceptable(rec, pb)
  {
    Attempt(
      rec["lti_user_id"].s,
      pb[ConsumerKey].s,
      OptionalText(pb[ResultSourcedid]),
      OptionalText(pb[OutcomeServiceUrl]),
      rec["is_correct"],
      rec["attempt_type"].s,
      Parse(rec["created_at"].s).value,
      [])
  }

  /** One iteration of the loop in `get_statistics`, on the record at index `at`. */
  function NormalizeOne(stat: Value, parsers: Parsers, at: nat): Result<Attempt, Error> {
    if !stat.Map? then Failure(NotSubscriptable(at))
    else if "passback_params" !in stat.entries then Failure(MissingKey(at, "passback_params"))
    else
      var prepared := PreparePassback(stat.entries["passback_params"], parsers, at);
      if prepared.Failure? then Failure(prepared.error)
      else if !prepared.value.Map? then Failure(PassbackNotMapping(at))
      else
        var pb := FillPassback(prepared.value.entries);
        var check := CheckAttempt(stat.entries, pb, at);
        if check.Fail? then Failure(check.error)
        else
          CheckAttemptIff(stat.entries, pb, at);
          Success(Canonical(stat.entries, pb))
  }

  /** What each loop iteration produces on its own. */
  function Outcomes(stats: seq<Value>, parsers: Parsers): (rs: seq<Result<Attempt, Error>>)
    ensures |rs| == |stats|
    ensures forall i :: 0 <= i < |stats| ==> rs[i] == NormalizeOne(stats[i], parsers, i)
  {
    seq(|stats|, i requires 0 <= i < |stats| => NormalizeOne(stats[i], parsers, i))
  }

  /** The loop's accumulation: results appended in order, the first failure raised. */
  function Collect<T, E>(rs: seq<Result<T, E>>): Result<seq<T>, E> {
    if rs == [] then Success([])
    else
      var prev := Collect(rs[..|rs| - 1]);
      var last := rs[|rs| - 1];
      if prev.Failure? then prev
      else if last.Failure? then Failure(last.error)
      else Success(prev.value + [last.value])
  }

  /** `get_statistics(statistics)`. */
  function Normalize(stats: seq<Value>, parsers: Parsers): Result<seq<Attempt>, Error> {
    if stats == [] then Failure(EmptyBatch) else Collect(Outcomes(stats, parsers))
  }

  /** Collecting succeeds exactly when every result does, and then keeps them all in order. */
  lemma {:induction false} CollectSuccess<T, E>(rs: seq<Result<T, E>>)
    ensures Collect(rs).Success? <==> forall i :: 0 <= i < |rs| ==> rs[i].Success?
    ensures Collect(rs).Success? ==>
      |Collect(rs).value| == |rs| && forall i :: 0 <= i < |rs| ==> rs[i] == Success(Collect(rs).value[i])
    decreases |rs|
  {
    if rs != [] {
      var init := rs[..|rs| - 1];
      CollectSuccess(init);
      assert forall i :: 0 <= i < |init| ==> init[i] == rs[i];
    }
  }

  /** A failed collection reports the error of the first failing result. */
  lemma {:induction false} CollectFailure<T, E>(rs: seq<Result<T, E>>)
    requires Collect(rs).Failure?
    ensures exists k :: (0 <= k < |rs| && rs[k] == Failure(Collect(rs).error)
      && forall i :: 0 <= i < k ==> rs[i].Success?)
    decreases |rs|
  {
    var init := rs[..|rs| - 1];
    assert forall i :: 0 <= i < |init| ==> init[i] == rs[i];
    if Collect(init).Failure? {
      CollectFailure(init);
      var k :| 0 <= k < |init| && init[k] == Failure(Collect(init).error)
        && forall i :: 0 <= i < k ==> init[i].Success?;
      assert rs[k] == Failure(Collect(rs).error);
    } else {
      CollectSuccess(init);
      assert rs[|rs| - 1] == Failure(Collect(rs).error);
    }
  }

  /** Once a prefix has failed, the rest of the loop is never reached. */
  lemma {:induction false} CollectAborts<T, E>(rs: seq<Result<T, E>>, n: nat)
    requires n <= |rs| && Collect(rs[..n]).Failure?
    ensures Collect(rs) == Collect(rs[..n])
    decreases |rs| - n
  {
    if n < |rs| {
      CollectExtends(rs, n);
      CollectAborts(rs, n + 1);
    } else {
      assert rs[..n] == rs;
    }
  }

  /** One more iteration of the loop. */
  lemma CollectExtends<T, E>(rs: seq<Result<T, E>>, n: nat)
    requires n < |rs|
    ensures Collect(rs[..n + 1]) ==
      if Collect(rs[..n]).Failure? then Collect(rs[..n])
      else if rs[n].Failure? then Failure(rs[n].error)
      else Success(Collect(rs[..n]).value + [rs[n].value])
  {
    assert rs[..n + 1][..n] == rs[..n];
  }

  /** `get_statistics` succeeds exactly on a non-empty batch of records that all pass; then
      record i of the output is the canonical form of raw record i. */
  lemma NormalizeSuccess(stats: seq<Value>, parsers: Parsers)
    ensures Normalize(stats, parsers).Success? <==>
      stats != [] && forall i :: 0 <= i < |stats| ==> NormalizeOne(stats[i], parsers, i).Success?
    ensures Normalize(stats, parsers).Success? ==>
      var out := Normalize(stats, parsers).value;
      |out| == |stats| && forall i :: 0 <= i < |stats| ==> NormalizeOne(stats[i], parsers, i) == Success(out[i])
  {
    CollectSuccess(Outcomes(stats, parsers));
  }

  /** No partial result: a failure is the empty-batch error or the first failing record's. */
  lemma NormalizeFailure(stats: seq<Value>, parsers: Parsers)
    requires Normalize(stats, parsers).Failure?
    ensures stats == [] <==> Normalize(stats, parsers).error == EmptyBatch
    ensures stats != [] ==> exists k :: (0 <= k < |stats|
      && NormalizeOne(stats[k], parsers, k) == Failure(Normalize(stats, parsers).error)
      && forall i :: 0 <= i < k ==> NormalizeOne(stats[i], parsers, i).Success?)
  {
    if stats != [] {
      var rs := Outcomes(stats, parsers);
      CollectFailure(rs);
      var k :| 0 <= k < |rs| && rs[k] == Failure(Collect(rs).error)
        && forall i :: 0 <= i < k ==> rs[i].Success?;
      NormalizeOneErrorAt(stats[k], parsers, k);
    }
  }

  /** Every error of one record names that record. */
  lemma NormalizeOneErrorAt(stat: Value, parsers: Parsers, at: nat)
    requires NormalizeOne(stat, parsers, at).Failure?
    ensures NormalizeOne(stat, parsers, at).error != EmptyBatch
  {
  }

  /** The field mapping of a normalised record: `lti_user_id` becomes `user_id`,
      `is_correct` and `attempt_type` are copied, the three passback fields come from the
      resolved mapping (absent `lis_*` keys read as `None`), `created_at` is parsed. */
  lemma NormalizedFields(stat: Value, parsers: Parsers, at: nat)
    requires NormalizeOne(stat, parsers, at).Success?
    ensures var a := NormalizeOne(stat, parsers, at).value;
      && stat.Map? && "passback_params" in stat.entries
      && var prepared := PreparePassback(stat.entries["passback_params"], parsers, at);
      && prepared.Success? && prepared.value.Map?
      && var pb := prepared.value.entries;
      && Str(a.userId) == stat.entries["lti_user_id"]
      && a.isCorrect == stat.entries["is_correct"] && IsIntOrNone(a.isCorrect)
      && Str(a.attemptType) == stat.entries["attempt_type"]
      && Str(a.oauthConsumerKey) == pb[ConsumerKey]
      && OptionalValue(a.lisResultSourcedid)
         == (if ResultSourcedid in pb then pb[ResultSourcedid] else Null)
      && OptionalValue(a.lisOutcomeServiceUrl)
         == (if OutcomeServiceUrl in pb then pb[OutcomeServiceUrl] else Null)
      && Parse(stat.entries["created_at"].s) == Some(a.createdAt)
      && a.extra == []
  {
  }

  /** A resolved mapping without `oauth_consumer_key` aborts with a `KeyError` once the
      record's own three string keys are present. */
  lemma MissingConsumerKey(stat: Value, parsers: Parsers, at: nat)
    requires stat.Map? && "passback_params" in stat.entries
    requires "lti_user_id" in stat.entries && "attempt_type" in stat.entries
    requires "created_at" in stat.entries
    requires var prepared := PreparePassback(stat.entries["passback_params"], parsers, at);
      prepared.Success? && prepared.value.Map? && ConsumerKey !in prepared.value.entries
    ensures NormalizeOne(stat, parsers, at) == Failure(MissingKey(at, ConsumerKey))
  {
  }

  /** `get_statistics`: the loop of lines 228-252. Validation either passes or raises, so
      the `continue` at lines 236-237 never runs. */
  method GetStatistics(stats: seq<Value>, parsers: Parsers) returns (r: Result<seq<Attempt>, Error>)
    ensures r == Normalize(stats, parsers)
  {
    if stats == [] {
      return Failure(EmptyBatch);
    }
    var result: seq<Attempt> := [];
    ghost var rs := Outcomes(stats, parsers);
    var i := 0;
    while i < |stats|
      invariant 0 <= i <= |stats|
      invariant Collect(rs[..i]) == Success(result)
    {
      CollectExtends(rs, i);
      var stat := stats[i];
      if !stat.Map? {
        CollectAborts(rs, i + 1);
        return Failure(NotSubscriptable(i));
      }
      if "passback_params" !in stat.entries {
        CollectAborts(rs, i + 1);
        return Failure(MissingKey(i, "passback_params"));
      }
      var prepared := PreparePassback(stat.entries["passback_params"], parsers, i);
      if prepared.Failure? {
        CollectAborts(rs, i + 1);
        return Failure(prepared.error);
      }
      if !prepared.value.Map? {
        CollectAborts(rs, i + 1);
        return Failure(PassbackNotMapping(i));
      }
      var pb := new PassbackParams(prepared.value.entries);
      var valid := ValidatedData(stat.entries, pb, i);
      if valid.Fail? {
        CollectAborts(rs, i + 1);
        return Failure(valid.error);
      }
      CheckAttemptIff(stat.entries, pb.entries, i);
      result := result + [Canonical(stat.entries, pb.entries)];
      i := i + 1;
    }
    assert rs[..i] == rs;
    return Success(result);
  }
}
