# A verified model of the daily solving-statistics pipeline

`Final_Project.py` is a daily batch job. It pulls one day of task-solving
attempts from a statistics API, validates them and turns them into canonical
records. It stores them row by row in a PostgreSQL table `solvings`,
summarises the day, and sends the summary on. This project models its core in
Dafny and proves what that core promises:

- **The time-window cursor** (`Extraction.__get_params`, module `Windows`): a
  generator that yields request windows `{start, end}`. Each `end` is
  `start + 24h`, written as `%Y-%m-%d %H:%M:%S.%f`. Because `self.start = end`
  comes after the `yield`, it runs only on the next resume. The class
  `Extraction` keeps the attributes `start` and `interval` and the generator
  frame (not started, paused with its `end` pending, or closed). Calendar arithmetic, Python's datetime order
  and the strict fixed-width `strptime`/`strftime` pair are in `DateTimes`.
- **The validator and normaliser** (`Transformation`, module `Transform`).
  - Passback-parameter resolution (a mapping, else `json.loads`, else
    `ast.literal_eval`, else three empty strings).
  - The in-place filling of `lis_*` keys.
  - The type and date checks in Python's evaluation order.
  - The canonical record.
  - The loop in `get_statistics`, where any failure aborts the batch.
  - Raw values and the canonical `Attempt` record are in `Values`.
- **The attempt store** (`Database`, module `Store`).
  - The primary-key generator: the first `next` yields `primary_key` as it is,
    and each later one increments it first.
  - `ensure_utf8`.
  - `post`, which pulls one key per record and sets `id` in place when it is
    absent. It inserts the record's columns, placeholders and sanitised values,
    then commits. On a failure it rolls back the open transaction and re-raises.
    The connection is an abstract table of committed and pending statements.
- **The daily aggregator** (`Analysis.__calculation_cnt_attempts`, module
  `Stats`). It stamps `hour` into every record in place, keeping an existing
  value, and computes the summary:
  - the first record's date;
  - the number of attempts;
  - the earliest and latest times;
  - the most common hour, chosen as `Counter.most_common(1)` does;
  - the correct attempts;
  - the distinct users.

`Wrappers` holds `Option`, `Result` and `Outcome`. The parsers `json.loads`
and `ast.literal_eval`, the bytes codec of `ensure_utf8` and the point at
which `cursor.execute` fails are parameters of the model.

## Model

| member | source | states |
|---|---|---|
| DateTimes.AddHours | Final_Project.py:96-98 | adding a `timedelta(hours=h)` to a well-formed date-time gives a well-formed one with the same minute, second and microsecond |
| DateTimes.NextDay | Final_Project.py:96-98 | the day after a valid date is a valid date, carrying into the next month and year; on the day-number scale it is one day later (NextDayOrdinal) |
| DateTimes.AddDays | Final_Project.py:96-98 | moving a valid date `n` days forward gives a valid date; it advances the day number by exactly `n` (AddDaysOrdinal) |
| DateTimes.AddHoursElapsed | Final_Project.py:81 | exactly `h` hours of microseconds separate the two, across day, month, year and leap-day carries |
| DateTimes.AddHoursLater | Final_Project.py:96-98 | a positive shift is strictly later in Python's datetime order |
| DateTimes.Before | Final_Project.py:292-305 | Python's `<` on naive datetimes, the order behind `min` and `max`: lexicographic on year, month, day, hour, minute, second and microsecond; a total order (AtMostTransitive, AtMostTotal) |
| DateTimes.AtMostTransitive | Final_Project.py:292-305 | `<=` on datetimes is transitive |
| DateTimes.AtMostTotal | Final_Project.py:292-305 | any two datetimes are ordered one way or the other, so `min` and `max` by `created_at` always have an answer |
| DateTimes.NextDayOrdinal | Final_Project.py:96-98 | the calendar's next day is the next day number (ordinal), at month ends, year ends and on 29 February |
| DateTimes.AddDaysOrdinal | Final_Project.py:96-98 | moving `n` days forward advances the day number by `n` |
| DateTimes.Parse | Final_Project.py:205 | what `strptime(..., '%Y-%m-%d %H:%M:%S.%f')` accepts is a date-time Python can hold |
| DateTimes.Fmt | Final_Project.py:96-98 | `strftime(dt, '%Y-%m-%d %H:%M:%S.%f')` is 26 characters; Parse is its exact inverse (ParseFmt, FmtParse) |
| DateTimes.FmtSeconds | Final_Project.py:292-305 | `strftime(..., '%Y-%m-%d %H:%M:%S')` is 19 characters, the full text cut before the fraction (FmtSecondsPrefix) |
| DateTimes.ParseFmt | Final_Project.py:96-98 | `strptime` reads back what `strftime` wrote, for every representable date-time in the model's zero-padded four-digit-year form (see `DateTimes.Fmt` below) |
| DateTimes.FmtParse | Final_Project.py:96-98 | every text `strptime` accepts is the `strftime` text of what it parsed |
| DateTimes.FmtSecondsPrefix | Final_Project.py:292-305 | the summary's `%Y-%m-%d %H:%M:%S` text is the full text cut before the fraction |
| Windows.FirstWindow | Final_Project.py:80-102 | the first `next` yields `('2023-04-01 00:00:57.860798', '2023-04-02 00:00:57.860798')` |
| Windows.Step | Final_Project.py:92-104 | one resume of the generator, with the interval passed in; specified by StepSpec, and its invariant by StepInv |
| Windows.Resumed | Final_Project.py:104 | the `start` in force after `self.start = end`; specified by ResumedIsLastEnd |
| Windows.ResumedIsLastEnd | Final_Project.py:92-104 | a resumed generator starts where the last yielded window ended, or at the configured start before the first call |
| Windows.StepSpec | Final_Project.py:92-104 | for any interval, a resume yields `(start, start + interval)` for the resumed start, both parsable, and stores `end` as pending; if the end leaves year 9999 the generator dies with an overflow; a closed generator stays closed |
| Windows.StepInv | Final_Project.py:92-104 | every resume keeps the invariant: the windows handed out chain end to start from the configured start and each spans 24 hours |
| Windows.StepsMeet | Final_Project.py:100-104 | two successive windows meet: the second starts where the first ended |
| Windows.WindowsContiguous | Final_Project.py:92-104 | window `k` starts exactly `k` days after the first |
| Windows.WindowsIncrease | Final_Project.py:92-104 | windows never rewind: later windows start strictly later, by whole days |
| Windows.Extraction.constructor | Final_Project.py:79-82 | a new extractor starts at `'2023-04-01 00:00:57.860798'` with a 24-hour interval and a fresh generator |
| Windows.Extraction.Next | Final_Project.py:92-104 | `next(self._params_gen)` moves the attribute and the frame as one resume with `self.interval` does, yields its result and keeps the invariant |
| Windows.NextTwo | Final_Project.py:106-108 | two requests in a row receive windows that meet, and the extractor stays usable |
| Transform.PassbackResolution | Final_Project.py:137-160 | a mapping passes through; text goes to the first parser that accepts it, else the three empty strings; anything else fails as `json.loads` does |
| Transform.PreparePassback | Final_Project.py:137-160 | `__prepare_passback_params`; specified by PassbackResolution |
| Transform.FillPassback | Final_Project.py:171-177 | the filled mapping has both `lis_*` keys, keeps every existing entry and puts `None` where a key was absent |
| Transform.FillIdempotent | Final_Project.py:171-177 | filling twice is filling once |
| Transform.PassbackParams.Fill | Final_Project.py:171-177 | the two assignments update the mapping in place to its filled form |
| Transform.PassbackParams.constructor | Final_Project.py:233-235 | the mapping the record's `passback_params` resolved to, held as an object so that `__validated_data` can fill it in place |
| Transform.CheckAttempt | Final_Project.py:179-209 | the checks of `__validated_data` in Python's evaluation order; specified by CheckAttemptIff and CheckAttemptErrors |
| Transform.CheckAttemptIff | Final_Project.py:179-209 | validation passes exactly when the record and the mapping have the keys, the types and a parsable date |
| Transform.CheckAttemptErrors | Final_Project.py:179-207 | with every key present, the error names the failing test: required type, optional type, or date format |
| Transform.ValidatedData | Final_Project.py:163-209 | the method fills the mapping in place and returns the verdict of the checks |
| Transform.Canonical | Final_Project.py:239-249 | the canonical record literal for a record that passed validation; specified by NormalizedFields |
| Transform.NormalizeOne | Final_Project.py:232-250 | one iteration of the loop on record `i`; specified by NormalizedFields and MissingConsumerKey, and its errors name record `i` |
| Transform.Collect | Final_Project.py:231-252 | the loop's accumulation into `result`, stopped by the first raise; specified by CollectSuccess, CollectFailure and CollectAborts |
| Transform.Normalize | Final_Project.py:228-252 | `get_statistics` as a value; specified by NormalizeSuccess and NormalizeFailure, and computed by the method GetStatistics |
| Transform.CollectSuccess | Final_Project.py:231-252 | the accumulation succeeds exactly when every record does, and then keeps them in order |
| Transform.CollectFailure | Final_Project.py:231-252 | a failed accumulation carries the first failing record's error |
| Transform.CollectAborts | Final_Project.py:231-252 | once a prefix has failed, the records after it change nothing |
| Transform.NormalizeSuccess | Final_Project.py:228-252 | `get_statistics` succeeds exactly on a non-empty batch whose records all pass, and output `i` is the canonical form of input `i` |
| Transform.NormalizeFailure | Final_Project.py:228-252 | a failure is the empty-batch error or the error of the first failing record; there is no partial result |
| Transform.NormalizedFields | Final_Project.py:239-249 | the canonical record: `lti_user_id` becomes `user_id`, the flags are copied, the passback fields come from the resolved mapping (`None` if absent), `created_at` is parsed |
| Transform.MissingConsumerKey | Final_Project.py:186 | a resolved mapping without `oauth_consumer_key` raises `KeyError` for it |
| Transform.GetStatistics | Final_Project.py:211-252 | the loop returns what the batch normalisation defines: the canonical records, or the first error |
| Values.SetDefaultGet | Final_Project.py:285 | `d[k] = d.get(k, v)` leaves `k` bound: to its old value if it had one, to `v` otherwise |
| Values.SetDefault | Final_Project.py:285 | `d[k] = d.get(k, v)`: an existing entry is kept as it is, otherwise `(k, v)` is appended at the end of the insertion order |
| Values.Get | Final_Project.py:407 | `user.get(key)` on the added keys, here and at line 285: the first entry under `key`, if any; specified by GetNone, GetAppended and GetOther |
| Values.GetNone | Final_Project.py:407 | `user.get(key)` finds nothing exactly when no added entry carries `key` |
| Values.FieldKeys | Final_Project.py:408 | `user.keys()`: the seven canonical keys first, in the order the normaliser wrote them, then the added keys |
| Values.FieldValues | Final_Project.py:408-410 | `user.values()`: the user id first, the flag at position 4 and the creation time at position 6 |
| Values.FieldsAligned | Final_Project.py:408-410 | `user.keys()` and `user.values()` line up: each canonical key (`user_id`, `oauth_consumer_key`, `lis_result_sourcedid`, `lis_outcome_service_url`, `is_correct`, `attempt_type`, `created_at`) sits beside its own field, and each added key (`id`, `hour`) beside its integer value |
| Store.EnsureUtf8 | Final_Project.py:384-389 | text stays as it is (a Dafny string has no lone surrogates), bytes are decoded, other values pass through; nothing comes out as bytes |
| Store.EnsureUtf8Idempotent | Final_Project.py:384-389 | sanitising twice is sanitising once, and only text and bytes come out as text |
| Store.Sanitized | Final_Project.py:410 | `[self.ensure_utf8(v) for v in user.values()]`: one value per field, each the sanitised field at the same position |
| Store.InsertShape | Final_Project.py:408-413 | the insert names the record's columns in key order, with one `%s` and one sanitised value per column |
| Store.WithIdGet | Final_Project.py:407 | setting the id changes only `id`, and an id already present is kept |
| Store.WithId | Final_Project.py:407 | `user['id'] = user.get('id', id)`; specified by WithIdGet |
| Store.InsertFor | Final_Project.py:408-414 | the statement one record is inserted with; specified by InsertShape |
| Store.InsertForNewId | Final_Project.py:407-414 | a record without an `id` is inserted with `id` as its last column, the key drawn as its last value, and no other `id` column |
| Store.RowIds | Final_Project.py:404-417 | the row inserted for the `k`-th record carries the id `first + k` drawn for it, whenever the record had no `id` of its own |
| Store.PostedIds | Final_Project.py:404-407 | after `post`, the records that had no id carry the keys `first`, `first+1`, ... by position, so no two share one; other fields are untouched |
| Store.Database.constructor | Final_Project.py:371-372 | a new store has key 0, an unstarted generator and no rows |
| Store.Database.NextKey | Final_Project.py:377-382 | the generator yields the key, and the next one will be one higher |
| Store.Database.Execute | Final_Project.py:414 | an execute appends the row to the committed rows under autocommit, to the open transaction otherwise, and nothing on failure |
| Store.Database.Commit | Final_Project.py:417 | commit moves the open transaction to the committed rows |
| Store.Database.Rollback | Final_Project.py:422 | rollback drops the open transaction |
| Store.Database.InsertRecord | Final_Project.py:404-417 | one loop iteration extends the record prefix handled by `post` by one: id set, key pulled, row committed unless the execute fails |
| Store.Database.Post | Final_Project.py:396-423 | `post` handles the records up to and including the failing one, commits one row per record before it, ends with no open transaction and reports the failing index; an empty batch returns before the generator is touched |
| Stats.WithHourGet | Final_Project.py:285 | stamping sets only `hour`, to the hour the record already had or its creation hour; a second stamp changes nothing |
| Stats.HourOf | Final_Project.py:285 | the hour a record reports: its `hour` entry if it has one, otherwise the creation hour; WithHourGet shows that stamping stores it |
| Stats.Hours | Final_Project.py:283-286 | the list `hours`: one entry per record, in order, each the hour that record reports |
| Stats.WithHour | Final_Project.py:285 | `user['hour'] = user.get('hour', user['created_at'].hour)`; specified by WithHourGet |
| Stats.Correct | Final_Project.py:306 | the filtered list holds only records whose `is_correct == 1` (`True` included) |
| Stats.CorrectOccurrences | Final_Project.py:306 | the filter keeps every occurrence of a correct record and no other record |
| Stats.FirstMin | Final_Project.py:292-298 | `min` by `created_at` picks a record no other precedes, the first such one |
| Stats.FirstMax | Final_Project.py:299-305 | `max` by `created_at` picks a record no other follows, the first such one |
| Stats.Count | Final_Project.py:288 | `Counter(hours)[h]`: at most the number of hours, and positive exactly when `h` occurs |
| Stats.MostCommon | Final_Project.py:288-290 | `most_common(1)[0]` is an hour with the largest count and that count; the hour was seen before or at every position of an hour with that count |
| Stats.FirstMostCounted | Final_Project.py:288-290 | among the first `n` hours, the first position with the largest count: no earlier position has as large a count, and none in the range a larger one |
| Stats.Summarize | Final_Project.py:280-281 | no records give the empty result, and any records give a summary |
| Stats.SummaryCounts | Final_Project.py:291-317 | the date is the first record's, every attempt is counted, and the correct attempts and the users number at most the attempts |
| Stats.SummaryTimes | Final_Project.py:292-305 | `min_time` and `max_time` are the times of the earliest and the latest record, and `min_time <= max_time` |
| Stats.SummaryHour | Final_Project.py:283-290 | the hour reported is counted as often as it says, and no record's hour more often |
| Stats.UsersBound | Final_Project.py:307-315 | a non-empty day has between one user and as many users as attempts |
| Stats.Users | Final_Project.py:307 | the set of the records' `user_id` values; bounded by UsersBound |
| Stats.StampedKeeps | Final_Project.py:284-286 | stamping leaves times, users, flags and hours as they were |
| Stats.CorrectStamped | Final_Project.py:284-306 | the correct records of the stamped day are exactly the stamped correct records |
| Stats.SecondRun | Final_Project.py:284-286 | a second run leaves every record as it is and reports the same summary |
| Stats.Analysis.StampHours | Final_Project.py:283-286 | the loop stamps every record in place and collects exactly the hours of the records as they came in, in order |
| Stats.StampedSummary | Final_Project.py:283-317 | the stamped records hold the same hours and give the same summary as the records before stamping |
| Stats.Analysis.constructor | Final_Project.py:260-261 | the aggregator holds the list it was given, the same array and not a copy |
| Stats.Analysis.CalculationCntAttempts | Final_Project.py:263-318 | the method stamps every record in place and returns the summary of the records as they came in |
| Stats.SummarizeAsWritten | Final_Project.py:307 | the code as written, with `cnt_users` taken from the module-level `res`: empty exactly when no records |
| Stats.AsWrittenAtCallSite | Final_Project.py:307 | at the one call site (lines 429-432) `res` is the aggregator's own list, and the code as written reports the intended summary |
| Stats.AsWrittenMiscounts | Final_Project.py:307 | with any other `res` it miscounts: two attempts by two users, with `res` holding one, are reported as one user |

## Left out

- HTTP fetching (`Extraction.get_data`, lines 106-122) is network I/O, including its error strings in place of data. Only the `next` on the generator at line 108 is modelled.
- Windows.Window: each `next` yields a copy of `BASE_PARAMS` (line 95) with `start` and `end` set (lines 100-101), so it also carries the `client` and `client_key` credentials. The model keeps only `start` and `end`: the credential entries are constants the generator never reads or changes.
- The database connection (lines 356-370), the singleton `__new__` (351-354) and `select` (391-394) are foreign I/O. The connection is an abstract record of committed and pending statements. Calling `Database()` again resets `primary_key`, which is not modelled.
- The SQL text is kept as its parts (table, columns, placeholders, values), not as a formatted string.
- A failing `commit` and failures other than `cursor.execute` are not modelled. The failing record's index is a parameter.
- `load_table` (Google Sheets, lines 320-338), the e-mail code (lines 435-456) and the driver (lines 426-433) are I/O. The driver appears only as the call-site fact used in the finding.
- Logging is I/O and is left out everywhere: the set-up at lines 16-66 and the `logging.*` calls inside the modelled methods (lines 141-156, 250 and 398-421).
- Transform.GetStatistics: when a record's `passback_params` is already a dict, lines 139-140 return that same dict and lines 172-177 write the missing `lis_*` keys into it, so the caller's own input records change. This also happens for the records before one that later raises. The model fills a fresh `PassbackParams` copy, and its input `stats` is a value, so it does not capture this in-place change of the caller's mappings or the aliasing behind it. The returned records are the same either way, because the filled values are read at once (lines 241-243) and filling is idempotent (`Transform.FillIdempotent`).
- `json.loads` and `ast.literal_eval` are function parameters returning a value or a parse error. Their grammars are not modelled.
- Bytes decoding with `'ignore'` is a parameter of `EnsureUtf8`.
- Store.EnsureUtf8: on text, the source's `encode('utf-8', 'ignore').decode('utf-8')` (line 386) drops lone surrogates. A Dafny string cannot hold them, so the model returns text unchanged and does not capture that removal.
- DateTimes.Parse: it is the strict reading of `%Y-%m-%d %H:%M:%S.%f`, exactly 26 characters, with one space between date and time. `strptime` also accepts texts the model rejects: shorter fields (`2023-4-1 0:0:57.8`), space-padded fields (`2023-04- 1 …`), any run of whitespace where the format has its single space, and non-ASCII decimal digits (`_strptime` matches `%Y`, and the second digit of `%d`, `%H`, `%M` and `%S`, with `\d`, which also matches such digits without `re.ASCII`, and `int()` reads them), as in `'٢٠٢٣-04-01 00:00:57.860798'`. The model accepts ASCII digits only.
- DateTimes.Fmt: the model writes years below 1000 as 4 digits. CPython's `strftime` leaves that year padding to the platform.
- Values.Attempt: `id` and `hour` are integers in the model. A pre-set non-integer `id` or `hour` in a record is not represented.
- `Counter` is modelled by its counts and by the `most_common(1)` choice only.
- Exceptions are incomplete. A `TypeError` from comparing incomparable values, and exceptions raised inside the parsers other than the parse errors that are caught, are not modelled.

## Findings

| source | as written | input that shows it | evidently intended | confidence | as-written member | corrected member |
|---|---|---|---|---|---|---|
| Final_Project.py:307 | `cnt_users` is built from the module-level `res`, not from `self.data` | an `Analysis` over two attempts by users `"1"` and `"2"` while `res` holds only the first: one user is reported | the distinct users of the records the aggregator holds | not executed; high that the count is wrong with any other list, and it is right at the one existing call site | Stats.SummarizeAsWritten, Stats.AsWrittenMiscounts | Stats.Summarize, Stats.UsersBound |
