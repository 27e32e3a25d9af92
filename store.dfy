/**
  The attempt store `Database`: a primary-key generator, the value sanitiser
  `ensure_utf8`, and `post`, which inserts one row per attempt into the table
  `solvings` and commits row by row. The database connection is an abstract
  table: the statements committed so far and those of the open transaction;
  whether an insert fails is a parameter.
*/
module Store {
  import opened Wrappers
  import opened Values

  const Table := "solvings"
  const Placeholder := "%s"
  const IdKey := "id"

  /** `INSERT INTO solvings (<columns>) VALUES (<placeholders>)` with its parameters. */
  datatype Statement = Insert(table: string, columns: seq<string>, placeholders: seq<string>, values: seq<Value>)

  /** `post` re-raises what `cursor.execute` raised on the record at this index. */
  datatype StoreError = ExecuteFailed(at: nat)

  /** `ensure_utf8`: a Dafny string holds only Unicode scalar values, so encoding it to
      UTF-8 with `'ignore'` and decoding it again gives it back; bytes go through the
      codec `decode`; every other value is returned as it is. */
  function EnsureUtf8(v: Value, decode: seq<byte> -> string): (r: Value)
    ensures !r.Bytes?
    ensures v.Bytes? ==> r == Str(decode(v.bytes))
    ensures !v.Bytes? ==> r == v
  {
    if v.Str? then Str(v.s)
    else if v.Bytes? then Str(decode(v.bytes))
    else v
  }

  /** Sanitising is idempotent, and text stays text. */
  lemma EnsureUtf8Idempotent(v: Value, decode: seq<byte> -> string)
    ensures EnsureUtf8(EnsureUtf8(v, decode), decode) == EnsureUtf8(v, decode)
    ensures v.Str? || v.Bytes? <==> EnsureUtf8(v, decode).Str?
  {
  }

  function Sanitized(vs: seq<Value>, decode: seq<byte> -> string): (r: seq<Value>)
    ensures |r| == |vs|
    ensures forall i :: 0 <= i < |vs| ==> r[i] == EnsureUtf8(vs[i], decode)
  {
    seq(|vs|, i requires 0 <= i < |vs| => EnsureUtf8(vs[i], decode))
  }

  /** The statement `post` executes for one record. */
  function InsertFor(a: Attempt, decode: seq<byte> -> string): Statement {
    Insert(Table, FieldKeys(a), seq(|FieldKeys(a)|, _ => Placeholder), Sanitized(FieldValues(a), decode))
  }

  /** Each row names every column once, with one placeholder and one sanitised value per
      column, in the record's key order. */
  lemma InsertShape(a: Attempt, decode: seq<byte> -> string)
    ensures var st := InsertFor(a, decode);
      && st.table == Table && st.columns == FieldKeys(a)
      && |st.columns| == |st.placeholders| == |st.values| == 7 + |a.extra|
      && (forall i :: 0 <= i < |st.placeholders| ==> st.placeholders[i] == Placeholder)
      && (forall i :: 0 <= i < |st.values| ==> st.values[i] == EnsureUtf8(FieldValues(a)[i], decode))
  {
  }

  /** Line 407: `user['id'] = user.get('id', id)`. */
  function WithId(a: Attempt, id: int): Attempt {
    a.(extra := SetDefault(a.extra, IdKey, id))
  }

  /** Setting the id changes nothing but the id, and keeps an id already present. */
  lemma WithIdGet(a: Attempt, id: int)
    ensures WithId(a, id).(extra := a.extra) == a
    ensures Get(WithId(a, id).extra, IdKey) == (if Get(a.extra, IdKey).Some? then Get(a.extra, IdKey) else Some(id))
  {
    SetDefaultGet(a.extra, IdKey, id);
  }

  /** A record that had no id is inserted with exactly one `id` column, the last one, whose
      value is the key it was given. */
  lemma InsertForNewId(a: Attempt, id: int, decode: seq<byte> -> string)
    requires Get(a.extra, IdKey).None?
    ensures var st := InsertFor(WithId(a, id), decode);
      && |st.columns| == |st.values| == 8 + |a.extra|
      && st.columns[|st.columns| - 1] == IdKey && st.values[|st.values| - 1] == Int(id)
      && forall j :: 0 <= j < |st.columns| - 1 ==> st.columns[j] != IdKey
  {
    var b := WithId(a, id);
    assert b.extra == a.extra + [(IdKey, id)];
    GetNone(a.extra, IdKey);
    FieldsAligned(b);
    var ks := FieldKeys(b);
    forall j | 0 <= j < |ks| - 1 ensures ks[j] != IdKey {
      if j < |CanonicalKeys| {
        assert ks[j] == CanonicalKeys[j];
      } else {
        assert ks[j] == a.extra[j - |CanonicalKeys|].0;
      }
    }
    InsertShape(b, decode);
  }

  /** The rows of `post`: the row committed for record `k`, if that record had no id, has
      the key `first + k` in its only `id` column. */
  lemma RowIds(s: seq<Attempt>, first: int, n: nat, m: nat, decode: seq<byte> -> string)
    requires m <= n <= |s|
    ensures forall k :: 0 <= k < m && Get(s[k].extra, IdKey).None? ==>
      var st := Rows(Posted(s, first, n), m, decode)[k];
      && st.columns[|st.columns| - 1] == IdKey && st.values[|st.values| - 1] == Int(first + k)
      && forall j :: 0 <= j < |st.columns| - 1 ==> st.columns[j] != IdKey
  {
    forall k | 0 <= k < m && Get(s[k].extra, IdKey).None?
      ensures var st := Rows(Posted(s, first, n), m, decode)[k];
        && st.columns[|st.columns| - 1] == IdKey && st.values[|st.values| - 1] == Int(first + k)
        && forall j :: 0 <= j < |st.columns| - 1 ==> st.columns[j] != IdKey
    {
      var p := Posted(s, first, n);
      assert p[k] == WithId(s[k], first + k);
      assert Rows(p, m, decode)[k] == InsertFor(p[k], decode);
      InsertForNewId(s[k], first + k, decode);
    }
  }

  /** The index at which a batch of `n` records stops inserting: the failing one, or `n`. */
  function Stop(n: nat, failAt: Option<nat>): (k: nat)
    ensures k <= n
  {
    if failAt.Some? && failAt.value < n then failAt.value else n
  }

  /** How many records a batch of `n` gets through, the failing one included. */
  function Processed(n: nat, failAt: Option<nat>): (k: nat)
    ensures Stop(n, failAt) <= k <= n
  {
    if Stop(n, failAt) < n then Stop(n, failAt) + 1 else n
  }

  /** The records after `post` has handled the first `n` of them: each of those has its
      `id` set from the keys `first`, `first + 1`, ... by position; the rest are untouched. */
  function Posted(s: seq<Attempt>, first: int, n: nat): (r: seq<Attempt>)
    requires n <= |s|
    ensures |r| == |s|
  {
    seq(|s|, k requires 0 <= k < |s| => if k < n then WithId(s[k], first + k) else s[k])
  }

  /** The rows inserted for the first `n` records, in order. */
  function Rows(s: seq<Attempt>, n: nat, decode: seq<byte> -> string): (r: seq<Statement>)
    requires n <= |s|
    ensures |r| == n
  {
    seq(n, k requires 0 <= k < n => InsertFor(s[k], decode))
  }

  /** Keys pulled in order from `first`, one per record: after `post` has handled `n`
      records, each of those that had no id carries `first + k` at its position `k`, so no
      two of them share an id; one that already had an id keeps it; nothing else in a record
      changes. */
  lemma PostedIds(s: seq<Attempt>, first: int, n: nat)
    requires n <= |s|
    ensures forall k :: 0 <= k < n ==> Posted(s, first, n)[k].(extra := s[k].extra) == s[k]
    ensures forall k :: 0 <= k < n && Get(s[k].extra, IdKey).None? ==>
      Get(Posted(s, first, n)[k].extra, IdKey) == Some(first + k)
    ensures forall k :: 0 <= k < n && Get(s[k].extra, IdKey).Some? ==>
      Get(Posted(s, first, n)[k].extra, IdKey) == Get(s[k].extra, IdKey)
    ensures forall j, k :: 0 <= j < k < n && Get(s[j].extra, IdKey).None? && Get(s[k].extra, IdKey).None? ==>
      Get(Posted(s, first, n)[j].extra, IdKey) != Get(Posted(s, first, n)[k].extra, IdKey)
  {
    forall k | 0 <= k < n
      ensures Posted(s, first, n)[k].(extra := s[k].extra) == s[k]
      ensures Get(Posted(s, first, n)[k].extra, IdKey)
              == (if Get(s[k].extra, IdKey).Some? then Get(s[k].extra, IdKey) else Some(first + k))
    {
      WithIdGet(s[k], first + k);
    }
  }

  /** Handling record `i` extends `Posted` by one. */
  lemma PostedStep(s: seq<Attempt>, first: int, i: nat)
    requires i < |s|
    ensures Posted(s, first, i)[i := WithId(s[i], first + i)] == Posted(s, first, i + 1)
  {
  }

  /** Changing record `i` leaves the rows of the records before it alone, and inserting it
      adds its row. */
  lemma RowsStep(t: seq<Attempt>, i: nat, x: Attempt, decode: seq<byte> -> string)
    requires i < |t|
    ensures Rows(t[i := x], i, decode) == Rows(t, i, decode)
    ensures Rows(t[i := x], i + 1, decode) == Rows(t, i, decode) + [InsertFor(x, decode)]
  {
  }

  /** The connection and the key generator of `Database`. */
  class Database {
    const autocommit: bool
    var primaryKey: int
    var keyGenStarted: bool          // the generator has run to its first `yield`
    var committed: seq<Statement>    // rows made durable by this connection
    var pending: seq<Statement>      // rows of the open transaction

    /** The value the next `next(self._primary_key_gen)` yields. */
    function NextValue(): int
      reads this
    {
      if keyGenStarted then primaryKey + 1 else primaryKey
    }

    /** No transaction is open. */
    predicate Idle()
      reads this
    {
      pending == []
    }

    constructor (autocommit: bool)
      ensures this.autocommit == autocommit
      ensures primaryKey == 0 && !keyGenStarted && NextValue() == 0
      ensures committed == [] && Idle()
    {
      this.autocommit := autocommit;
      primaryKey := 0;
      keyGenStarted := false;
      committed := [];
      pending := [];
    }

    /** `next(self._primary_key_gen)`: the first call yields `primary_key` as it is; each
        later call first runs `self.primary_key += 1`. */
    method NextKey() returns (k: int)
      modifies this
      ensures k == old(NextValue()) && NextValue() == k + 1
      ensures primaryKey == k && keyGenStarted
      ensures committed == old(committed) && pending == old(pending)
    {
      if keyGenStarted {
        primaryKey := primaryKey + 1;
      }
      keyGenStarted := true;
      k := primaryKey;
    }

    /** `cursor.execute(query, values)`; `fails` says whether the database refuses it. */
    method Execute(st: Statement, fails: bool) returns (ok: bool)
      modifies this
      ensures ok == !fails
      ensures primaryKey == old(primaryKey) && keyGenStarted == old(keyGenStarted)
      ensures fails ==> committed == old(committed) && pending == old(pending)
      ensures !fails && autocommit ==> committed == old(committed) + [st] && pending == old(pending)
      ensures !fails && !autocommit ==> committed == old(committed) && pending == old(pending) + [st]
    {
      if fails {
        return false;
      }
      if autocommit {
        committed := committed + [st];
      } else {
        pending := pending + [st];
      }
      return true;
    }

    /** `connection.commit()` */
    method Commit()
      modifies this
      ensures committed == old(committed) + old(pending) && Idle()
      ensures primaryKey == old(primaryKey) && keyGenStarted == old(keyGenStarted)
    {
      committed := committed + pending;
      pending := [];
    }

    /** `connection.rollback()` */
    method Rollback()
      modifies this
      ensures committed == old(committed) && Idle()
      ensures primaryKey == old(primaryKey) && keyGenStarted == old(keyGenStarted)
    {
      pending := [];
    }

    /** What `post` has done after the first `i` records: their ids set, their keys pulled,
        their rows committed on top of `base`. */
    ghost predicate Progress(data: array<Attempt>, original: seq<Attempt>, first: int,
                             base: seq<Statement>, i: nat, decode: seq<byte> -> string)
      reads this, data
    {
      && i <= data.Length == |original|
      && data[..] == Posted(original, first, i)
      && NextValue() == first + i
      && committed == base + Rows(data[..], i, decode)
      && Idle()
    }

    /** The body of the loop in `post` for record i: pull a key, set `id` in place if absent,
        execute the insert and, without autocommit, commit it. */
    method InsertRecord(data: array<Attempt>, i: nat, fails: bool, decode: seq<byte> -> string,
                        ghost original: seq<Attempt>, ghost first: int, ghost base: seq<Statement>)
      returns (ok: bool)
      requires i < data.Length && Progress(data, original, first, base, i, decode)
      modifies this, data
      ensures ok == !fails
      ensures ok ==> Progress(data, original, first, base, i + 1, decode)
      ensures !ok ==> data[..] == Posted(original, first, i + 1) && NextValue() == first + i + 1
      ensures !ok ==> committed == base + Rows(data[..], i, decode) && Idle()
      ensures keyGenStarted && primaryKey + 1 == NextValue()
    {
      ghost var before := data[..];
      var id := NextKey();
      data[i] := WithId(data[i], id);
      var st := InsertFor(data[i], decode);
      ok := Execute(st, fails);
      if ok && !autocommit {
        Commit();
      }
      PostedStep(original, first, i);
      RowsStep(before, i, data[i], decode);
    }

    /** `post(data)`. Record i is processed in order: it pulls a key, gets `id` set if it had
        none (in place), and is inserted and committed. `failAt` is the index, if any, at
        which `execute` raises: from there nothing more is inserted, the open transaction is
        rolled back, and the error is re-raised; the rows before it stay committed. An empty
        batch returns before the generator is touched. */
    method Post(data: array<Attempt>, failAt: Option<nat>, decode: seq<byte> -> string)
      returns (r: Outcome<StoreError>)
      requires Idle()
      modifies this, data
      ensures Idle()
      ensures data[..] == Posted(old(data[..]), old(NextValue()), Processed(data.Length, failAt))
      ensures NextValue() == old(NextValue()) + Processed(data.Length, failAt)
      ensures committed == old(committed) + Rows(data[..], Stop(data.Length, failAt), decode)
      ensures r == (if Stop(data.Length, failAt) < data.Length
                    then Fail(ExecuteFailed(Stop(data.Length, failAt))) else Pass)
      ensures data.Length == 0 ==>
        primaryKey == old(primaryKey) && keyGenStarted == old(keyGenStarted)
      ensures data.Length > 0 ==> keyGenStarted && primaryKey + 1 == NextValue()
    {
      if data.Length == 0 {
        assert data[..] == Posted(data[..], NextValue(), 0);
        return Pass;
      }
      ghost var original := data[..];
      ghost var first := NextValue();
      ghost var base := committed;
      var i := 0;
      var ok := true;
      assert data[..] == Posted(original, first, 0);
      while ok && i < data.Length
        invariant 0 <= i <= data.Length == |original|
        invariant ok ==> Progress(data, original, first, base, i, decode)
        invariant ok ==> failAt.None? || failAt.value >= i
        invariant !ok ==> 0 < i && data[..] == Posted(original, first, i) && NextValue() == first + i
        invariant !ok ==> committed == base + Rows(data[..], i - 1, decode)
        invariant !ok ==> Stop(data.Length, failAt) == i - 1 && Processed(data.Length, failAt) == i
        invariant i > 0 ==> keyGenStarted
      {
        ok := InsertRecord(data, i, failAt.Some? && failAt.value == i, decode, original, first, base);
        i := i + 1;
      }
      if !ok {
        Rollback();
        return Fail(ExecuteFailed(i - 1));
      }
      return Pass;
    }
  }
}
