/**
 * What the two statements that change the `countries` table do to it, as
 * functions of the table's contents keyed by country name:
 * `INSERT ... VALUES ? ON DUPLICATE KEY UPDATE ...` and
 * `DELETE FROM countries WHERE LOWER(name) = ?`.
 */
module Store {
  import opened Text
  import opened Country

  /** Every row is stored under its own name. */
  ghost predicate KeyedByName(m: map<string, CountryRow>) {
    forall k :: k in m ==> m[k].data.name == k
  }

  /** No stored row has an estimated GDP without an exchange rate. */
  ghost predicate RowsConsistent(m: map<string, CountryRow>) {
    forall k :: k in m ==> GdpNeedsRate(m[k].data)
  }

  /** The names a batch writes. */
  function Names(batch: seq<CountryData>): (ns: set<string>)
    ensures forall i :: 0 <= i < |batch| ==> batch[i].name in ns
    ensures forall n :: n in ns ==> exists i :: 0 <= i < |batch| && batch[i].name == n
  {
    set i | 0 <= i < |batch| :: batch[i].name
  }

  /**
   * The batch upsert, row by row in batch order: a new name is inserted, an
   * existing one has all its columns overwritten; either way the row's
   * `last_refreshed_at` becomes `now`.
   */
  function UpsertAll(m: map<string, CountryRow>, batch: seq<CountryData>, now: int): (r: map<string, CountryRow>)
    ensures r.Keys == m.Keys + Names(batch)
    decreases |batch|
  {
    if batch == [] then m
    else
      NamesOfTail(batch);
      UpsertAll(m[batch[0].name := Stamp(batch[0], now)], batch[1..], now)
  }

  lemma NamesOfTail(batch: seq<CountryData>)
    requires batch != []
    ensures Names(batch) == {batch[0].name} + Names(batch[1..])
  {
    forall n | n in Names(batch) ensures n in {batch[0].name} + Names(batch[1..]) {
      var i :| 0 <= i < |batch| && batch[i].name == n;
      if i > 0 {
        assert batch[1..][i - 1].name == n;
      }
    }
  }

  /** The table's row count after an upsert is the size of the union of old keys and batch names. */
  lemma UpsertCount(m: map<string, CountryRow>, batch: seq<CountryData>, now: int)
    ensures |UpsertAll(m, batch, now)| == |m.Keys + Names(batch)|
  {
    assert |UpsertAll(m, batch, now)| == |UpsertAll(m, batch, now).Keys|;
  }

  /** A second refresh that writes no new name leaves the row count as the first one left it. */
  lemma RepeatedUpsertKeepsCount(m: map<string, CountryRow>, first: seq<CountryData>, second: seq<CountryData>, t1: int, t2: int)
    requires Names(second) <= Names(first)
    ensures |UpsertAll(UpsertAll(m, first, t1), second, t2)| == |UpsertAll(m, first, t1)|
  {
    assert UpsertAll(UpsertAll(m, first, t1), second, t2).Keys == UpsertAll(m, first, t1).Keys;
  }

  /** A row whose name the batch does not write is kept as it was. */
  lemma {:induction false} UpsertLeavesOthers(m: map<string, CountryRow>, batch: seq<CountryData>, now: int, k: string)
    requires k in m && k !in Names(batch)
    ensures k in UpsertAll(m, batch, now) && UpsertAll(m, batch, now)[k] == m[k]
    decreases |batch|
  {
    if batch != [] {
      NamesOfTail(batch);
      UpsertLeavesOthers(m[batch[0].name := Stamp(batch[0], now)], batch[1..], now, k);
    }
  }

  /** A name the batch writes ends up holding the last batch entry under that name, stamped `now`. */
  lemma {:induction false} UpsertLastWins(m: map<string, CountryRow>, batch: seq<CountryData>, now: int, i: nat)
    requires i < |batch|
    requires forall j :: i < j < |batch| ==> batch[j].name != batch[i].name
    ensures batch[i].name in UpsertAll(m, batch, now)
    ensures UpsertAll(m, batch, now)[batch[i].name] == Stamp(batch[i], now)
    decreases |batch|
  {
    var m' := m[batch[0].name := Stamp(batch[0], now)];
    if i == 0 {
      assert batch[0].name !in Names(batch[1..]);
      UpsertLeavesOthers(m', batch[1..], now, batch[0].name);
    } else {
      UpsertLastWins(m', batch[1..], now, i - 1);
    }
  }

  /** Upserting keeps every row stored under its own name. */
  lemma {:induction false} UpsertKeepsKeyedByName(m: map<string, CountryRow>, batch: seq<CountryData>, now: int)
    requires KeyedByName(m)
    ensures KeyedByName(UpsertAll(m, batch, now))
    decreases |batch|
  {
    if batch != [] {
      UpsertKeepsKeyedByName(m[batch[0].name := Stamp(batch[0], now)], batch[1..], now);
    }
  }

  /** Upserting consistent rows into a consistent table keeps it consistent. */
  lemma {:induction false} UpsertKeepsConsistent(m: map<string, CountryRow>, batch: seq<CountryData>, now: int)
    requires RowsConsistent(m)
    requires forall i :: 0 <= i < |batch| ==> GdpNeedsRate(batch[i])
    ensures RowsConsistent(UpsertAll(m, batch, now))
    decreases |batch|
  {
    if batch != [] {
      UpsertKeepsConsistent(m[batch[0].name := Stamp(batch[0], now)], batch[1..], now);
    }
  }

  /** When the clock has not gone back, no row's `last_refreshed_at` decreases. */
  lemma {:induction false} UpsertTimestampsMonotone(m: map<string, CountryRow>, batch: seq<CountryData>, now: int)
    requires forall k :: k in m ==> m[k].lastRefreshedAt <= now
    ensures forall k :: k in m ==> k in UpsertAll(m, batch, now) && m[k].lastRefreshedAt <= UpsertAll(m, batch, now)[k].lastRefreshedAt
    decreases |batch|
  {
    if batch != [] {
      var m' := m[batch[0].name := Stamp(batch[0], now)];
      UpsertTimestampsMonotone(m', batch[1..], now);
    }
  }

  /** `LOWER(name) = LOWER(param)`, the match used by lookup and delete. */
  predicate NameMatches(k: string, name: string) {
    SameIgnoringCase(k, name)
  }

  /** Some stored name matches `name` up to case. */
  predicate AnyNameMatches(m: map<string, CountryRow>, name: string) {
    exists k :: k in m && NameMatches(k, name)
  }

  /** The table after `DELETE FROM countries WHERE LOWER(name) = ?`. */
  function RemoveMatching(m: map<string, CountryRow>, name: string): (r: map<string, CountryRow>)
    ensures forall k :: k in r <==> k in m && !NameMatches(k, name)
    ensures forall k :: k in r ==> r[k] == m[k]
  {
    map k | k in m && !NameMatches(k, name) :: m[k]
  }

  /** After a delete no stored name matches, so a lookup of the same name finds nothing. */
  lemma DeleteThenNotFound(m: map<string, CountryRow>, name: string)
    ensures !AnyNameMatches(RemoveMatching(m, name), name)
  {
  }

  /** A delete with no match leaves the table as it was. */
  lemma DeleteWithoutMatchIsIdentity(m: map<string, CountryRow>, name: string)
    requires !AnyNameMatches(m, name)
    ensures RemoveMatching(m, name) == m
  {
  }

  /** Lower-casing the parameter first, as the handler does, deletes the same rows. */
  lemma DeleteByLoweredName(m: map<string, CountryRow>, name: string)
    ensures RemoveMatching(m, Lower(name)) == RemoveMatching(m, name)
  {
    LowerIdempotent(name);
  }

  /** Deleting keeps every remaining row under its own name, and consistent. */
  lemma DeleteKeepsInvariants(m: map<string, CountryRow>, name: string)
    requires KeyedByName(m) && RowsConsistent(m)
    ensures KeyedByName(RemoveMatching(m, name)) && RowsConsistent(RemoveMatching(m, name))
  {
  }
}
