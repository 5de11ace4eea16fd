/**
  Filling in the canonical day of transactions stored before the column existed.

  Opening the store runs this before anything can be listed, so no listed row lacks a day.
 */
module Backfill {
  import opened Prelude

  const UNKNOWN := "unknown"
  const BATCH := 200

  /** The columns concerned; a day that is NULL is None. */
  datatype Row = Row(raw: string, iso: Option<string>, day: Option<string>, precision: string)

  datatype Canonical = Canonical(iso: string, day: string, precision: string)

  /** How a raw date is normalised; None when it cannot be parsed. */
  type Normalize = string -> Option<Canonical>

  /** A parsed date has a day, and its precision is "date" or "datetime". */
  ghost predicate Proper(normalize: Normalize) {
    forall raw :: normalize(raw).Some? ==> normalize(raw).value.day != "" && normalize(raw).value.precision != UNKNOWN
  }

  /** Rows the backfill has still to look at. */
  predicate Missing(r: Row) {
    (r.day.None? || r.day == Some("")) && r.precision != UNKNOWN
  }

  function MissingIds(rows: map<nat, Row>): set<nat> {
    set id | id in rows && Missing(rows[id])
  }

  function Fill(normalize: Normalize, r: Row): Row {
    match normalize(r.raw)
    case Some(c) => r.(iso := Some(c.iso), day := Some(c.day), precision := c.precision)
    case None => r.(iso := Some(r.raw), day := Some(""), precision := UNKNOWN)
  }

  function FillSome(normalize: Normalize, rows: map<nat, Row>, ids: set<nat>): map<nat, Row> {
    map id | id in rows :: if id in ids then Fill(normalize, rows[id]) else rows[id]
  }

  /** Those of `ids` whose date can be parsed. */
  function Parsing(normalize: Normalize, rows: map<nat, Row>, ids: set<nat>): set<nat> {
    set id | id in ids && id in rows && normalize(rows[id].raw).Some?
  }

  /** The column defaults and both inserts: only a row from before the column can lack a day. */
  ghost predicate Migrated(rows: map<nat, Row>) {
    forall id <- rows :: rows[id].day.None? ==> rows[id].precision != UNKNOWN
  }

  lemma FilledIsNotMissing(normalize: Normalize, r: Row)
    requires Proper(normalize)
    ensures !Missing(Fill(normalize, r)) && Fill(normalize, r).day.Some?
  {
    var c := normalize(r.raw);
    assert c.Some? ==> c.value.day != "" && c.value.precision != UNKNOWN;
  }

  /** After the backfill every row has a day: the parsed one, or the empty text if its date is unknown. */
  lemma EveryRowHasADay(normalize: Normalize, rows: map<nat, Row>, id: nat)
    requires Proper(normalize) && Migrated(rows) && id in rows
    ensures var after := FillSome(normalize, rows, MissingIds(rows));
            id in after && after[id].day.Some?
            && (after[id].day == Some("") ==> after[id].precision == UNKNOWN)
  {
    FilledIsNotMissing(normalize, rows[id]);
  }

  /** A row without a day gets what its raw date parses to, or is marked unknown; any other row stays as it is. */
  ghost predicate FilledFrom(normalize: Normalize, before: Row, after: Row) {
    var c := normalize(before.raw);
    if (before.day == None || before.day == Some("")) && before.precision != "unknown" then
      after == if c.Some? then Row(before.raw, Some(c.value.iso), Some(c.value.day), c.value.precision)
               else Row(before.raw, Some(before.raw), Some(""), "unknown")
    else after == before
  }

  /** Backfilling again finds nothing to do. */
  lemma NothingLeftToFill(normalize: Normalize, rows: map<nat, Row>)
    requires Proper(normalize)
    ensures MissingIds(FillSome(normalize, rows, MissingIds(rows))) == {}
  {
    var after := FillSome(normalize, rows, MissingIds(rows));
    forall id <- after ensures !Missing(after[id]) {
      FilledIsNotMissing(normalize, rows[id]);
    }
  }

  lemma FillMore(normalize: Normalize, rows: map<nat, Row>, done: set<nat>, more: set<nat>)
    requires more !! done
    ensures FillSome(normalize, FillSome(normalize, rows, done), more) == FillSome(normalize, rows, done + more)
  {
    hide Fill;
  }

  lemma CountMore(normalize: Normalize, rows: map<nat, Row>, done: set<nat>, more: set<nat>)
    requires more !! done
    ensures |Parsing(normalize, rows, done)| + |Parsing(normalize, FillSome(normalize, rows, done), more)| ==
            |Parsing(normalize, rows, done + more)|
  {
    hide Fill;
    var a, b := Parsing(normalize, rows, done), Parsing(normalize, rows, more);
    assert Parsing(normalize, FillSome(normalize, rows, done), more) == b;
    assert Parsing(normalize, rows, done + more) == a + b && a !! b;
  }

  lemma StillMissing(normalize: Normalize, rows: map<nat, Row>, done: set<nat>)
    requires Proper(normalize) && done <= MissingIds(rows)
    ensures MissingIds(FillSome(normalize, rows, done)) == MissingIds(rows) - done
    ensures MissingIds(FillSome(normalize, rows, done)) <= FillSome(normalize, rows, done).Keys
  {
    forall id <- done ensures !Missing(FillSome(normalize, rows, done)[id]) {
      FilledIsNotMissing(normalize, rows[id]);
    }
  }

  class Store {
    var rows: map<nat, Row>

    constructor (rows: map<nat, Row>)
      ensures this.rows == rows
    {
      this.rows := rows;
    }

    /** Up to a batch of the rows to fill in, in any order. */
    static method NextBatch(ids: set<nat>) returns (batch: set<nat>)
      ensures batch <= ids && |batch| <= BATCH
      ensures batch == {} <==> ids == {}
    {
      batch := {};
      var rest := ids;
      while rest != {} && |batch| < BATCH
        invariant batch + rest == ids && batch !! rest && |batch| <= BATCH
        invariant ids != {} && rest == {} ==> batch != {}
        decreases |rest|
      {
        var id :| id in rest;
        batch, rest := batch + {id}, rest - {id};
      }
    }

    /** One transaction: the rows of a batch, one update each. Returns how many had a date that parses. */
    method FillBatch(normalize: Normalize, batch: set<nat>) returns (updated: nat)
      requires batch <= rows.Keys
      modifies this
      ensures rows == FillSome(normalize, old(rows), batch)
      ensures updated == |Parsing(normalize, old(rows), batch)|
    {
      hide FillSome, Parsing;
      updated := 0;
      var todo := batch;
      ghost var done: set<nat> := {};
      NothingFilled(normalize, rows);
      while todo != {}
        invariant done + todo == batch && done !! todo
        invariant rows == FillSome(normalize, old(rows), done)
        invariant updated == |Parsing(normalize, old(rows), done)|
        decreases |todo|
      {
        var id :| id in todo;
        FillOneMore(normalize, old(rows), done, id);
        var norm := normalize(rows[id].raw);
        if norm.Some? {
          rows := rows[id := rows[id].(iso := Some(norm.value.iso), day := Some(norm.value.day),
                                       precision := norm.value.precision)];
          updated := updated + 1;
        } else {
          rows := rows[id := rows[id].(iso := Some(rows[id].raw), day := Some(""), precision := UNKNOWN)];
        }
        done, todo := done + {id}, todo - {id};
      }
      assert done == batch;
    }

    /** BackfillCanonicalDates: batch after batch until no row is left to fill in. */
    method BackfillCanonicalDates(normalize: Normalize) returns (totalUpdated: nat)
      requires Proper(normalize)
      modifies this
      ensures rows == FillSome(normalize, old(rows), MissingIds(old(rows)))
      ensures totalUpdated == |Parsing(normalize, old(rows), MissingIds(old(rows)))|
      ensures rows.Keys == old(rows).Keys && forall id <- rows :: FilledFrom(normalize, old(rows)[id], rows[id])
      ensures totalUpdated ==
              |set id | id in old(rows) && (old(rows)[id].day == None || old(rows)[id].day == Some(""))
                        && old(rows)[id].precision != "unknown" && normalize(old(rows)[id].raw).Some?|
    {
      hide FillSome, Parsing, Missing, MissingIds, Proper;
      totalUpdated := 0;
      ghost var all := MissingIds(rows);
      ghost var done: set<nat> := {};
      NothingFilled(normalize, rows);
      while true
        invariant done <= all && rows == FillSome(normalize, old(rows), done)
        invariant totalUpdated == |Parsing(normalize, old(rows), done)|
        decreases |all - done|
      {
        StillMissing(normalize, old(rows), done);
        var batch := NextBatch(MissingIds(rows));
        if batch == {} {
          break;
        }
        FillMore(normalize, old(rows), done, batch);
        CountMore(normalize, old(rows), done, batch);
        var updated := FillBatch(normalize, batch);
        totalUpdated := totalUpdated + updated;
        Shrinks(all, done, batch);
        done := done + batch;
      }
      assert done == all;
      AllFilled(normalize, old(rows));
    }
  }

  lemma AllFilled(normalize: Normalize, rows: map<nat, Row>)
    ensures var after := FillSome(normalize, rows, MissingIds(rows));
            after.Keys == rows.Keys && forall id <- after :: FilledFrom(normalize, rows[id], after[id])
    ensures Parsing(normalize, rows, MissingIds(rows)) ==
            set id | id in rows && (rows[id].day == None || rows[id].day == Some(""))
                     && rows[id].precision != "unknown" && normalize(rows[id].raw).Some?
  {
  }

  lemma NothingFilled(normalize: Normalize, rows: map<nat, Row>)
    ensures FillSome(normalize, rows, {}) == rows && Parsing(normalize, rows, {}) == {}
  {
  }

  lemma FillOneMore(normalize: Normalize, rows: map<nat, Row>, done: set<nat>, id: nat)
    requires id in rows && id !in done
    ensures FillSome(normalize, rows, done + {id}) == FillSome(normalize, rows, done)[id := Fill(normalize, rows[id])]
    ensures id in FillSome(normalize, rows, done) && FillSome(normalize, rows, done)[id] == rows[id]
    ensures |Parsing(normalize, rows, done + {id})| ==
            |Parsing(normalize, rows, done)| + if normalize(rows[id].raw).Some? then 1 else 0
  {
    assert Parsing(normalize, rows, done + {id}) ==
           Parsing(normalize, rows, done) + if normalize(rows[id].raw).Some? then {id} else {};
  }

  lemma Shrinks(all: set<nat>, done: set<nat>, batch: set<nat>)
    requires batch <= all - done && batch != {}
    ensures |all - (done + batch)| < |all - done|
  {
    assert all - done == (all - (done + batch)) + batch;
  }
}
