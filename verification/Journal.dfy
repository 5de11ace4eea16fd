/** The event journal table: appends, ordered bounded reads, retention. */
module Journal {
  /** A journal row of epoch ep1; `number` is its `seq` column, the key. */
  datatype Entry = Entry(number: nat, payload: string, createdAt: int)

  type Rows = map<nat, Entry>

  ghost predicate Keyed(rows: Rows) {
    forall s <- rows :: rows[s].number == s
  }

  function Above(rows: Rows, after: int): set<nat> {
    set s | s in rows && s > after
  }

  ghost predicate IsMin(s: set<nat>, m: nat) {
    m in s && forall k <- s :: m <= k
  }

  lemma {:induction false} MinExists(s: set<nat>)
    requires s != {}
    ensures exists m :: IsMin(s, m)
    decreases |s|
  {
    var x :| x in s;
    if s == {x} {
      assert IsMin(s, x);
    } else {
      MinExists(s - {x});
      var m :| IsMin(s - {x}, m);
      assert forall k <- s :: k == x || k in s - {x};
      assert IsMin(s, if x < m then x else m);
    }
  }

  ghost function Min(s: set<nat>): nat
    requires s != {}
  {
    MinExists(s);
    var m :| IsMin(s, m);
    m
  }

  /** The first `limit` rows above `after`, in rising order. */
  ghost function ReadSpec(rows: Rows, after: int, limit: nat): seq<Entry>
    decreases limit
  {
    if limit == 0 || Above(rows, after) == {} then []
    else
      var m := Min(Above(rows, after));
      [rows[m]] + ReadSpec(rows, m, limit - 1)
  }

  /** A limit that is not positive or above 1000 counts as 100. */
  function Limit(limit: int): (rows: nat)
    ensures 1 <= rows <= 1000
  {
    if limit <= 0 || limit > 1000 then 100 else limit
  }

  ghost predicate Increasing(entries: seq<Entry>) {
    forall i, j :: 0 <= i < j < |entries| ==> entries[i].number < entries[j].number
  }

  ghost predicate Has(entries: seq<Entry>, s: nat) {
    exists e <- entries :: e.number == s
  }

  ghost predicate RowsOf(entries: seq<Entry>, rows: Rows, after: int) {
    forall e <- entries :: e.number in rows && rows[e.number] == e && e.number > after
  }

  lemma {:induction false} ReadIsOrdered(rows: Rows, after: int, limit: nat)
    requires Keyed(rows)
    ensures |ReadSpec(rows, after, limit)| <= limit
    ensures RowsOf(ReadSpec(rows, after, limit), rows, after) && Increasing(ReadSpec(rows, after, limit))
    decreases limit
  {
    if limit == 0 || Above(rows, after) == {} {
    } else {
      var m := Min(Above(rows, after));
      assert m in Above(rows, after);
      ReadIsOrdered(rows, m, limit - 1);
    }
  }

  /** No row is skipped, and a read shorter than its limit reached the end of the table. */
  lemma {:induction false} ReadSkipsNothing(rows: Rows, after: int, limit: nat, s: nat)
    requires Keyed(rows) && s in rows && s > after
    requires var r := ReadSpec(rows, after, limit); |r| < limit || (r != [] && s <= r[|r| - 1].number)
    ensures Has(ReadSpec(rows, after, limit), s)
    decreases limit
  {
    assert s in Above(rows, after);
    var m: nat := Min(Above(rows, after));
    var r := ReadSpec(rows, after, limit);
    assert r[0] == rows[m] && m <= s;
    if s == m {
    } else {
      var rest := ReadSpec(rows, m, limit - 1);
      assert r == [rows[m]] + rest;
      ReadSkipsNothing(rows, m, limit - 1, s);
      var e :| e in rest && e.number == s;
      assert e in r;
    }
  }

  /** The rows above `after` in rising order, none skipped, up to `limit` of them. */
  ghost predicate FirstRows(entries: seq<Entry>, rows: Rows, after: int, limit: nat) {
    && |entries| <= limit && Increasing(entries) && RowsOf(entries, rows, after)
    && (forall s <- rows ::
          s > after && (|entries| < limit || (entries != [] && s <= entries[|entries| - 1].number)) ==> Has(entries, s))
  }

  lemma ReadIsFirstRows(rows: Rows, after: int, limit: nat)
    requires Keyed(rows)
    ensures FirstRows(ReadSpec(rows, after, limit), rows, after, limit)
  {
    hide ReadSpec;
    var entries := ReadSpec(rows, after, limit);
    ReadIsOrdered(rows, after, limit);
    forall s <- rows | s > after && (|entries| < limit || (entries != [] && s <= entries[|entries| - 1].number))
      ensures Has(entries, s)
    {
      ReadSkipsNothing(rows, after, limit, s);
    }
  }

  lemma ReadOneMore(rows: Rows, after: int, limit: nat, m: nat)
    requires limit > 0 && IsMin(Above(rows, after), m)
    ensures ReadSpec(rows, after, limit) == [rows[m]] + ReadSpec(rows, m, limit - 1)
  {
    assert Min(Above(rows, after)) == m;
  }

  lemma ReadEnds(rows: Rows, after: int, limit: nat)
    requires limit == 0 || Above(rows, after) == {}
    ensures ReadSpec(rows, after, limit) == []
  {
  }

  class EventJournal {
    var rows: Rows
    var last: nat // AUTOINCREMENT: never reused

    ghost predicate Valid()
      reads this
    {
      Keyed(rows) && forall s <- rows :: 1 <= s <= last
    }

    constructor ()
      ensures Valid() && rows == map[] && last == 0
    {
      rows, last := map[], 0;
    }

    method Append(payload: string, createdAt: int) returns (entry: Entry)
      requires Valid()
      modifies this
      ensures Valid() && last == old(last) + 1
      ensures entry == Entry(last, payload, createdAt) && rows == old(rows)[last := entry]
    {
      last := last + 1;
      entry := Entry(last, payload, createdAt);
      rows := rows[last := entry];
    }

    /** The smallest key of a non-empty set of keys. */
    static method Smallest(keys: set<nat>) returns (m: nat)
      requires keys != {}
      ensures IsMin(keys, m)
    {
      m :| m in keys;
      var todo := keys - {m};
      ghost var seen := {m};
      while todo != {}
        invariant seen + todo == keys && IsMin(seen, m)
        decreases |todo|
      {
        var k :| k in todo;
        if k < m {
          m := k;
        }
        seen, todo := seen + {k}, todo - {k};
      }
      assert seen == keys;
    }

    method Read(after: int, wanted: int) returns (entries: seq<Entry>)
      requires Valid()
      ensures entries == ReadSpec(rows, after, Limit(wanted))
      ensures FirstRows(entries, rows, after, if wanted <= 0 || wanted > 1000 then 100 else wanted)
    {
      var limit := wanted;
      if wanted <= 0 || wanted > 1000 {
        limit := 100;
      }
      hide ReadSpec, Min, FirstRows;
      entries := [];
      var from := after;
      while |entries| < limit && Above(rows, from) != {}
        invariant |entries| <= limit
        invariant ReadSpec(rows, after, limit) == entries + ReadSpec(rows, from, limit - |entries|)
        decreases limit - |entries|
      {
        var m := Smallest(Above(rows, from));
        ReadOneMore(rows, from, limit - |entries|, m);
        entries := entries + [rows[m]];
        from := m;
      }
      ReadEnds(rows, from, limit - |entries|);
      ReadIsFirstRows(rows, after, limit);
      assert entries + [] == entries;
    }

    method MinSeq() returns (m: nat)
      requires Valid()
      ensures rows == map[] ==> m == 0
      ensures rows != map[] ==> IsMin(rows.Keys, m)
    {
      if rows.Keys == {} {
        return 0;
      }
      m := Smallest(rows.Keys);
    }

    method MaxSeq() returns (m: nat)
      requires Valid()
      ensures rows == map[] ==> m == 0
      ensures rows != map[] ==> m in rows && forall s <- rows :: s <= m
    {
      m := 0;
      var todo := rows.Keys;
      ghost var seen: set<nat> := {};
      while todo != {}
        invariant seen + todo == rows.Keys
        invariant seen == {} ==> m == 0
        invariant seen != {} ==> m in seen
        invariant forall s <- seen :: s <= m
        decreases |todo|
      {
        var s :| s in todo;
        if s > m {
          m := s;
        }
        seen, todo := seen + {s}, todo - {s};
      }
      assert seen == rows.Keys;
    }

    method DeleteBefore(cutoff: int)
      requires Valid()
      modifies this`rows
      ensures Valid() && rows == map s | s in old(rows) && old(rows)[s].createdAt >= cutoff :: old(rows)[s]
    {
      rows := map s | s in rows && rows[s].createdAt >= cutoff :: rows[s];
    }
  }
}
