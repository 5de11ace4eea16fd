/**
  Listing transactions page by page: the filter, the cursor, and why following the cursors lists
  every matching row exactly once.

  Texts compare byte by byte, as SQLite's default collation does. Every row has a day, possibly empty:
  Backfill proves that none is listed before it has.
 */
module Pagination {
  import opened Prelude

  datatype Row = Row(
    id: string, semanticKey: string, day: string, debit: int, credit: int,
    description: Option<string>, firstSeenAt: string)

  datatype Filter = Filter(from: string, to: string, direction: string, query: string)

  datatype Summary = Summary(count: nat, incoming: int, outgoing: int)

  /** A cursor before base64: nothing, some bytes, or a text that is not base64 at all. */
  datatype Cursor = Nothing | Bytes(raw: string) | Malformed

  datatype Page = Page(items: seq<Row>, nextCursor: Cursor, summary: Summary)

  // ---------- text order ----------

  predicate Less(a: string, b: string) {
    b != "" && (a == "" || a[0] < b[0] || (a[0] == b[0] && Less(a[1..], b[1..])))
  }

  lemma {:induction false} LessIsTotal(a: string, b: string)
    ensures Less(a, b) || Less(b, a) || a == b
    ensures !(Less(a, b) && Less(b, a)) && !Less(a, a)
    decreases |a|
  {
    if a == "" {
    } else {
      LessIsTotal(a[1..], a[1..]);
      if b != "" && a[0] == b[0] {
        LessIsTotal(a[1..], b[1..]);
        assert a == [a[0]] + a[1..] && b == [b[0]] + b[1..];
      }
    }
  }

  lemma {:induction false} LessIsTransitive(a: string, b: string, c: string)
    requires Less(a, b) && Less(b, c)
    ensures Less(a, c)
    decreases |a|
  {
    if a != "" && a[0] == b[0] == c[0] {
      LessIsTransitive(a[1..], b[1..], c[1..]);
    }
  }

  /** The order is that of the first character in which two texts differ, a prefix coming first. */
  lemma {:induction false} LessIsLexicographic(a: string, b: string)
    ensures Less(a, b) <==> exists k :: Differ(a, b, k) && (k == |a| || a[k] < b[k])
    decreases |a|
  {
    if a == "" || b == "" || a[0] != b[0] {
      assert b != "" ==> a[..0] == b[..0] && Differ(a, b, 0);
      forall k: int | k > 0 ensures !Differ(a, b, k) {
        DifferLater(a, b, k);
      }
    } else {
      LessIsLexicographic(a[1..], b[1..]);
      forall k: int | k > 0 ensures Differ(a, b, k) <==> Differ(a[1..], b[1..], k - 1) {
        DifferStep(a, b, k);
      }
      if k :| Differ(a[1..], b[1..], k) && (k == |a[1..]| || a[1..][k] < b[1..][k]) {
        assert Differ(a, b, k + 1) && (k + 1 == |a| || a[k + 1] < b[k + 1]);
      }
      if k :| Differ(a, b, k) && (k == |a| || a[k] < b[k]) {
        assert k > 0;
        assert Differ(a[1..], b[1..], k - 1) && (k - 1 == |a[1..]| || a[1..][k - 1] < b[1..][k - 1]);
      }
    }
  }

  /** The texts agree up to position `k`, where `b` goes on and `a` ends or goes on differently. */
  predicate Differ(a: string, b: string, k: int) {
    0 <= k <= |a| && k < |b| && a[..k] == b[..k] && (k == |a| || a[k] != b[k])
  }

  lemma DifferLater(a: string, b: string, k: int)
    requires k > 0
    ensures Differ(a, b, k) ==> a != "" && b != "" && a[0] == b[0]
  {
    if Differ(a, b, k) {
      assert a[..k][0] == a[0] && b[..k][0] == b[0];
    }
  }

  lemma DifferStep(a: string, b: string, k: int)
    requires a != "" && b != "" && a[0] == b[0] && k > 0
    ensures Differ(a, b, k) <==> Differ(a[1..], b[1..], k - 1)
  {
    if k <= |a| && k <= |b| {
      assert a[..k] == [a[0]] + a[1..][..k - 1] && b[..k] == [b[0]] + b[1..][..k - 1];
      assert a[..k][1..] == a[1..][..k - 1] && b[..k][1..] == b[1..][..k - 1];
    }
  }

  /** Whether the position (sortValue, id) comes after row `r` in the listing, newest first. */
  predicate Older(sortValue: string, id: string, r: Row) {
    Less(sortValue, r.firstSeenAt) || (sortValue == r.firstSeenAt && Less(id, r.id))
  }

  predicate Before(a: Row, b: Row) {
    Older(b.firstSeenAt, b.id, a)
  }

  lemma BeforeIsStrictOrder(a: Row, b: Row, c: Row)
    ensures !Before(a, a)
    ensures a.id != b.id ==> Before(a, b) || Before(b, a)
    ensures Before(a, b) && Before(b, c) ==> Before(a, c)
  {
    hide Less;
    LessIsTotal(a.firstSeenAt, a.firstSeenAt);
    LessIsTotal(a.id, a.id);
    LessIsTotal(a.firstSeenAt, b.firstSeenAt);
    LessIsTotal(a.id, b.id);
    if Less(b.firstSeenAt, a.firstSeenAt) && Less(c.firstSeenAt, b.firstSeenAt) {
      LessIsTransitive(c.firstSeenAt, b.firstSeenAt, a.firstSeenAt);
    }
    if Less(b.id, a.id) && Less(c.id, b.id) {
      LessIsTransitive(c.id, b.id, a.id);
    }
  }

  // ---------- cursors ----------

  const NUL: char := '\U{0000}'

  function Split(s: string): (parts: seq<string>)
    ensures parts != []
  {
    if s == "" then [""]
    else
      var rest := Split(s[1..]);
      if s[0] == NUL then [""] + rest else [[s[0]] + rest[0]] + rest[1..]
  }

  function EncodeCursor(sortValue: string, id: string): Cursor {
    if sortValue == "" || id == "" then Nothing else Bytes(sortValue + [NUL] + id)
  }

  /** None is the error "invalid pagination cursor". */
  function DecodeCursor(cursor: Cursor): Option<(string, string)> {
    match cursor
    case Nothing => Some(("", ""))
    case Malformed => None
    case Bytes(raw) =>
      var parts := Split(raw);
      if |parts| != 2 || parts[0] == "" || parts[1] == "" then None else Some((parts[0], parts[1]))
  }

  lemma {:induction false} SplitPlain(s: string)
    ensures NUL !in s ==> Split(s) == [s]
    ensures NUL in s ==> |Split(s)| > 1
    decreases |s|
  {
    if s == "" {
    } else {
      SplitPlain(s[1..]);
      assert s == [s[0]] + s[1..];
    }
  }

  lemma {:induction false} SplitAtNul(a: string, b: string)
    ensures NUL !in a ==> Split(a + [NUL] + b) == [a] + Split(b)
    ensures NUL in a ==> |Split(a + [NUL] + b)| > 2
    decreases |a|
  {
    var s := a + [NUL] + b;
    if a == "" {
      assert s[1..] == b;
    } else {
      assert s[1..] == a[1..] + [NUL] + b;
      SplitAtNul(a[1..], b);
      assert a == [a[0]] + a[1..];
      if a[0] == NUL {
        SplitNeverShort(a[1..] + [NUL] + b);
      }
    }
  }

  lemma SplitNeverShort(s: string)
    requires NUL in s
    ensures |Split(s)| > 1
  {
    SplitPlain(s);
  }

  lemma {:induction false} SplitJoins(s: string)
    requires |Split(s)| == 2
    ensures s == Split(s)[0] + [NUL] + Split(s)[1]
    decreases |s|
  {
    if s[0] == NUL {
      SplitPlain(s[1..]);
      assert s == [s[0]] + s[1..];
    } else {
      SplitJoins(s[1..]);
      assert s == [s[0]] + s[1..];
    }
  }

  /** Decoding inverts encoding exactly for non-empty parts without a NUL (and for the empty cursor). */
  lemma CursorRoundTrip(sortValue: string, id: string)
    ensures DecodeCursor(EncodeCursor(sortValue, id)) == Some((sortValue, id)) <==>
            (sortValue == "" && id == "")
            || (sortValue != "" && id != "" && NUL !in sortValue && NUL !in id)
  {
    if sortValue != "" && id != "" {
      SplitAtNul(sortValue, id);
      SplitPlain(id);
    }
  }

  /** And every cursor that decodes is the encoding of what it decodes to. */
  lemma DecodedCursorEncodes(cursor: Cursor)
    requires DecodeCursor(cursor).Some?
    ensures var parts := DecodeCursor(cursor).value; EncodeCursor(parts.0, parts.1) == cursor
  {
    if cursor.Bytes? {
      SplitJoins(cursor.raw);
    }
  }

  // ---------- the search text ----------

  function EscapeLike(s: string): string {
    if s == "" then ""
    else (if s[0] in ['%', '_', '\\'] then ['\\', s[0]] else [s[0]]) + EscapeLike(s[1..])
  }

  function Lower(c: char): char {
    if 'A' <= c <= 'Z' then ((c as int) + 32) as char else c
  }

  predicate Same(a: char, b: char) {
    Lower(a) == Lower(b)
  }

  /** Letters of the Latin alphabet match in either case, any other character only itself. */
  lemma SameLetter(a: char, b: char)
    ensures Same(a, b) <==>
            a == b
            || ('A' <= a <= 'Z' && b as int == a as int + 32)
            || ('A' <= b <= 'Z' && a as int == b as int + 32)
  {
  }

  /** The text matches the pattern, a backslash making the next character literal. */
  predicate Like(p: string, s: string)
    decreases |p| + |s|
  {
    if p == "" then s == ""
    else if p[0] == '%' then Like(p[1..], s) || (s != "" && Like(p, s[1..]))
    else if p[0] == '\\' then |p| > 1 && s != "" && Same(p[1], s[0]) && Like(p[2..], s[1..])
    else s != "" && (p[0] == '_' || Same(p[0], s[0])) && Like(p[1..], s[1..])
  }

  predicate StartsWith(s: string, q: string) {
    |q| <= |s| && forall j :: 0 <= j < |q| ==> Same(q[j], s[j])
  }

  predicate Contains(s: string, q: string) {
    exists k :: 0 <= k <= |s| && StartsWith(s[k..], q)
  }

  lemma {:induction false} PercentMatchesAll(s: string)
    ensures Like("%", s)
    decreases |s|
  {
    if s == "" {
    } else {
      PercentMatchesAll(s[1..]);
    }
  }

  lemma {:induction false} EscapedIsLiteral(q: string, s: string)
    ensures Like(EscapeLike(q) + "%", s) <==> StartsWith(s, q)
    decreases |q|
  {
    var p := EscapeLike(q) + "%";
    if q == "" {
      assert p == "%";
      PercentMatchesAll(s);
    } else {
      var rest := EscapeLike(q[1..]) + "%";
      if q[0] in ['%', '_', '\\'] {
        assert p[0] == '\\' && p[1] == q[0] && p[2..] == rest;
      } else {
        assert p[0] == q[0] && p[1..] == rest;
      }
      assert Like(p, s) <==> s != "" && Same(q[0], s[0]) && Like(rest, s[1..]);
      if s != "" {
        EscapedIsLiteral(q[1..], s[1..]);
        StartsWithStep(s, q);
      }
    }
  }

  lemma StartsWithStep(s: string, q: string)
    requires s != "" && q != ""
    ensures StartsWith(s, q) <==> Same(q[0], s[0]) && StartsWith(s[1..], q[1..])
  {
    if Same(q[0], s[0]) && StartsWith(s[1..], q[1..]) {
      forall j | 0 <= j < |q| ensures Same(q[j], s[j]) {
        assert j > 0 ==> q[j] == q[1..][j - 1] && s[j] == s[1..][j - 1];
      }
    }
  }

  lemma {:induction false} LeadingPercent(p: string, s: string)
    ensures Like("%" + p, s) <==> exists k :: 0 <= k <= |s| && Like(p, s[k..])
    decreases |s|
  {
    assert ("%" + p)[1..] == p;
    assert s[0..] == s;
    if s == "" {
    } else {
      LeadingPercent(p, s[1..]);
      forall k | 0 < k <= |s| ensures s[1..][k - 1..] == s[k..] {
      }
      if exists k :: 0 <= k <= |s[1..]| && Like(p, s[1..][k..]) {
        var k :| 0 <= k <= |s[1..]| && Like(p, s[1..][k..]);
        assert s[1..][k..] == s[k + 1..];
      }
    }
  }

  /** The wildcards of the query are taken literally: the pattern matches what contains the query. */
  lemma SearchIsContainment(q: string, s: string)
    ensures Like("%" + EscapeLike(q) + "%", s) <==> Contains(s, q)
  {
    hide Like, StartsWith;
    var p := EscapeLike(q) + "%";
    assert "%" + EscapeLike(q) + "%" == "%" + p;
    LeadingPercent(p, s);
    forall k | 0 <= k <= |s| ensures Like(p, s[k..]) <==> StartsWith(s[k..], q) {
      EscapedIsLiteral(q, s[k..]);
    }
  }

  // ---------- the queries ----------

  function DateOf(firstSeenAt: string): string {
    if |firstSeenAt| <= 10 then firstSeenAt else firstSeenAt[..10]
  }

  /** The conditions of the filter, as the code puts them together. */
  predicate Accepts(f: Filter, r: Row) {
    && (f.from != "" ==>
          !Less(r.day, f.from) || (r.day == "" && !Less(DateOf(r.firstSeenAt), f.from)))
    && (f.to != "" ==>
          !Less(f.to, r.day) || (r.day == "" && !Less(f.to, DateOf(r.firstSeenAt))))
    && (f.direction == "credit" ==> r.credit > 0)
    && (f.direction == "debit" ==> r.debit > 0)
    && (f.query != "" ==>
          var pattern := "%" + EscapeLike(f.query) + "%";
          (r.description.Some? && Like(pattern, r.description.value)) || Like(pattern, r.semanticKey))
  }

  /** The day a row is filed under: its own, or the date it was first seen if that is unknown. */
  function FiledUnder(r: Row): string {
    if r.day == "" then DateOf(r.firstSeenAt) else r.day
  }

  /**
    A lower bound compares with the day the row is filed under. An upper bound does so too, except that
    a row whose day is unknown passes every upper bound, because the empty text is below it.
   */
  lemma DateBounds(f: Filter, r: Row)
    requires f.direction !in ["credit", "debit"] && f.query == ""
    ensures Accepts(f, r) <==>
            (f.from == "" || !Less(FiledUnder(r), f.from)) && (f.to == "" || r.day == "" || !Less(f.to, FiledUnder(r)))
  {
    if f.from != "" && r.day == "" {
      assert Less("", f.from);
    }
  }

  /** So a date range means what it says exactly for rows with a known day or first seen by its end. */
  lemma RangeIsExactIff(f: Filter, r: Row)
    requires f.direction !in ["credit", "debit"] && f.query == "" && f.from != "" && f.to != ""
    ensures (Accepts(f, r) <==> !Less(FiledUnder(r), f.from) && !Less(f.to, FiledUnder(r))) <==>
            !(r.day == "" && Less(f.to, DateOf(r.firstSeenAt)) && !Less(DateOf(r.firstSeenAt), f.from))
  {
    DateBounds(f, r);
  }

  lemma SearchFindsText(f: Filter, r: Row)
    requires f.from == "" && f.to == "" && f.direction !in ["credit", "debit"] && f.query != ""
    ensures Accepts(f, r) <==>
            (r.description.Some? && Contains(r.description.value, f.query)) || Contains(r.semanticKey, f.query)
  {
    hide Like, Contains;
    SearchIsContainment(f.query, r.semanticKey);
    if r.description.Some? {
      SearchIsContainment(f.query, r.description.value);
    }
  }

  /** The date of a time stamp is its first ten characters. */
  lemma DateIsTheFirstTen(date: string, time: string)
    requires |date| == 10
    ensures DateOf(date + time) == date
  {
    assert (date + time)[..10] == date;
  }

  /** What a filter means, for rows filed under a known day; of the others it lists more. */
  ghost predicate Listed(f: Filter, r: Row) {
    && (f.from != "" ==> !Less(FiledUnder(r), f.from))
    && (f.to != "" && r.day != "" ==> !Less(f.to, r.day))
    && (f.direction == "credit" ==> r.credit > 0)
    && (f.direction == "debit" ==> r.debit > 0)
    && (f.query != "" ==>
          (r.description.Some? && Contains(r.description.value, f.query)) || Contains(r.semanticKey, f.query))
  }

  lemma AcceptsWhatIsListed(f: Filter, r: Row)
    ensures Accepts(f, r) <==> Listed(f, r)
  {
    hide Like, Contains, EscapeLike;
    DateBounds(f.(direction := "", query := ""), r);
    SearchIsContainment(f.query, r.semanticKey);
    if r.description.Some? {
      SearchIsContainment(f.query, r.description.value);
    }
  }

  function Where(p: Row -> bool, rows: seq<Row>): seq<Row> {
    if rows == [] then []
    else (if p(rows[0]) then [rows[0]] else []) + Where(p, rows[1..])
  }

  function Insert(r: Row, sorted: seq<Row>): (s: seq<Row>)
    ensures multiset(s) == multiset(sorted) + multiset{r}
  {
    if sorted == [] || Before(r, sorted[0]) then [r] + sorted
    else
      assert sorted == [sorted[0]] + sorted[1..];
      [sorted[0]] + Insert(r, sorted[1..])
  }

  /** Newest first, then by falling id. */
  function Sort(rows: seq<Row>): (s: seq<Row>)
    ensures multiset(s) == multiset(rows)
  {
    if rows == [] then []
    else
      assert rows == [rows[0]] + rows[1..];
      Insert(rows[0], Sort(rows[1..]))
  }

  /** All the matching rows, newest first. */
  function Listing(table: seq<Row>, f: Filter): seq<Row> {
    Sort(Where(r => Accepts(f, r), table))
  }

  /** The cursor condition of the page query. */
  predicate Past(position: (string, string), r: Row) {
    position.0 == "" || Before2(r, position)
  }

  /** Row `r` comes after the position. */
  predicate Before2(r: Row, position: (string, string)) {
    Less(r.firstSeenAt, position.0) || (r.firstSeenAt == position.0 && Less(r.id, position.1))
  }

  function Select(table: seq<Row>, f: Filter, position: (string, string), limit: nat): seq<Row> {
    var rows := Sort(Where(r => Accepts(f, r) && Past(position, r), table));
    if |rows| <= limit then rows else rows[..limit]
  }

  function Totals(rows: seq<Row>): Summary {
    if rows == [] then Summary(0, 0, 0)
    else
      var s, r := Totals(rows[1..]), rows[0];
      Summary(s.count + 1,
              s.incoming + (if r.credit > 0 then r.credit else 0),
              s.outgoing + (if r.debit > 0 then r.debit else 0))
  }

  function NormalizePageSize(limit: int): (size: nat)
    ensures 1 <= size <= 100
  {
    if limit <= 0 then 50 else if limit > 100 then 100 else limit
  }

  // ---------- facts about sorting ----------

  ghost predicate Sorted(rows: seq<Row>) {
    forall i, j :: 0 <= i < j < |rows| ==> Before(rows[i], rows[j])
  }

  /** The primary key, and what every stored row has: a time stamp and an id without NUL. */
  ghost predicate Table(rows: seq<Row>) {
    && (forall i, j :: 0 <= i < j < |rows| ==> rows[i].id != rows[j].id)
    && (forall i :: 0 <= i < |rows| ==>
          rows[i].firstSeenAt != "" && rows[i].id != "" && NUL !in rows[i].firstSeenAt && NUL !in rows[i].id)
  }

  lemma WhereCons(p: Row -> bool, r: Row, rows: seq<Row>)
    ensures Where(p, [r] + rows) == (if p(r) then [r] else []) + Where(p, rows)
    ensures Where(p, []) == []
  {
    assert ([r] + rows)[1..] == rows;
  }

  lemma InsertCons(r: Row, x: Row, rows: seq<Row>)
    ensures Insert(r, [x] + rows) == if Before(r, x) then [r] + ([x] + rows) else [x] + Insert(r, rows)
    ensures Insert(r, []) == [r]
  {
    assert ([x] + rows)[1..] == rows;
  }

  lemma SortCons(r: Row, rows: seq<Row>)
    ensures Sort([r] + rows) == Insert(r, Sort(rows))
    ensures Sort([]) == []
  {
    assert ([r] + rows)[1..] == rows;
  }

  lemma {:induction false} WhereMember(p: Row -> bool, rows: seq<Row>, i: nat)
    requires i < |Where(p, rows)|
    ensures Where(p, rows)[i] in rows && p(Where(p, rows)[i])
    decreases |rows|
  {
    if rows == [] {
    } else {
      var rest := Where(p, rows[1..]);
      if p(rows[0]) {
        if i > 0 {
          WhereMember(p, rows[1..], i - 1);
          assert Where(p, rows)[i] == rest[i - 1];
        }
      } else {
        WhereMember(p, rows[1..], i);
        assert Where(p, rows) == rest;
      }
    }
  }

  /** Filtering keeps exactly the rows that satisfy the predicate, as often as they occur. */
  lemma {:induction false} WhereCounts(p: Row -> bool, rows: seq<Row>, r: Row)
    ensures multiset(Where(p, rows))[r] == if p(r) then multiset(rows)[r] else 0
    decreases |rows|
  {
    if rows == [] {
    } else {
      WhereCounts(p, rows[1..], r);
      assert rows == [rows[0]] + rows[1..];
      assert Where(p, rows) == (if p(rows[0]) then [rows[0]] else []) + Where(p, rows[1..]);
    }
  }

  lemma {:induction false} WhereTable(p: Row -> bool, rows: seq<Row>)
    requires Table(rows)
    ensures Table(Where(p, rows))
    decreases |rows|
  {
    if rows == [] {
    } else {
      var rest := Where(p, rows[1..]);
      WhereTable(p, rows[1..]);
      forall i | 0 <= i < |rest| ensures rest[i].id != rows[0].id {
        WhereMember(p, rows[1..], i);
      }
    }
  }

  lemma {:induction false} InsertSorts(r: Row, sorted: seq<Row>)
    requires Sorted(sorted) && forall i :: 0 <= i < |sorted| ==> sorted[i].id != r.id
    ensures Sorted(Insert(r, sorted))
    decreases |sorted|
  {
    hide Before;
    if sorted == [] {
    } else {
      BeforeIsStrictOrder(r, sorted[0], r);
      if Before(r, sorted[0]) {
        forall i | 0 < i < |sorted| ensures Before(r, sorted[i]) {
          BeforeIsStrictOrder(r, sorted[0], sorted[i]);
        }
      } else {
        InsertSorts(r, sorted[1..]);
        InsertKeeps(r, sorted[1..]);
      }
    }
  }

  lemma InsertKeeps(r: Row, sorted: seq<Row>)
    ensures forall i :: 0 <= i < |Insert(r, sorted)| ==>
                          Insert(r, sorted)[i] == r || Insert(r, sorted)[i] in sorted
  {
    var s := Insert(r, sorted);
    forall i | 0 <= i < |s| ensures s[i] == r || s[i] in sorted {
      assert s[i] in multiset(s);
    }
  }

  lemma {:induction false} SortSorts(rows: seq<Row>)
    requires Table(rows)
    ensures Sorted(Sort(rows))
    decreases |rows|
  {
    if rows == [] {
    } else {
      var rest := Sort(rows[1..]);
      SortSorts(rows[1..]);
      forall i | 0 <= i < |rest| ensures rest[i].id != rows[0].id {
        SameRows(rest, rows[1..], i);
      }
      InsertSorts(rows[0], rest);
    }
  }

  lemma SameRows(a: seq<Row>, b: seq<Row>, i: nat)
    requires multiset(a) == multiset(b) && i < |a|
    ensures a[i] in b
  {
    assert a[i] in multiset(a);
  }

  /** Filtering a sorted listing and sorting what the filter keeps are the same. */
  lemma {:induction false} WhereInsert(p: Row -> bool, r: Row, sorted: seq<Row>)
    requires Sorted(sorted)
    ensures Where(p, Insert(r, sorted)) == if p(r) then Insert(r, Where(p, sorted)) else Where(p, sorted)
    decreases |sorted|
  {
    hide Before, Insert, Where;
    if sorted == [] {
      InsertCons(r, r, []);
      WhereCons(p, r, []);
      assert [r] + [] == [r];
    } else {
      var x, t := sorted[0], sorted[1..];
      assert sorted == [x] + t;
      InsertCons(r, x, t);
      if Before(r, x) {
        WhereCons(p, r, sorted);
        InsertBeforeKept(p, r, sorted);
      } else {
        WhereInsert(p, r, t);
        WhereCons(p, x, Insert(r, t));
        WhereCons(p, x, t);
        InsertCons(r, x, Where(p, t));
        assert [] + Where(p, t) == Where(p, t);
      }
    }
  }

  lemma InsertBeforeKept(p: Row -> bool, r: Row, sorted: seq<Row>)
    requires Sorted(sorted) && sorted != [] && Before(r, sorted[0])
    ensures Insert(r, Where(p, sorted)) == [r] + Where(p, sorted)
  {
    hide Before, Where;
    var kept := Where(p, sorted);
    if kept != [] {
      WhereMember(p, sorted, 0);
      var i :| 0 <= i < |sorted| && sorted[i] == kept[0];
      BeforeIsStrictOrder(r, sorted[0], sorted[i]);
    }
  }

  lemma Nothings(p: Row -> bool)
    ensures Where(p, []) == [] && Sort([]) == []
  {
  }

  lemma {:induction false} WhereSort(p: Row -> bool, rows: seq<Row>)
    requires Table(rows)
    ensures Where(p, Sort(rows)) == Sort(Where(p, rows))
    decreases |rows|
  {
    hide Insert, Where, Sort;
    Nothings(p);
    if rows == [] {
    } else {
      var r, t := rows[0], rows[1..];
      assert rows == [r] + t;
      SortSorts(t);
      WhereSort(p, t);
      SortCons(r, t);
      WhereInsert(p, r, Sort(t));
      WhereCons(p, r, t);
      SortCons(r, Where(p, t));
      assert [] + Where(p, t) == Where(p, t);
    }
  }

  lemma {:induction false} WhereTwice(p: Row -> bool, q: Row -> bool, both: Row -> bool, rows: seq<Row>)
    requires forall r :: both(r) <==> p(r) && q(r)
    ensures Where(q, Where(p, rows)) == Where(both, rows)
    decreases |rows|
  {
    if rows == [] {
    } else {
      hide Where;
      var r, t := rows[0], rows[1..];
      assert rows == [r] + t;
      WhereTwice(p, q, both, t);
      WhereCons(p, r, t);
      WhereCons(both, r, t);
      WhereCons(q, r, Where(p, t));
      assert [] + Where(p, t) == Where(p, t) && [] + Where(both, t) == Where(both, t);
      assert [] + Where(q, Where(p, t)) == Where(q, Where(p, t));
    }
  }

  lemma {:induction false} WhereAll(p: Row -> bool, rows: seq<Row>)
    requires forall i :: 0 <= i < |rows| ==> p(rows[i])
    ensures Where(p, rows) == rows
    decreases |rows|
  {
    if rows == [] {
    } else {
      WhereAll(p, rows[1..]);
    }
  }

  lemma {:induction false} WhereSuffix(p: Row -> bool, rows: seq<Row>, n: nat)
    requires n <= |rows|
    requires forall i :: 0 <= i < |rows| ==> (p(rows[i]) <==> i >= n)
    ensures Where(p, rows) == rows[n..]
    decreases |rows|
  {
    if n == 0 {
      WhereAll(p, rows);
    } else {
      WhereSuffix(p, rows[1..], n - 1);
      assert rows[1..][n - 1..] == rows[n..];
    }
  }

  /** The rows past the n-th row of the listing are the rest of the listing. */
  lemma RowsPast(table: seq<Row>, f: Filter, position: (string, string), n: nat)
    requires Table(table)
    requires var all := Listing(table, f);
             n <= |all| && position == if n == 0 then ("", "") else (all[n - 1].firstSeenAt, all[n - 1].id)
    ensures Sort(Where(r => Accepts(f, r) && Past(position, r), table)) == Listing(table, f)[n..]
  {
    hide Accepts, Past, Where, Sort;
    var accepts := r => Accepts(f, r);
    var past := r => Past(position, r);
    var all := Listing(table, f);
    var matching := Where(accepts, table);
    ListingFacts(table, f);
    WhereTable(accepts, table);
    WhereTwice(accepts, past, r => Accepts(f, r) && Past(position, r), table);
    WhereSort(past, matching);
    if n > 0 {
      SameRows(all, matching, n - 1);
    }
    forall i | 0 <= i < |all| ensures past(all[i]) <==> i >= n {
      PastIsSuffix(all, position, n, i);
    }
    WhereSuffix(past, all, n);
  }

  lemma PastIsSuffix(all: seq<Row>, position: (string, string), n: nat, i: nat)
    requires Sorted(all) && n <= |all| && i < |all|
    requires n > 0 ==> position.0 != ""
    requires position == if n == 0 then ("", "") else (all[n - 1].firstSeenAt, all[n - 1].id)
    ensures Past(position, all[i]) <==> i >= n
  {
    if n > 0 {
      assert Past(position, all[i]) <==> Before(all[n - 1], all[i]);
      BeforeIsStrictOrder(all[i], all[n - 1], all[i]);
    }
  }

  // ---------- totals ----------

  lemma {:induction false} TotalsInsert(r: Row, sorted: seq<Row>)
    ensures Totals(Insert(r, sorted)) == Totals([r] + sorted)
    decreases |sorted|
  {
    hide Before;
    assert ([r] + sorted)[1..] == sorted;
    if sorted == [] || Before(r, sorted[0]) {
    } else {
      TotalsInsert(r, sorted[1..]);
      assert ([r] + sorted[1..])[1..] == sorted[1..];
      assert Insert(r, sorted)[1..] == Insert(r, sorted[1..]);
    }
  }

  lemma {:induction false} TotalsSort(rows: seq<Row>)
    ensures Totals(Sort(rows)) == Totals(rows)
    decreases |rows|
  {
    if rows == [] {
    } else {
      TotalsSort(rows[1..]);
      TotalsInsert(rows[0], Sort(rows[1..]));
      assert ([rows[0]] + Sort(rows[1..]))[1..] == Sort(rows[1..]);
    }
  }

  lemma TotalsCons(r: Row, rows: seq<Row>)
    ensures var s := Totals(rows);
            Totals([r] + rows) == Summary(s.count + 1, s.incoming + (if r.credit > 0 then r.credit else 0),
                                          s.outgoing + (if r.debit > 0 then r.debit else 0))
  {
    assert ([r] + rows)[1..] == rows;
  }

  /** The totals of a listing are the sums over its rows, of the amounts above zero. */
  lemma {:induction false} TotalsAdd(a: seq<Row>, b: seq<Row>)
    ensures var s, t := Totals(a), Totals(b);
            Totals(a + b) == Summary(s.count + t.count, s.incoming + t.incoming, s.outgoing + t.outgoing)
    decreases |a|
  {
    if a == [] {
      assert a + b == b;
    } else {
      assert (a + b)[1..] == a[1..] + b;
      TotalsAdd(a[1..], b);
    }
  }

  lemma TotalsOfOne(r: Row)
    ensures Totals([r]) == Summary(1, if r.credit > 0 then r.credit else 0, if r.debit > 0 then r.debit else 0)
    ensures Totals([]) == Summary(0, 0, 0)
  {
    assert [r][1..] == [];
  }

  lemma {:induction false} OnlyCreditsCount(p: Row -> bool, credits: Row -> bool, rows: seq<Row>)
    requires forall r :: credits(r) <==> p(r) && r.credit > 0
    ensures Totals(Where(credits, rows)).incoming == Totals(Where(p, rows)).incoming
    decreases |rows|
  {
    if rows == [] {
    } else {
      hide Where, Totals;
      var r, t := rows[0], rows[1..];
      assert rows == [r] + t;
      OnlyCreditsCount(p, credits, t);
      WhereCons(p, r, t);
      WhereCons(credits, r, t);
      TotalsCons(r, Where(p, t));
      TotalsCons(r, Where(credits, t));
      assert [] + Where(p, t) == Where(p, t) && [] + Where(credits, t) == Where(credits, t);
    }
  }

  lemma {:induction false} OnlyDebitsCount(p: Row -> bool, debits: Row -> bool, rows: seq<Row>)
    requires forall r :: debits(r) <==> p(r) && r.debit > 0
    ensures Totals(Where(debits, rows)).outgoing == Totals(Where(p, rows)).outgoing
    decreases |rows|
  {
    if rows == [] {
    } else {
      hide Where, Totals;
      var r, t := rows[0], rows[1..];
      assert rows == [r] + t;
      OnlyDebitsCount(p, debits, t);
      WhereCons(p, r, t);
      WhereCons(debits, r, t);
      TotalsCons(r, Where(p, t));
      TotalsCons(r, Where(debits, t));
      assert [] + Where(p, t) == Where(p, t) && [] + Where(debits, t) == Where(debits, t);
    }
  }

  /** Narrowing a listing to one direction loses nothing of what came in, or went out. */
  lemma DirectionsLoseNothing(table: seq<Row>, f: Filter)
    requires f.direction == ""
    ensures Totals(Listing(table, f.(direction := "credit"))).incoming == Totals(Listing(table, f)).incoming
    ensures Totals(Listing(table, f.(direction := "debit"))).outgoing == Totals(Listing(table, f)).outgoing
  {
    hide Like, Less, Where, Totals, Sort;
    var credits, debits := f.(direction := "credit"), f.(direction := "debit");
    TotalsSort(Where(r => Accepts(f, r), table));
    TotalsSort(Where(r => Accepts(credits, r), table));
    TotalsSort(Where(r => Accepts(debits, r), table));
    OnlyCreditsCount(r => Accepts(f, r), r => Accepts(credits, r), table);
    OnlyDebitsCount(r => Accepts(f, r), r => Accepts(debits, r), table);
  }

  // ---------- the code ----------

  /** One page; None when the cursor is refused. */
  method ListTransactionsFiltered(table: seq<Row>, f: Filter, pageSize: int, cursor: Cursor)
    returns (page: Option<Page>)
    ensures page.None? <==> DecodeCursor(cursor).None?
    ensures page.Some? ==>
              var limit := NormalizePageSize(pageSize);
              var rows := Select(table, f, DecodeCursor(cursor).value, limit + 1);
              page.value.summary == Totals(Where(r => Accepts(f, r), table))
              && page.value.items == (if |rows| > limit then rows[..limit] else rows)
              && page.value.nextCursor ==
                 if |rows| > limit then EncodeCursor(rows[limit - 1].firstSeenAt, rows[limit - 1].id) else Nothing
    // fifty rows to a page unless the client asks for less or more, never above a hundred
    ensures page.Some? ==>
              var limit: nat := if pageSize <= 0 then 50 else if pageSize > 100 then 100 else pageSize;
              |page.value.items| <= limit && (page.value.nextCursor != Nothing ==> |page.value.items| == limit)
  {
    hide Accepts, Past, Sort, Where;
    var summary := Totals(Where(r => Accepts(f, r), table));
    var limit := NormalizePageSize(pageSize);
    var decoded := DecodeCursor(cursor);
    if decoded.None? {
      return None;
    }
    var rows := Select(table, f, decoded.value, limit + 1);
    var items: seq<Row> := [];
    for i := 0 to |rows|
      invariant items == rows[..i]
    {
      items := items + [rows[i]];
    }
    assert rows[..|rows|] == rows;
    if |items| > limit {
      var last := items[limit - 1];
      page := Some(Page(items[..limit], EncodeCursor(last.firstSeenAt, last.id), summary));
    } else {
      page := Some(Page(items, Nothing, summary));
    }
  }

  /**
    A client that follows the cursors until there is none. It ends, and its pages put together are the
    listing: every matching row exactly once, newest first. The totals of the pages are the summary
    every page carries.
   */
  method FollowCursors(table: seq<Row>, f: Filter, pageSize: int) returns (items: seq<Row>, summary: Summary)
    requires Table(table)
    ensures items == Listing(table, f)
    ensures Sorted(items) && multiset(items) == multiset(Where(r => Accepts(f, r), table))
    ensures summary == Totals(items)
    // what is listed, and in which order
    ensures forall r :: multiset(items)[r] == if Listed(f, r) then multiset(table)[r] else 0
    ensures forall i, j :: 0 <= i < j < |items| ==>
              Less(items[j].firstSeenAt, items[i].firstSeenAt)
              || (items[j].firstSeenAt == items[i].firstSeenAt && Less(items[j].id, items[i].id))
  {
    hide Accepts, Listed, Less, Select, Sort, Sorted, Table, Where, Listing, DecodeCursor, EncodeCursor, Totals;
    hide NormalizePageSize, After;
    ghost var all := Listing(table, f);
    ListingFacts(table, f);
    items := [];
    var cursor := Nothing;
    assert After(all, 0, cursor) by { EmptyCursor(all); }
    while true
      invariant |items| <= |all| && items == all[..|items|]
      invariant After(all, |items|, cursor)
      decreases |all| - |items|
    {
      AfterDecodes(all, |items|, cursor);
      var page := ListTransactionsFiltered(table, f, pageSize, cursor);
      OnePage(table, f, |items|, cursor, NormalizePageSize(pageSize), page.value);
      summary := page.value.summary;
      items := items + page.value.items;
      cursor := page.value.nextCursor;
      if cursor == Nothing {
        break;
      }
    }
    ListedInOrder(table, f);
  }

  /** The cursor stands for the place after the n-th row. */
  ghost predicate After(all: seq<Row>, n: nat, cursor: Cursor)
    requires n <= |all|
  {
    DecodeCursor(cursor) == Some(if n == 0 then ("", "") else (all[n - 1].firstSeenAt, all[n - 1].id))
  }

  lemma EmptyCursor(all: seq<Row>)
    ensures After(all, 0, Nothing)
  {
  }

  lemma AfterDecodes(all: seq<Row>, n: nat, cursor: Cursor)
    requires n <= |all| && After(all, n, cursor)
    ensures DecodeCursor(cursor).Some?
  {
  }

  /** One page continues the listing; its next cursor, if there is one, stands for the place after it. */
  lemma OnePage(table: seq<Row>, f: Filter, n: nat, cursor: Cursor, limit: nat, page: Page)
    requires Table(table) && n <= |Listing(table, f)| && After(Listing(table, f), n, cursor) && limit > 0
    requires var rows := Select(table, f, DecodeCursor(cursor).value, limit + 1);
             && page.items == (if |rows| > limit then rows[..limit] else rows)
             && page.nextCursor ==
                if |rows| > limit then EncodeCursor(rows[limit - 1].firstSeenAt, rows[limit - 1].id) else Nothing
    ensures var all, n' := Listing(table, f), n + |page.items|;
            && n' <= |all| && all[..n] + page.items == all[..n']
            && if page.nextCursor == Nothing then n' == |all| else n < n' && After(all, n', page.nextCursor)
  {
    hide Accepts, Select, Sort, Table, Where, Listing, DecodeCursor, EncodeCursor;
    var all, position := Listing(table, f), DecodeCursor(cursor).value;
    PageOf(table, f, position, n, limit);
    if |all| - n > limit {
      NextCursorWorks(table, f, n + limit - 1);
    }
  }

  lemma ListedInOrder(table: seq<Row>, f: Filter)
    requires Table(table)
    ensures var items := Listing(table, f);
            && (forall r :: multiset(items)[r] == if Listed(f, r) then multiset(table)[r] else 0)
            && (forall i, j :: 0 <= i < j < |items| ==>
                  Less(items[j].firstSeenAt, items[i].firstSeenAt)
                  || (items[j].firstSeenAt == items[i].firstSeenAt && Less(items[j].id, items[i].id)))
  {
    hide Accepts, Listed, Less, Where, Table, Sort;
    ListingFacts(table, f);
    forall r ensures multiset(Listing(table, f))[r] == if Listed(f, r) then multiset(table)[r] else 0 {
      WhereCounts(x => Accepts(f, x), table, r);
      AcceptsWhatIsListed(f, r);
    }
  }

  /** One page of the listing, starting after its n-th row. */
  lemma PageOf(table: seq<Row>, f: Filter, position: (string, string), n: nat, limit: nat)
    requires Table(table) && limit > 0
    requires var all := Listing(table, f);
             n <= |all| && position == if n == 0 then ("", "") else (all[n - 1].firstSeenAt, all[n - 1].id)
    ensures var all, rows := Listing(table, f), Select(table, f, position, limit + 1);
            if |all| - n > limit then
              |rows| > limit && all[..n] + rows[..limit] == all[..n + limit] && rows[limit - 1] == all[n + limit - 1]
            else
              |rows| <= limit && all[..n] + rows == all
  {
    hide Accepts, Past, Sort, Where, Table;
    RowsPast(table, f, position, n);
  }

  lemma ListingFacts(table: seq<Row>, f: Filter)
    requires Table(table)
    ensures Sorted(Listing(table, f))
    ensures multiset(Listing(table, f)) == multiset(Where(r => Accepts(f, r), table))
    ensures Totals(Listing(table, f)) == Totals(Where(r => Accepts(f, r), table))
  {
    hide Accepts;
    var accepts := r => Accepts(f, r);
    WhereTable(accepts, table);
    SortSorts(Where(accepts, table));
    TotalsSort(Where(accepts, table));
  }

  lemma NextCursorWorks(table: seq<Row>, f: Filter, i: nat)
    requires Table(table) && i < |Listing(table, f)|
    ensures var r := Listing(table, f)[i];
            EncodeCursor(r.firstSeenAt, r.id) != Nothing
            && DecodeCursor(EncodeCursor(r.firstSeenAt, r.id)) == Some((r.firstSeenAt, r.id))
  {
    hide Accepts, Sort, DecodeCursor;
    var accepts := r => Accepts(f, r);
    var matching := Where(accepts, table);
    WhereTable(accepts, table);
    SameRows(Listing(table, f), matching, i);
    var r := Listing(table, f)[i];
    CursorRoundTrip(r.firstSeenAt, r.id);
  }
}
