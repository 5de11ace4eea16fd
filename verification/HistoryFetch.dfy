/**
  Reading a range of the account history page by page.

  The bank is a function: `bank(k)` is what happens at the k-th request, whatever that may be.
 */
module HistoryFetch {
  import opened Prelude

  datatype Transaction = Transaction(number: string, credit: int, debit: int, description: string)

  /** `navigable`: the page says how to ask for the next one. */
  datatype HistoryPage = HistoryPage(transactions: seq<Transaction>, totalRows: int, hasNext: bool, navigable: bool)

  datatype Outcome =
    | Cancelled             // the context ended before the request
    | CallFailed
    | Challenge             // login, one-time password or captcha page
    | Maintenance
    | Unparsable
    | Parsed(page: HistoryPage)

  type Bank = nat -> Outcome

  datatype Failure = NoForm | Stopped(outcome: Outcome)

  datatype FetchResult = FetchResult(
    transactions: seq<Transaction>, pagesFetched: nat, complete: bool, truncated: bool, failure: Option<Failure>)

  const MOST_PAGES := 50

  // ---------- what the pages say ----------

  function PageAt(bank: Bank, k: nat): HistoryPage {
    if bank(k).Parsed? then bank(k).page else HistoryPage([], 0, false, false)
  }

  /** The rows of the first `n` pages, one after the other. */
  function Rows(bank: Bank, n: nat): seq<Transaction> {
    if n == 0 then [] else Rows(bank, n - 1) + PageAt(bank, n - 1).transactions
  }

  /** The largest total any of them states. */
  function LargestTotal(bank: Bank, n: nat): nat {
    if n == 0 then 0
    else
      var before, total := LargestTotal(bank, n - 1), PageAt(bank, n - 1).totalRows;
      if total > before then total else before
  }

  function Needed(total: nat): nat {
    total / 10 + 2
  }

  /** The page budget after `n` pages: a larger total raises it, but never above MOST_PAGES. */
  function Budget(bank: Bank, initial: nat, n: nat): nat {
    if n == 0 then initial
    else
      var before := Budget(bank, initial, n - 1);
      var total := LargestTotal(bank, n);
      if total > LargestTotal(bank, n - 1) && before < Needed(total) <= MOST_PAGES then Needed(total) else before
  }

  lemma {:induction false} BudgetBounds(bank: Bank, initial: nat, n: nat)
    ensures initial <= Budget(bank, initial, n)
    ensures Budget(bank, initial, n) <= initial || Budget(bank, initial, n) <= MOST_PAGES
  {
    if n == 0 {
    } else {
      BudgetBounds(bank, initial, n - 1);
    }
  }

  /** It is the largest total of the pages, or 0. */
  lemma {:induction false} LargestTotalIs(bank: Bank, n: nat)
    ensures forall k: nat :: k < n ==> PageAt(bank, k).totalRows <= LargestTotal(bank, n)
    ensures LargestTotal(bank, n) == 0 || exists k: nat :: k < n && PageAt(bank, k).totalRows == LargestTotal(bank, n)
  {
    if n == 0 {
    } else {
      LargestTotalIs(bank, n - 1);
    }
  }

  /** The totals the budget goes by: the largest so far, after each of the first `n` pages. */
  predicate Raises(bank: Bank, k: nat) {
    k > 0 && LargestTotal(bank, k) > 0 && LargestTotal(bank, k) / 10 + 2 <= 50
  }

  /** The budget is the initial one or what the largest total that needs no more than fifty pages calls for. */
  lemma {:induction false} BudgetIs(bank: Bank, initial: nat, n: nat)
    ensures forall k: nat :: k <= n && Raises(bank, k) ==> LargestTotal(bank, k) / 10 + 2 <= Budget(bank, initial, n)
    ensures Budget(bank, initial, n) == initial
            || exists k: nat :: k <= n && Raises(bank, k) && LargestTotal(bank, k) / 10 + 2 == Budget(bank, initial, n)
  {
    if n == 0 {
    } else {
      BudgetIs(bank, initial, n - 1);
      var before, after := LargestTotal(bank, n - 1), LargestTotal(bank, n);
      if after == before && Raises(bank, n) {
        assert n > 1 && Raises(bank, n - 1);
      }
      if Budget(bank, initial, n) != Budget(bank, initial, n - 1) {
        assert Raises(bank, n) && after / 10 + 2 == Budget(bank, initial, n);
      } else if Budget(bank, initial, n) != initial {
        var k: nat :| k <= n - 1 && Raises(bank, k) && LargestTotal(bank, k) / 10 + 2 == Budget(bank, initial, n - 1);
        assert k <= n && Raises(bank, k) && LargestTotal(bank, k) / 10 + 2 == Budget(bank, initial, n);
      }
    }
  }

  // ---------- first occurrences ----------

  function Numbers(rows: seq<Transaction>): set<string> {
    set t <- rows :: t.number
  }

  /** The rows whose number has not occurred before them. */
  function FirstOccurrences(rows: seq<Transaction>): seq<Transaction> {
    if rows == [] then []
    else
      var before, last := rows[..|rows| - 1], rows[|rows| - 1];
      FirstOccurrences(before) + if last.number in Numbers(before) then [] else [last]
  }

  lemma FirstOccurrencesSnoc(rows: seq<Transaction>, t: Transaction)
    ensures FirstOccurrences(rows + [t]) ==
            FirstOccurrences(rows) + if t.number in Numbers(rows) then [] else [t]
  {
    assert (rows + [t])[..|rows|] == rows;
  }

  lemma NumbersSnoc(rows: seq<Transaction>, t: Transaction)
    ensures Numbers(rows + [t]) == Numbers(rows) + {t.number}
  {
    assert forall u :: u in rows + [t] <==> u in rows || u == t;
    forall x | x in Numbers(rows) + {t.number} ensures x in Numbers(rows + [t]) {
      if x in Numbers(rows) {
        var u :| u in rows && u.number == x;
        assert u in rows + [t];
      } else {
        assert t in rows + [t];
      }
    }
  }

  ghost predicate Distinct(rows: seq<Transaction>) {
    forall i, j :: 0 <= i < j < |rows| ==> rows[i].number != rows[j].number
  }

  /** Every number is kept, once, with the row that had it first. */
  lemma {:induction false} FirstOccurrencesAreThat(rows: seq<Transaction>)
    ensures Distinct(FirstOccurrences(rows))
    ensures Numbers(FirstOccurrences(rows)) == Numbers(rows)
    decreases |rows|
  {
    hide Numbers;
    if rows == [] {
    } else {
      var before, last := rows[..|rows| - 1], rows[|rows| - 1];
      assert rows == before + [last];
      FirstOccurrencesAreThat(before);
      FirstOccurrencesSnoc(before, last);
      NumbersSnoc(before, last);
      var kept := FirstOccurrences(before);
      NumbersSnoc(kept, last);
      assert kept + [] == kept;
      if last.number !in Numbers(before) {
        forall i | 0 <= i < |kept| ensures kept[i].number != last.number {
          NumberOf(kept, i);
        }
      }
    }
  }

  lemma NumberOf(rows: seq<Transaction>, i: nat)
    requires i < |rows|
    ensures rows[i].number in Numbers(rows)
  {
    assert rows[i] in rows;
  }

  lemma {:induction false} FirstIsKept(rows: seq<Transaction>, i: nat)
    requires i < |rows| && rows[i].number !in Numbers(rows[..i])
    ensures rows[i] in FirstOccurrences(rows)
    decreases |rows|
  {
    hide Numbers;
    var before, last := rows[..|rows| - 1], rows[|rows| - 1];
    assert rows == before + [last];
    FirstOccurrencesSnoc(before, last);
    if i < |before| {
      assert before[..i] == rows[..i] && before[i] == rows[i];
      FirstIsKept(before, i);
    } else {
      assert rows[..i] == before;
    }
  }

  lemma LastIsNew(before: seq<Transaction>, last: Transaction)
    requires Distinct(before + [last])
    ensures last.number !in Numbers(before)
  {
    forall t | t in before ensures t.number != last.number {
      var i :| 0 <= i < |before| && before[i] == t;
      assert (before + [last])[i] == t && (before + [last])[|before|] == last;
    }
  }

  lemma {:induction false} DistinctUnchanged(rows: seq<Transaction>)
    requires Distinct(rows)
    ensures FirstOccurrences(rows) == rows
    decreases |rows|
  {
    if rows == [] {
    } else {
      hide Numbers;
      var before, last := rows[..|rows| - 1], rows[|rows| - 1];
      assert rows == before + [last];
      DistinctUnchanged(before);
      LastIsNew(before, last);
    }
  }

  /** Each kept row stands where its number first occurred, and they stand in that order. */
  lemma {:induction false} KeptInOrder(rows: seq<Transaction>, i: nat, j: nat) returns (p: nat, q: nat)
    requires i < j < |FirstOccurrences(rows)|
    ensures p < q < |rows| && rows[p] == FirstOccurrences(rows)[i] && rows[q] == FirstOccurrences(rows)[j]
    decreases |rows|
  {
    hide Numbers;
    var before, last := rows[..|rows| - 1], rows[|rows| - 1];
    assert rows == before + [last];
    FirstOccurrencesSnoc(before, last);
    if j < |FirstOccurrences(before)| {
      p, q := KeptInOrder(before, i, j);
    } else {
      p := KeptSomewhere(before, i);
      q := |before|;
    }
  }

  lemma {:induction false} KeptSomewhere(rows: seq<Transaction>, i: nat) returns (p: nat)
    requires i < |FirstOccurrences(rows)|
    ensures p < |rows| && rows[p] == FirstOccurrences(rows)[i]
    decreases |rows|
  {
    hide Numbers;
    var before, last := rows[..|rows| - 1], rows[|rows| - 1];
    assert rows == before + [last];
    FirstOccurrencesSnoc(before, last);
    if i < |FirstOccurrences(before)| {
      p := KeptSomewhere(before, i);
    } else {
      p := |before|;
    }
  }

  // ---------- what a fetch returns ----------

  /** Row `t` is on one of the first `n` pages. */
  predicate OnPages(bank: Bank, n: nat, t: Transaction) {
    exists k: nat :: k < n && bank(k).Parsed? && t in bank(k).page.transactions
  }

  /** Every number on the first `n` pages, once, with a row of theirs. */
  ghost predicate Carries(bank: Bank, n: nat, rows: seq<Transaction>) {
    && Distinct(rows)
    && (forall t <- rows :: OnPages(bank, n, t))
    && (forall t: Transaction :: OnPages(bank, n, t) ==> exists u <- rows :: u.number == t.number)
  }

  /** The pages up to request `n` were readable and each of them led on to the next request. */
  ghost predicate LedTo(bank: Bank, n: nat) {
    forall k: nat :: k < n ==> bank(k).Parsed? && bank(k).page.hasNext && bank(k).page.navigable
  }

  /**
    What a fetch promises, in the pages themselves. With an error: what the pages before it held. Without:
    it went on until a page led no further or the budget was used up, the pages asked for or, once a page
    states a total, one for each ten rows and two more, if that is not above fifty; it is complete exactly
    when the last page says there is no more and no page promised more rows than came.
   */
  ghost predicate Delivers(bank: Bank, maxPages: int, r: FetchResult) {
    match r.failure
    case None => r.pagesFetched > 0 && DeliversAll(bank, maxPages, r, r.pagesFetched - 1)
    case Some(NoForm) => r.transactions == [] && r.pagesFetched == 0 && !r.complete && !r.truncated
    case Some(Stopped(outcome)) =>
      !r.complete && !r.truncated && exists n: nat :: StopsAt(bank, r, outcome, n)
  }

  ghost predicate StopsAt(bank: Bank, r: FetchResult, outcome: Outcome, n: nat) {
    && LedTo(bank, n) && bank(n) == outcome && !outcome.Parsed? && Carries(bank, n, r.transactions)
    && r.pagesFetched == if outcome.Cancelled? || outcome.CallFailed? then n else n + 1
  }

  ghost predicate DeliversAll(bank: Bank, maxPages: int, r: FetchResult, last: nat) {
    var n := last + 1;
    && LedTo(bank, last) && bank(last).Parsed?
    && Carries(bank, n, r.transactions)
    && (bank(last).page.hasNext && bank(last).page.navigable ==>
          && (if maxPages <= 0 then n >= 10 else n >= maxPages)
          && (forall k: nat :: k <= n && Raises(bank, k) ==> LargestTotal(bank, k) / 10 + 2 <= n))
    && (r.complete <==>
          !bank(last).page.hasNext && forall k: nat :: k < n ==> PageAt(bank, k).totalRows <= |r.transactions|)
    && (r.truncated <==>
          !bank(last).page.hasNext && exists k: nat :: k < n && PageAt(bank, k).totalRows > |r.transactions|)
  }

  lemma {:induction false} RowsAreThePages(bank: Bank, n: nat, t: Transaction)
    requires forall k: nat :: k < n ==> bank(k).Parsed?
    ensures t in Rows(bank, n) <==> OnPages(bank, n, t)
  {
    if n == 0 {
    } else {
      RowsAreThePages(bank, n - 1, t);
      assert OnPages(bank, n, t) <==> OnPages(bank, n - 1, t) || t in bank(n - 1).page.transactions;
    }
  }

  lemma KeptAreThePages(bank: Bank, n: nat)
    requires forall k: nat :: k < n ==> bank(k).Parsed?
    ensures Carries(bank, n, FirstOccurrences(Rows(bank, n)))
  {
    hide Rows, FirstOccurrences, OnPages;
    var rows := Rows(bank, n);
    var kept := FirstOccurrences(rows);
    FirstOccurrencesAreThat(rows);
    forall t: Transaction ensures t in rows <==> OnPages(bank, n, t) {
      RowsAreThePages(bank, n, t);
    }
    forall t <- kept ensures t in rows {
      var i :| 0 <= i < |kept| && kept[i] == t;
      var p := KeptSomewhere(rows, i);
    }
    forall t | t in rows ensures exists u <- kept :: u.number == t.number {
      assert t.number in Numbers(rows);
    }
  }

  lemma FinishedDelivers(bank: Bank, maxPages: int, r: FetchResult)
    requires r.failure.None? && Finished(bank, Initial(maxPages), r)
    ensures Delivers(bank, maxPages, r)
  {
    hide Rows, FirstOccurrences, LargestTotal, Budget, Carries;
    var n := r.pagesFetched;
    KeptAreThePages(bank, n);
    LargestTotalIs(bank, n);
    BudgetIs(bank, Initial(maxPages), n);
    BudgetBounds(bank, Initial(maxPages), n);
    hide Raises;
    assert bank(n - 1).page == PageAt(bank, n - 1);
    forall k: nat | k < n - 1 ensures bank(k).Parsed? && bank(k).page.hasNext && bank(k).page.navigable {
      assert PageAt(bank, k) == bank(k).page;
    }
  }

  lemma NoFormDelivers(bank: Bank, maxPages: int, r: FetchResult)
    requires r == FetchResult([], 0, false, false, Some(NoForm))
    ensures Delivers(bank, maxPages, r)
  {
  }

  lemma StoppedDelivers(bank: Bank, maxPages: int, r: FetchResult, outcome: Outcome, n: nat)
    requires r.failure == Some(Stopped(outcome)) && !r.complete && !r.truncated
    requires StoppedAt(bank, Initial(maxPages), r, outcome, n)
    ensures Delivers(bank, maxPages, r)
  {
    hide Rows, FirstOccurrences, Budget, Carries;
    KeptAreThePages(bank, n);
    assert LedTo(bank, n);
    assert StopsAt(bank, r, outcome, n);
  }

  function Initial(maxPages: int): nat {
    if maxPages <= 0 then 10 else maxPages
  }

  /** The page after which there is nothing more to ask for. */
  predicate LastPage(bank: Bank, k: nat) {
    !PageAt(bank, k).hasNext || !PageAt(bank, k).navigable
  }

  /** The first `n` requests gave pages that each led on to the next request. */
  predicate ReadOn(bank: Bank, n: nat) {
    forall k: nat :: k < n ==> bank(k).Parsed? && !LastPage(bank, k)
  }

  predicate Finished(bank: Bank, initial: nat, r: FetchResult) {
    r.pagesFetched > 0 && FinishedAfter(bank, initial, r, r.pagesFetched - 1)
  }

  /** The page of request `last` was the last one asked for. */
  predicate FinishedAfter(bank: Bank, initial: nat, r: FetchResult, last: nat) {
    var n, total := last + 1, LargestTotal(bank, last + 1);
    var atEnd := !PageAt(bank, last).hasNext;
    && r.pagesFetched == n
    && last < Budget(bank, initial, last)
    && ReadOn(bank, last) && bank(last).Parsed?
    && (LastPage(bank, last) || n == Budget(bank, initial, n))
    && r.transactions == FirstOccurrences(Rows(bank, n))
    && (r.complete <==> atEnd && |r.transactions| >= total)
    && (r.truncated <==> atEnd && |r.transactions| < total)
  }

  ghost predicate Failed(bank: Bank, initial: nat, r: FetchResult)
    requires r.failure.Some?
  {
    && !r.complete && !r.truncated
    && match r.failure.value
       case NoForm => r.transactions == [] && r.pagesFetched == 0
       case Stopped(outcome) =>
         exists n: nat :: StoppedAt(bank, initial, r, outcome, n)
  }

  /** Request `n` ended the fetch; what the pages before it held is still handed over. */
  predicate StoppedAt(bank: Bank, initial: nat, r: FetchResult, outcome: Outcome, n: nat) {
    && n < Budget(bank, initial, n)
    && ReadOn(bank, n) && bank(n) == outcome && !outcome.Parsed?
    && r.transactions == FirstOccurrences(Rows(bank, n))
    && r.pagesFetched == if outcome.Cancelled? || outcome.CallFailed? then n else n + 1
  }

  method FetchHistoryRange(bank: Bank, formFound: bool, maxPages: int) returns (r: FetchResult)
    ensures if r.failure.None? then Finished(bank, Initial(maxPages), r) else Failed(bank, Initial(maxPages), r)
    ensures r.failure == Some(NoForm) <==> !formFound
    ensures Delivers(bank, maxPages, r)
    ensures r.pagesFetched <= Initial(maxPages) || r.pagesFetched <= MOST_PAGES
  {
    hide Rows, LargestTotal, Budget, FirstOccurrences, Numbers, LastPage, Delivers;
    var pages := Initial(maxPages);
    if !formFound {
      r := FetchResult([], 0, false, false, Some(NoForm));
      NoFormDelivers(bank, maxPages, r);
      return r;
    }
    ghost var initial := pages;
    var items: seq<Transaction> := [];
    var seen: set<string> := {};
    var pagesFetched, maxTotalRowsSeen := 0, 0;
    Nothing(bank, initial);
    while pagesFetched < pages
      invariant ReadOn(bank, pagesFetched)
      invariant items == FirstOccurrences(Rows(bank, pagesFetched)) && seen == Numbers(Rows(bank, pagesFetched))
      invariant maxTotalRowsSeen == LargestTotal(bank, pagesFetched)
      invariant pages == Budget(bank, initial, pagesFetched) && pagesFetched <= pages
      invariant pagesFetched > 0 ==> pagesFetched - 1 < Budget(bank, initial, pagesFetched - 1)
      invariant pages <= initial || pages <= MOST_PAGES
      decreases (if initial < MOST_PAGES then MOST_PAGES else initial) - pagesFetched
    {
      var outcome := bank(pagesFetched);
      if !outcome.Parsed? {
        var asked := if outcome.Cancelled? || outcome.CallFailed? then pagesFetched else pagesFetched + 1;
        r := FetchResult(items, asked, false, false, Some(Stopped(outcome)));
        assert StoppedAt(bank, initial, r, outcome, pagesFetched);
        StoppedDelivers(bank, maxPages, r, outcome, pagesFetched);
        return r;
      }
      var page := outcome.page;
      Onwards(bank, initial, pagesFetched);
      BudgetBounds(bank, initial, pagesFetched + 1);
      items, seen := KeepNew(items, seen, page.transactions, Rows(bank, pagesFetched));
      pagesFetched := pagesFetched + 1;
      if page.totalRows > maxTotalRowsSeen {
        maxTotalRowsSeen := page.totalRows;
        var neededPages := maxTotalRowsSeen / 10 + 2;
        if neededPages > pages && neededPages <= MOST_PAGES {
          pages := neededPages;
        }
      }
      assert LastPage(bank, pagesFetched - 1) == (!page.hasNext || !page.navigable) by {
        ReadLastPage(bank, pagesFetched - 1);
      }
      if !page.hasNext {
        var short := maxTotalRowsSeen > 0 && |items| < maxTotalRowsSeen;
        r := FetchResult(items, pagesFetched, !short, short, None);
        FinishedDelivers(bank, maxPages, r);
        return r;
      }
      if !page.navigable {
        r := FetchResult(items, pagesFetched, false, false, None);
        FinishedDelivers(bank, maxPages, r);
        return r;
      }
    }
    assert !LastPage(bank, pagesFetched - 1);
    assert PageAt(bank, pagesFetched - 1).hasNext by { ReadLastPage(bank, pagesFetched - 1); }
    r := FetchResult(items, pagesFetched, false, false, None);
    FinishedDelivers(bank, maxPages, r);
  }

  lemma Nothing(bank: Bank, initial: nat)
    ensures Rows(bank, 0) == [] && FirstOccurrences([]) == [] && Numbers([]) == {}
    ensures LargestTotal(bank, 0) == 0 && Budget(bank, initial, 0) == initial
  {
  }

  lemma ReadLastPage(bank: Bank, k: nat)
    ensures LastPage(bank, k) <==> !PageAt(bank, k).hasNext || !PageAt(bank, k).navigable
  {
  }

  lemma Onwards(bank: Bank, initial: nat, n: nat)
    ensures Rows(bank, n + 1) == Rows(bank, n) + PageAt(bank, n).transactions
    ensures var before, total := LargestTotal(bank, n), PageAt(bank, n).totalRows;
            LargestTotal(bank, n + 1) == (if total > before then total else before)
            && Budget(bank, initial, n + 1) ==
               if total > before && Budget(bank, initial, n) < Needed(total) <= MOST_PAGES then Needed(total)
               else Budget(bank, initial, n)
  {
  }

  method KeepNew(items: seq<Transaction>, seen: set<string>, page: seq<Transaction>, ghost rows: seq<Transaction>)
    returns (all: seq<Transaction>, nowSeen: set<string>)
    requires items == FirstOccurrences(rows) && seen == Numbers(rows)
    ensures all == FirstOccurrences(rows + page) && nowSeen == Numbers(rows + page)
  {
    hide FirstOccurrences, Numbers;
    all, nowSeen := items, seen;
    assert rows + page[..0] == rows;
    for i := 0 to |page|
      invariant all == FirstOccurrences(rows + page[..i]) && nowSeen == Numbers(rows + page[..i])
    {
      var t := page[i];
      FirstOccurrencesSnoc(rows + page[..i], t);
      NumbersSnoc(rows + page[..i], t);
      assert rows + page[..i + 1] == rows + page[..i] + [t];
      if t.number !in nowSeen {
        nowSeen := nowSeen + {t.number};
        all := all + [t];
      }
    }
    assert page[..|page|] == page;
  }

  // ---------- a bank that answers honestly ----------

  const PAGE_ROWS := 10

  function PageCount(total: nat): nat {
    if total == 0 then 1 else (total + PAGE_ROWS - 1) / PAGE_ROWS
  }

  function Upto(rows: seq<Transaction>, n: nat): seq<Transaction> {
    if PAGE_ROWS * n <= |rows| then rows[..PAGE_ROWS * n] else rows
  }

  /** Page `k` of `rows`, ten to a page, with the true total and a link to the next page. */
  function PageOf(rows: seq<Transaction>, k: nat): HistoryPage {
    HistoryPage(Upto(rows, k + 1)[|Upto(rows, k)|..], |rows|, k + 1 < PageCount(|rows|), true)
  }

  ghost predicate Honest(bank: Bank, rows: seq<Transaction>) {
    forall k: nat :: k < PageCount(|rows|) ==> bank(k) == Parsed(PageOf(rows, k))
  }

  lemma HonestPage(bank: Bank, rows: seq<Transaction>, k: nat)
    requires Honest(bank, rows) && k < PageCount(|rows|)
    ensures bank(k).Parsed? && PageAt(bank, k) == PageOf(rows, k)
  {
    assert bank(k) == Parsed(PageOf(rows, k));
  }

  lemma {:induction false} HonestRows(bank: Bank, rows: seq<Transaction>, initial: nat, n: nat)
    requires Honest(bank, rows) && n <= PageCount(|rows|)
    ensures Rows(bank, n) == Upto(rows, n)
    ensures LargestTotal(bank, n) == if n == 0 then 0 else |rows|
    ensures Budget(bank, initial, n) ==
            if n > 0 && |rows| > 0 && initial < Needed(|rows|) <= MOST_PAGES then Needed(|rows|) else initial
  {
    hide PageAt, Honest;
    if n > 0 {
      HonestRows(bank, rows, initial, n - 1);
      HonestPage(bank, rows, n - 1);
      var a, b := Upto(rows, n - 1), Upto(rows, n);
      assert b == a + b[|a|..];
    } else {
      assert Upto(rows, 0) == [];
    }
  }

  lemma AllPages(rows: seq<Transaction>)
    ensures Upto(rows, PageCount(|rows|)) == rows
    ensures |rows| > 0 ==> PageCount(|rows|) < Needed(|rows|)
  {
  }

  lemma NotBeyondTheLast(bank: Bank, rows: seq<Transaction>, n: nat)
    requires Honest(bank, rows) && n > 0 && ReadOn(bank, n - 1)
    ensures n <= PageCount(|rows|)
  {
    hide Honest;
    if n > PageCount(|rows|) {
      var k: nat := PageCount(|rows|) - 1;
      HonestPage(bank, rows, k);
    }
  }

  /**
    Against such a bank a fetch is complete exactly when the rows number less than 490 or fit into the
    pages asked for: a larger total would need more than 50 pages, and then the budget is not raised at
    all. A complete fetch returns all the rows.
   */
  lemma HonestFetch(bank: Bank, rows: seq<Transaction>, initial: nat, r: FetchResult)
    requires Honest(bank, rows) && Distinct(rows) && initial > 0
    requires Finished(bank, initial, r)
    ensures r.complete <==> |rows| < 490 || PageCount(|rows|) <= initial
    ensures r.complete ==> r.transactions == rows
    ensures !r.truncated
  {
    hide FirstOccurrences, Rows, Budget, LargestTotal, Upto, PageAt, Honest, ReadOn;
    var n := r.pagesFetched;
    NotBeyondTheLast(bank, rows, n);
    HonestPage(bank, rows, n - 1);
    HonestRows(bank, rows, initial, n);
    HonestRows(bank, rows, initial, n - 1);
    AllPages(rows);
    assert PageAt(bank, n - 1).hasNext <==> n < PageCount(|rows|);
    if n == PageCount(|rows|) {
      DistinctUnchanged(rows);
    }
  }
}
