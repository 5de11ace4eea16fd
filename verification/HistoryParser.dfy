/**
  Reading the transaction tables of a history page.

  A page is the cells of its tables, row by row, each cell trimmed as the extraction of cells from the
  markup leaves it. How words are normalised and lower-cased is a parameter: nothing proved here
  depends on it, except that normalising removes spaces.
 */
module HistoryParser {
  import opened Prelude

  type Row = seq<string>
  datatype Words = Words(normalize: string -> string, lower: string -> string)

  datatype Columns = Columns(
    number: int, effective: int, transaction: int, debit: int, credit: int, balance: int, description: int)

  datatype Transaction = Transaction(
    number: string, effectiveDate: string, transactionAt: string, debit: int, credit: int,
    balance: Option<int>, description: string)

  datatype Problem = BadRow | NoMarker | NoSchema

  // ---------- amounts ----------

  const INT64_MAX := 0x7FFF_FFFF_FFFF_FFFF
  const DECORATION: string := "., ₫VNDvnd"

  predicate IsDigit(c: char) {
    '0' <= c <= '9'
  }

  function Numeral(c: char): int {
    (c as int) - ('0' as int)
  }

  function Without(s: string, c: char): string {
    if s == "" then "" else (if s[0] == c then "" else [s[0]]) + Without(s[1..], c)
  }

  predicate IsParenthesis(c: char) {
    c == '(' || c == ')'
  }

  function TrimLeft(s: string): (r: string)
    ensures r == "" || !IsParenthesis(r[0])
  {
    if s != "" && IsParenthesis(s[0]) then TrimLeft(s[1..]) else s
  }

  function TrimRight(s: string): (r: string)
    ensures r == "" || !IsParenthesis(r[|r| - 1])
  {
    if s != "" && IsParenthesis(s[|s| - 1]) then TrimRight(s[..|s| - 1]) else s
  }

  /** The digits of an amount; None for any other character that is not decoration. */
  function Digits(s: string): (digits: Option<string>)
    ensures digits.Some? ==> forall k :: 0 <= k < |digits.value| ==> IsDigit(digits.value[k])
  {
    if s == "" then Some("")
    else
      var rest := Digits(s[1..]);
      if rest.None? || !(IsDigit(s[0]) || s[0] in DECORATION) then None
      else Some((if IsDigit(s[0]) then [s[0]] else "") + rest.value)
  }

  function Decimal(digits: string): int {
    if digits == "" then 0 else 10 * Decimal(digits[..|digits| - 1]) + Numeral(digits[|digits| - 1])
  }

  /** None: the amount is not understood or does not fit into 64 bits. */
  function ParseMoney(text: string): Option<int> {
    var value := Without(text, ' ');
    if value == "" || value == "-" then Some(0)
    else
      var negative := value[0] == '(' && value[|value| - 1] == ')';
      var digits := Digits(TrimRight(TrimLeft(value)));
      if digits.None? || digits.value == "" || Decimal(digits.value) > INT64_MAX then None
      else Some(if negative then -Decimal(digits.value) else Decimal(digits.value))
  }

  /** The decimal numeral of an amount. */
  function Spell(amount: nat): (s: string)
    ensures s != "" && forall k :: 0 <= k < |s| ==> IsDigit(s[k])
  {
    var last: string := [((amount % 10) + ('0' as int)) as char];
    if amount < 10 then last else Spell(amount / 10) + last
  }

  lemma {:induction false} SpellIsDecimal(amount: nat)
    ensures Decimal(Spell(amount)) == amount
  {
    if amount < 10 {
    } else {
      var s := Spell(amount);
      SpellIsDecimal(amount / 10);
      assert s[..|s| - 1] == Spell(amount / 10);
    }
  }

  lemma {:induction false} DigitsOfMixed(s: string)
    requires forall k :: 0 <= k < |s| ==> IsDigit(s[k]) || s[k] in DECORATION
    ensures Digits(s).Some?
    decreases |s|
  {
    if s == "" {
    } else {
      DigitsOfMixed(s[1..]);
    }
  }

  lemma {:induction false} SpacesDoNotMatter(s: string)
    ensures Digits(Without(s, ' ')) == Digits(s)
    decreases |s|
  {
    if s == "" {
    } else {
      SpacesDoNotMatter(s[1..]);
      var rest := Without(s[1..], ' ');
      if s[0] == ' ' {
        assert Without(s, ' ') == rest;
        assert Digits(s[1..]).Some? ==> "" + Digits(s[1..]).value == Digits(s[1..]).value;
      } else {
        assert Without(s, ' ') == [s[0]] + rest;
        assert Without(s, ' ')[1..] == rest;
      }
    }
  }

  lemma {:induction false} WithoutKeeps(s: string, c: char)
    requires Decorated(s)
    ensures Decorated(Without(s, c))
    decreases |s|
  {
    if s == "" {
    } else {
      WithoutKeeps(s[1..], c);
    }
  }

  lemma WithoutAround(s: string)
    ensures Without("(" + s + ")", ' ') == "(" + Without(s, ' ') + ")"
  {
    assert ("(" + s + ")")[1..] == s + ")";
    WithoutEnd(s);
  }

  lemma {:induction false} WithoutEnd(s: string)
    ensures Without(s + ")", ' ') == Without(s, ' ') + ")"
    decreases |s|
  {
    if s == "" {
      assert s + ")" == ")" && ")"[1..] == "";
    } else {
      assert (s + ")")[1..] == s[1..] + ")";
      WithoutEnd(s[1..]);
    }
  }

  /**
    However an amount is decorated with separators, spaces and currency letters, it is read as that
    amount, and in parentheses as its negative, as long as it fits into 64 bits.
   */
  lemma MoneyRoundTrip(amount: nat, s: string)
    requires Decorated(s)
    requires Digits(s) == Some(Spell(amount))
    ensures ParseMoney(s) == if amount <= INT64_MAX then Some(amount as int) else None
    ensures ParseMoney("(" + s + ")") == if amount <= INT64_MAX then Some(-(amount as int)) else None
  {
    hide Spell, Decimal, Without;
    SpellIsDecimal(amount);
    SpacesDoNotMatter(s);
    var value := Without(s, ' ');
    WithoutKeeps(s, ' ');
    assert Decorated(value) && value != "" && value != "-" by { NotADash(value, amount); }
    Untrimmed(value);
    WithoutAround(s);
    assert ("(" + value + ")")[0] == '(' && ("(" + value + ")")[|value| + 1] == ')';
  }

  ghost predicate Decorated(s: string) {
    forall k :: 0 <= k < |s| ==> IsDigit(s[k]) || s[k] in DECORATION
  }

  lemma NotADash(value: string, amount: nat)
    requires Digits(value) == Some(Spell(amount))
    ensures value != "" && value != "-"
  {
    hide Spell;
    assert Digits("") == Some("");
    assert Digits("-") == None;
  }

  /** Trimming parentheses takes off exactly those put around a decorated amount. */
  lemma Untrimmed(value: string)
    requires Decorated(value)
    ensures TrimRight(TrimLeft(value)) == value
    ensures TrimRight(TrimLeft("(" + value + ")")) == value
  {
    assert forall k :: 0 <= k < |value| ==> !IsParenthesis(value[k]);
    assert ("(" + value + ")")[1..] == value + ")";
    assert TrimLeft(value + ")") == if value == "" then "" else value + ")" by {
      assert value == "" ==> (value + ")")[1..] == "";
    }
    assert (value + ")")[..|value|] == value;
  }

  /** Without the parentheses at both ends. */
  ghost predicate Inside(value: string, core: string) {
    exists left, right ::
      value == left + core + right && (forall c <- left + right :: c in "()")
      && (core == "" || (core[0] !in "()" && core[|core| - 1] !in "()"))
  }

  lemma {:induction false} TrimmedLeft(s: string)
    ensures exists left :: s == left + TrimLeft(s) && forall c <- left :: c in "()"
    decreases |s|
  {
    if s != "" && IsParenthesis(s[0]) {
      TrimmedLeft(s[1..]);
      var left :| s[1..] == left + TrimLeft(s[1..]) && forall c <- left :: c in "()";
      assert s == ([s[0]] + left) + TrimLeft(s);
    } else {
      assert s == "" + TrimLeft(s);
    }
  }

  lemma {:induction false} TrimmedRight(s: string)
    ensures exists right :: s == TrimRight(s) + right && forall c <- right :: c in "()"
    ensures TrimRight(s) <= s
    decreases |s|
  {
    if s != "" && IsParenthesis(s[|s| - 1]) {
      TrimmedRight(s[..|s| - 1]);
      var right :| s[..|s| - 1] == TrimRight(s[..|s| - 1]) + right && forall c <- right :: c in "()";
      assert s == TrimRight(s) + (right + [s[|s| - 1]]);
    } else {
      assert s == TrimRight(s) + "";
    }
  }

  lemma TrimmedIsInside(value: string)
    ensures Inside(value, TrimRight(TrimLeft(value)))
  {
    hide TrimLeft, TrimRight;
    TrimmedLeft(value);
    var inner := TrimLeft(value);
    TrimmedRight(inner);
    var core := TrimRight(inner);
    var left :| value == left + inner && forall c <- left :: c in "()";
    var right :| inner == core + right && forall c <- right :: c in "()";
    assert value == left + core + right;
  }

  ghost function OnlyDigits(s: string): string {
    if s == "" then "" else (if '0' <= s[0] <= '9' then [s[0]] else "") + OnlyDigits(s[1..])
  }

  lemma {:induction false} DigitsAreTheDigits(s: string)
    ensures Digits(s).Some? <==> forall c <- s :: '0' <= c <= '9' || c in ".,₫VNDvnd "
    ensures Digits(s).Some? ==> Digits(s).value == OnlyDigits(s)
    decreases |s|
  {
    if s == "" {
    } else {
      DigitsAreTheDigits(s[1..]);
      FirstOrRest(s);
      assert s[0] in DECORATION <==> s[0] in ".,₫VNDvnd ";
    }
  }

  lemma {:induction false} SomeDigit(s: string)
    ensures OnlyDigits(s) != "" <==> exists c <- s :: '0' <= c <= '9'
    decreases |s|
  {
    if s == "" {
    } else {
      SomeDigit(s[1..]);
      FirstOrRest(s);
      assert '0' <= s[0] <= '9' ==> OnlyDigits(s) == [s[0]] + OnlyDigits(s[1..]);
    }
  }

  lemma FirstOrRest(s: string)
    requires s != ""
    ensures s[0] in s && forall c :: c in s <==> c == s[0] || c in s[1..]
  {
    assert s == [s[0]] + s[1..];
  }

  lemma {:induction false} SpacesOut(s: string)
    ensures ' ' !in Without(s, ' ') && forall c :: c in s && c != ' ' <==> c in Without(s, ' ')
    decreases |s|
  {
    if s == "" {
    } else {
      SpacesOut(s[1..]);
      assert s == [s[0]] + s[1..];
    }
  }

  /**
    Exactly which texts are amounts: spaces aside, nothing, a dash, or digits with separators and
    currency letters, at least one digit and no more than 64 bits. It is negative if and only if the
    text begins with an opening parenthesis and ends with a closing one.
   */
  lemma MoneyIsReadIff(text: string)
    ensures var value := Without(text, ' ');
            value == "" || value == "-" ==> ParseMoney(text) == Some(0)
    ensures var value := Without(text, ' ');
            value != "" && value != "-" ==>
              exists core ::
                && Inside(value, core)
                && (ParseMoney(text).Some? <==>
                    && (forall c <- core :: '0' <= c <= '9' || c in ".,₫VNDvnd")
                    && (exists c <- core :: '0' <= c <= '9')
                    && Decimal(OnlyDigits(core)) <= 9223372036854775807)
                && (ParseMoney(text).Some? ==>
                    ParseMoney(text).value == Decimal(OnlyDigits(core)) *
                                              if value[0] == '(' && value[|value| - 1] == ')' then -1 else 1)
  {
    hide Without, Decimal, Digits, OnlyDigits;
    var value := Without(text, ' ');
    if value != "" && value != "-" {
      TrimmedIsInside(value);
      var core := TrimRight(TrimLeft(value));
      DigitsAreTheDigits(core);
      SomeDigit(core);
      SpacesOut(text);
      NoSpaceInside(value, core);
    }
  }

  lemma NoSpaceInside(value: string, core: string)
    requires ' ' !in value && Inside(value, core)
    ensures ' ' !in core
  {
    var left, right :| value == left + core + right && (forall c <- left + right :: c in "()");
    assert forall c <- core :: c in value;
  }

  // ---------- headers ----------

  const NUMBER_NAMES: seq<string> := ["sogd", "sogiaodich", "sogiao dich", "transactionnumber"]
  const EFFECTIVE_NAMES: seq<string> := ["ngayhieuluc", "effective date"]
  const TRANSACTION_NAMES: seq<string> := ["ngaygiaodich", "transaction date"]
  const DEBIT_NAMES: seq<string> := ["ghino", "debit"]
  const CREDIT_NAMES: seq<string> := ["ghico", "credit"]
  const BALANCE_NAMES: seq<string> := ["sodu", "balance"]
  const DESCRIPTION_NAMES: seq<string> := ["noidunggiaodich", "description", "content"]

  /** The last cell with one of the names, or -1. */
  function LastIndex(w: Words, header: Row, names: seq<string>): (index: int)
    ensures -1 <= index < |header|
    ensures index >= 0 ==> w.normalize(header[index]) in names
    ensures forall k :: index < k < |header| ==> w.normalize(header[k]) !in names
  {
    if header == [] then -1
    else if w.normalize(header[|header| - 1]) in names then |header| - 1
    else LastIndex(w, header[..|header| - 1], names)
  }

  function Indexes(w: Words, header: Row): Columns {
    Columns(
      LastIndex(w, header, NUMBER_NAMES), LastIndex(w, header, EFFECTIVE_NAMES),
      LastIndex(w, header, TRANSACTION_NAMES), LastIndex(w, header, DEBIT_NAMES),
      LastIndex(w, header, CREDIT_NAMES), LastIndex(w, header, BALANCE_NAMES),
      LastIndex(w, header, DESCRIPTION_NAMES))
  }

  predicate ValidColumns(c: Columns) {
    c.number >= 0 && c.transaction >= 0 && c.debit >= 0 && c.credit >= 0
  }

  /** The last cell of the row whose name is one of these, or -1. */
  ghost predicate LastNamed(w: Words, row: Row, names: set<string>, index: int) {
    && -1 <= index < |row|
    && (index >= 0 ==> w.normalize(row[index]) in names)
    && forall k :: index < k < |row| ==> w.normalize(row[k]) !in names
  }

  /** Each column is the last cell with one of its names. */
  ghost predicate ColumnsNamed(w: Words, row: Row, c: Columns) {
    && LastNamed(w, row, {"sogd", "sogiaodich", "sogiao dich", "transactionnumber"}, c.number)
    && LastNamed(w, row, {"ngayhieuluc", "effective date"}, c.effective)
    && LastNamed(w, row, {"ngaygiaodich", "transaction date"}, c.transaction)
    && LastNamed(w, row, {"ghino", "debit"}, c.debit)
    && LastNamed(w, row, {"ghico", "credit"}, c.credit)
    && LastNamed(w, row, {"sodu", "balance"}, c.balance)
    && LastNamed(w, row, {"noidunggiaodich", "description", "content"}, c.description)
  }

  lemma IndexesAreNamed(w: Words, header: Row)
    ensures ColumnsNamed(w, header, Indexes(w, header))
  {
    hide LastIndex, LastNamed;
    LastIndexIs(w, header, NUMBER_NAMES, {"sogd", "sogiaodich", "sogiao dich", "transactionnumber"});
    LastIndexIs(w, header, EFFECTIVE_NAMES, {"ngayhieuluc", "effective date"});
    LastIndexIs(w, header, TRANSACTION_NAMES, {"ngaygiaodich", "transaction date"});
    LastIndexIs(w, header, DEBIT_NAMES, {"ghino", "debit"});
    LastIndexIs(w, header, CREDIT_NAMES, {"ghico", "credit"});
    LastIndexIs(w, header, BALANCE_NAMES, {"sodu", "balance"});
    LastIndexIs(w, header, DESCRIPTION_NAMES, {"noidunggiaodich", "description", "content"});
  }

  lemma LastIndexIs(w: Words, row: Row, names: seq<string>, same: set<string>)
    requires forall name :: name in names <==> name in same
    ensures LastNamed(w, row, same, LastIndex(w, row, names))
  {
    hide LastIndex;
  }

  method ColumnIndexes(w: Words, header: Row) returns (c: Columns)
    ensures c == Indexes(w, header)
    ensures ColumnsNamed(w, header, c)
  {
    hide LastIndex;
    c := Columns(-1, -1, -1, -1, -1, -1, -1);
    NoCells(w);
    assert header[..0] == [];
    for i := 0 to |header|
      invariant c == Indexes(w, header[..i])
    {
      var name := w.normalize(header[i]);
      OneMoreCell(w, header, i);
      if name in NUMBER_NAMES {
        c := c.(number := i);
      } else if name in EFFECTIVE_NAMES {
        c := c.(effective := i);
      } else if name in TRANSACTION_NAMES {
        c := c.(transaction := i);
      } else if name in DEBIT_NAMES {
        c := c.(debit := i);
      } else if name in CREDIT_NAMES {
        c := c.(credit := i);
      } else if name in BALANCE_NAMES {
        c := c.(balance := i);
      } else if name in DESCRIPTION_NAMES {
        c := c.(description := i);
      }
    }
    assert header[..|header|] == header;
    IndexesAreNamed(w, header);
  }

  lemma NoCells(w: Words)
    ensures Indexes(w, []) == Columns(-1, -1, -1, -1, -1, -1, -1)
  {
  }

  lemma OneMoreCell(w: Words, header: Row, i: nat)
    requires i < |header|
    ensures forall names :: LastIndex(w, header[..i + 1], names) ==
                            if w.normalize(header[i]) in names then i else LastIndex(w, header[..i], names)
  {
    assert header[..i + 1][..i] == header[..i];
  }

  lemma FoundIffNamed(w: Words, header: Row, names: seq<string>)
    ensures LastIndex(w, header, names) >= 0 <==> exists k :: 0 <= k < |header| && w.normalize(header[k]) in names
  {
  }

  /**
    Names are compared after spaces are removed, so the English names of the two dates, which have one,
    never match: each date column is found if and only if a cell has its Vietnamese name.
   */
  lemma DateColumnsAreVietnamese(w: Words, header: Row)
    requires forall s :: ' ' !in w.normalize(s)
    ensures Indexes(w, header).transaction >= 0 <==>
            exists k :: 0 <= k < |header| && w.normalize(header[k]) == "ngaygiaodich"
    ensures Indexes(w, header).effective >= 0 <==>
            exists k :: 0 <= k < |header| && w.normalize(header[k]) == "ngayhieuluc"
    ensures ValidColumns(Indexes(w, header)) ==>
            exists k :: 0 <= k < |header| && w.normalize(header[k]) == "ngaygiaodich"
  {
    hide LastIndex;
    FoundIffNamed(w, header, TRANSACTION_NAMES);
    FoundIffNamed(w, header, EFFECTIVE_NAMES);
    assert "transaction date"[11] == ' ' && "effective date"[9] == ' ';
    forall k | 0 <= k < |header|
      ensures w.normalize(header[k]) in TRANSACTION_NAMES <==> w.normalize(header[k]) == "ngaygiaodich"
      ensures w.normalize(header[k]) in EFFECTIVE_NAMES <==> w.normalize(header[k]) == "ngayhieuluc"
    {
      assert ' ' !in w.normalize(header[k]);
    }
  }

  // ---------- rows ----------

  function Cell(row: Row, index: int): string {
    if 0 <= index < |row| then row[index] else ""
  }

  /** None: the row is no transaction. */
  function ParseRow(row: Row, c: Columns): Option<Transaction> {
    var debit, credit := ParseMoney(Cell(row, c.debit)), ParseMoney(Cell(row, c.credit));
    var raw := Cell(row, c.balance);
    var balance := ParseMoney(raw);
    if debit.None? || credit.None? || Cell(row, c.number) == "" || Cell(row, c.transaction) == "" then None
    else if raw != "" && balance.None? then None
    else
      Some(Transaction(
        Cell(row, c.number), Cell(row, c.effective), Cell(row, c.transaction), debit.value, credit.value,
        if raw == "" then None else balance, Cell(row, c.description)))
  }

  /**
    Exactly which rows are transactions, and of what: number and transaction date are there, debit and
    credit are amounts, and so is the balance unless the cell is empty.
   */
  lemma RowIsReadIff(row: Row, c: Columns)
    ensures ParseRow(row, c).Some? <==>
            && Cell(row, c.number) != "" && Cell(row, c.transaction) != ""
            && ParseMoney(Cell(row, c.debit)).Some? && ParseMoney(Cell(row, c.credit)).Some?
            && (Cell(row, c.balance) == "" || ParseMoney(Cell(row, c.balance)).Some?)
    ensures ParseRow(row, c).Some? ==>
              var t := ParseRow(row, c).value;
              && t.number == Cell(row, c.number) && t.transactionAt == Cell(row, c.transaction)
              && t.effectiveDate == Cell(row, c.effective) && t.description == Cell(row, c.description)
              && Some(t.debit) == ParseMoney(Cell(row, c.debit)) && Some(t.credit) == ParseMoney(Cell(row, c.credit))
              && (t.balance.None? <==> Cell(row, c.balance) == "")
              && (t.balance.Some? ==> t.balance == ParseMoney(Cell(row, c.balance)))
  {
    hide ParseMoney;
  }

  /** The row shows the transaction: each of its values in the column of that name, amounts in any decoration. */
  ghost predicate Shows(row: Row, c: Columns, t: Transaction) {
    && t.number != "" && ShowsText(row, c.number, t.number)
    && ShowsText(row, c.effective, t.effectiveDate)
    && t.transactionAt != "" && ShowsText(row, c.transaction, t.transactionAt)
    && 0 <= c.debit < |row| && ShowsAmount(row[c.debit], t.debit)
    && 0 <= c.credit < |row| && ShowsAmount(row[c.credit], t.credit)
    && (if t.balance.None? then ShowsText(row, c.balance, "")
        else 0 <= c.balance < |row| && ShowsAmount(row[c.balance], t.balance.value))
    && ShowsText(row, c.description, t.description)
  }

  /** A column the row does not have shows nothing. */
  ghost predicate ShowsText(row: Row, column: int, text: string) {
    if column < 0 || column >= |row| then text == "" else row[column] == text
  }

  ghost predicate ShowsAmount(cell: string, amount: int) {
    0 <= amount <= INT64_MAX && Decorated(cell) && Digits(cell) == Some(Spell(amount))
  }

  /** Such a row is read back as that transaction. */
  lemma RowRoundTrip(row: Row, c: Columns, t: Transaction)
    requires Shows(row, c, t)
    ensures ParseRow(row, c) == Some(t)
  {
    hide ParseMoney, Decorated, Digits, Spell;
    AmountRoundTrip(Cell(row, c.debit), t.debit);
    AmountRoundTrip(Cell(row, c.credit), t.credit);
    if t.balance.Some? {
      AmountRoundTrip(Cell(row, c.balance), t.balance.value);
    }
  }

  lemma AmountRoundTrip(cell: string, amount: int)
    requires ShowsAmount(cell, amount)
    ensures ParseMoney(cell) == Some(amount) && cell != ""
  {
    hide ParseMoney, Spell;
    MoneyRoundTrip(amount, cell);
    assert Digits("") == Some("");
  }

  predicate Blank(row: Row) {
    forall k :: 0 <= k < |row| ==> row[k] == ""
  }

  function NonBlank(row: Row): (cells: Row)
    ensures (cells == [] <==> Blank(row)) && !("" in cells)
  {
    if row == [] then []
    else
      var cells := NonBlank(row[1..]);
      if row[0] == "" then (assert Blank(row) <==> Blank(row[1..]) by { BlankCons(row); } cells) else [row[0]] + cells
  }

  lemma BlankCons(row: Row)
    requires row != []
    ensures Blank(row) <==> row[0] == "" && Blank(row[1..])
  {
    if row[0] == "" && Blank(row[1..]) {
      forall k | 0 <= k < |row| ensures row[k] == "" {
        assert k > 0 ==> row[1..][k - 1] == row[k];
      }
    }
  }

  function Join(cells: seq<string>): (s: string)
    ensures cells != [] && cells[0] != "" ==> s != ""
  {
    if cells == [] then "" else if |cells| == 1 then cells[0] else cells[0] + " " + Join(cells[1..])
  }

  /** The text a row contributes as a description. */
  function RowText(row: Row): (s: string)
    ensures !Blank(row) ==> s != ""
  {
    var cells := NonBlank(row);
    assert cells != [] ==> cells[0] in cells;
    Join(cells)
  }

  lemma {:induction false} JoinAppend(a: seq<string>, b: seq<string>)
    requires a != [] && b != []
    ensures Join(a + b) == Join(a) + " " + Join(b)
    decreases |a|
  {
    assert (a + b)[1..] == a[1..] + b;
    if |a| == 1 {
      assert a[1..] + b == b;
    } else {
      JoinAppend(a[1..], b);
    }
  }

  lemma {:induction false} NonBlankAppend(a: Row, b: Row)
    ensures NonBlank(a + b) == NonBlank(a) + NonBlank(b)
    decreases |a|
  {
    if a == [] {
      assert a + b == b;
    } else {
      assert (a + b)[1..] == a[1..] + b;
      NonBlankAppend(a[1..], b);
    }
  }

  /** The text of a row is that of its cells that are not blank, in order, with one space between two. */
  lemma RowTextJoins(a: Row, b: Row)
    ensures RowText(a + b) == if Blank(a) then RowText(b) else if Blank(b) then RowText(a)
                              else RowText(a) + " " + RowText(b)
    ensures forall cell :: RowText([cell]) == cell
  {
    NonBlankAppend(a, b);
    if Blank(a) {
      assert NonBlank(a) + NonBlank(b) == NonBlank(b);
    } else if Blank(b) {
      assert NonBlank(a) + NonBlank(b) == NonBlank(a);
    } else {
      JoinAppend(NonBlank(a), NonBlank(b));
    }
    forall cell ensures RowText([cell]) == cell {
      assert NonBlank([cell]) == if cell == "" then [] else [cell] by { assert [cell][1..] == []; }
    }
  }

  predicate ContainsText(s: string, part: string) {
    exists k :: 0 <= k <= |s| && part <= s[k..]
  }

  predicate ContainsAny(s: string, parts: seq<string>) {
    exists k :: 0 <= k < |parts| && ContainsText(s, parts[k])
  }

  const MARKERS: seq<string> :=
    ["khong co giao dich", "không có giao dịch", "no transaction", "chua co giao dich", "chưa có giao dịch"]
  const FOOTERS: seq<string> :=
    ["trang truoc", "trang trước", "trang sau", "next", "previous", "xuat excel", "xuất excel"]

  predicate IsMarker(w: Words, row: Row) {
    ContainsAny(w.lower(Join(row)), MARKERS)
  }

  predicate IsFooter(w: Words, row: Row) {
    ContainsAny(w.lower(Join(row)), FOOTERS)
  }

  lemma ContainedIff(s: string, part: string)
    ensures ContainsText(s, part) <==> exists a, b :: s == a + part + b
  {
    if ContainsText(s, part) {
      var k :| 0 <= k <= |s| && part <= s[k..];
      assert s == s[..k] + part + s[k + |part|..];
    }
    if a, b :| s == a + part + b {
      assert s[|a|..] == part + b;
    }
  }

  /** A marker row and a footer row, by what their text contains anywhere. */
  lemma MarkerAndFooterIff(w: Words, row: Row)
    ensures IsMarker(w, row) <==>
            exists a, part, b :: w.lower(Join(row)) == a + part + b &&
              part in ["khong co giao dich", "không có giao dịch", "no transaction", "chua co giao dich",
                       "chưa có giao dịch"]
    ensures IsFooter(w, row) <==>
            exists a, part, b :: w.lower(Join(row)) == a + part + b &&
              part in ["trang truoc", "trang trước", "trang sau", "next", "previous", "xuat excel", "xuất excel"]
  {
    hide Join;
    ContainsAnyIff(w.lower(Join(row)), MARKERS);
    ContainsAnyIff(w.lower(Join(row)), FOOTERS);
  }

  lemma ContainsAnyIff(s: string, parts: seq<string>)
    ensures ContainsAny(s, parts) <==> exists a, part, b :: s == a + part + b && part in parts
  {
    hide ContainsText;
    if ContainsAny(s, parts) {
      var k :| 0 <= k < |parts| && ContainsText(s, parts[k]);
      ContainedIff(s, parts[k]);
      var a, b :| s == a + parts[k] + b;
      assert parts[k] in parts;
    }
    if a, part, b :| s == a + part + b && part in parts {
      ContainedIff(s, part);
      var k :| 0 <= k < |parts| && parts[k] == part;
    }
  }

  // ---------- one table, row by row ----------

  /** What has been read so far. */
  datatype Reading = Reading(transactions: seq<Transaction>, marker: bool)

  /** The last transaction, still without a description. */
  predicate Open(r: Reading) {
    r.transactions != [] && r.transactions[|r.transactions| - 1].description == ""
  }

  function Describe(r: Reading, text: string): Reading
    requires r.transactions != []
  {
    var last := |r.transactions| - 1;
    r.(transactions := r.transactions[last := r.transactions[last].(description := text)])
  }

  /** One row, without looking ahead. */
  function Take(w: Words, c: Columns, r: Reading, row: Row): Option<Reading> {
    var parsed := ParseRow(row, c);
    if Blank(row) then Some(r)
    else if parsed.Some? then Some(r.(transactions := r.transactions + [parsed.value]))
    else if Open(r) then Some(Describe(r, RowText(row)))
    else if IsMarker(w, row) then Some(r.(marker := true))
    else if IsFooter(w, row) then Some(r)
    else None
  }

  function TakeAll(w: Words, c: Columns, r: Reading, rows: seq<Row>): Option<Reading>
    decreases |rows|
  {
    if rows == [] then Some(r)
    else
      var next := Take(w, c, r, rows[0]);
      if next.None? then None else TakeAll(w, c, next.value, rows[1..])
  }

  const START := Reading([], false)

  /**
    The row loop of the code, which looks one row ahead when the table has no description column. The
    look-ahead makes no difference.
   */
  method ParseTable(w: Words, c: Columns, rows: seq<Row>, header: nat) returns (r: Option<Reading>)
    requires header < |rows|
    ensures r == TakeAll(w, c, START, rows[header + 1..])
  {
    hide ParseRow, RowText, IsMarker, IsFooter, TakeAll, Blank;
    var transactions: seq<Transaction> := [];
    var emptyHistory := false;
    var i := header + 1;
    while i < |rows|
      invariant header < i <= |rows|
      invariant TakeAll(w, c, Reading(transactions, emptyHistory), rows[i..])
             == TakeAll(w, c, START, rows[header + 1..])
    {
      var row := rows[i];
      ghost var reading := Reading(transactions, emptyHistory);
      OneRow(w, c, reading, rows, i);
      if !Blank(row) {
        var parsed := ParseRow(row, c);
        if parsed.None? {
          if |transactions| > 0 && transactions[|transactions| - 1].description == "" {
            transactions := Describe(Reading(transactions, emptyHistory), RowText(row)).transactions;
          } else if IsMarker(w, row) {
            emptyHistory := true;
          } else if !IsFooter(w, row) {
            return None;
          }
        } else {
          var transaction := parsed.value;
          if c.description < 0 && i + 1 < |rows| && !Blank(rows[i + 1]) && ParseRow(rows[i + 1], c).None? {
            OneRow(w, c, reading.(transactions := transactions + [transaction]), rows, i + 1);
            LookedAhead(w, c, reading, transaction, row, rows[i + 1]);
            transaction := transaction.(description := RowText(rows[i + 1]));
            i := i + 1;
          }
          transactions := transactions + [transaction];
        }
      }
      i := i + 1;
    }
    OneRow(w, c, Reading(transactions, emptyHistory), rows, i);
    r := Some(Reading(transactions, emptyHistory));
  }

  lemma OneRow(w: Words, c: Columns, r: Reading, rows: seq<Row>, i: nat)
    requires i <= |rows|
    ensures i == |rows| ==> TakeAll(w, c, r, rows[i..]) == Some(r)
    ensures i < |rows| ==>
              var next := Take(w, c, r, rows[i]);
              TakeAll(w, c, r, rows[i..]) == if next.None? then None else TakeAll(w, c, next.value, rows[i + 1..])
  {
    if i < |rows| {
      assert rows[i..][1..] == rows[i + 1..];
    }
  }

  lemma LookedAhead(w: Words, c: Columns, r: Reading, t: Transaction, row: Row, next: Row)
    requires c.description < 0 && ParseRow(row, c) == Some(t) && !Blank(next) && ParseRow(next, c).None?
    ensures Take(w, c, r.(transactions := r.transactions + [t]), next) ==
            Some(r.(transactions := r.transactions + [t.(description := RowText(next))]))
  {
    hide ParseMoney, RowText, Blank;
    assert t.description == "";
    var r1 := r.(transactions := r.transactions + [t]);
    assert Describe(r1, RowText(next)).transactions == r.transactions + [t.(description := RowText(next))];
  }

  // ---------- the same, said of the whole table ----------

  /** Row `k` is a transaction. */
  predicate IsTransaction(c: Columns, rows: seq<Row>, k: int) {
    0 <= k < |rows| && !Blank(rows[k]) && ParseRow(rows[k], c).Some?
  }

  /** The row before `k` that is not blank, or -1. */
  function Previous(rows: seq<Row>, k: nat): (p: int)
    requires k <= |rows|
    ensures -1 <= p < k
  {
    if k == 0 then -1 else if Blank(rows[k - 1]) then Previous(rows, k - 1) else k - 1
  }

  /** Row `k` directly follows, blank rows aside, a transaction that has no description of its own. */
  predicate Describes(c: Columns, rows: seq<Row>, k: nat)
    requires k <= |rows|
  {
    var p := Previous(rows, k);
    IsTransaction(c, rows, p) && ParseRow(rows[p], c).value.description == ""
  }

  /** What an unparsable row may be. */
  predicate Accounted(w: Words, c: Columns, rows: seq<Row>, k: nat)
    requires k < |rows|
  {
    Blank(rows[k]) || IsTransaction(c, rows, k) || Describes(c, rows, k) || IsMarker(w, rows[k]) || IsFooter(w, rows[k])
  }

  /** The rows that count as an empty-history marker: those that are not taken as a description. */
  predicate MarksEmpty(w: Words, c: Columns, rows: seq<Row>, k: nat)
    requires k < |rows|
  {
    !Blank(rows[k]) && !IsTransaction(c, rows, k) && !Describes(c, rows, k) && IsMarker(w, rows[k])
  }

  /** The text of the first row that is not blank, if that row is no transaction. */
  function FirstText(c: Columns, rows: seq<Row>): string {
    if rows == [] then ""
    else if Blank(rows[0]) then FirstText(c, rows[1..])
    else if ParseRow(rows[0], c).Some? then ""
    else RowText(rows[0])
  }

  /**
    The transactions of a table: the rows that are one, in order, each with its own description or else
    the text of the row that follows it.
   */
  function Expected(c: Columns, rows: seq<Row>): seq<Transaction> {
    if rows == [] then []
    else if Blank(rows[0]) || ParseRow(rows[0], c).None? then Expected(c, rows[1..])
    else
      var t := ParseRow(rows[0], c).value;
      [if t.description == "" then t.(description := FirstText(c, rows[1..])) else t] + Expected(c, rows[1..])
  }

  /** The transactions read so far, the last one closed by what the next rows say. */
  function Closed(c: Columns, r: Reading, rows: seq<Row>): seq<Transaction> {
    if Open(r) then Describe(r, FirstText(c, rows)).transactions else r.transactions
  }

  lemma {:induction false} ReadingIsExpectedFrom(w: Words, c: Columns, r: Reading, rows: seq<Row>)
    requires TakeAll(w, c, r, rows).Some?
    ensures TakeAll(w, c, r, rows).value.transactions == Closed(c, r, rows) + Expected(c, rows)
    decreases |rows|
  {
    hide ParseRow, RowText, IsMarker, IsFooter, Blank;
    if rows == [] {
    } else {
      var next := Take(w, c, r, rows[0]).value;
      ReadingIsExpectedFrom(w, c, next, rows[1..]);
      ClosedStep(w, c, r, rows);
    }
  }

  lemma ClosedStep(w: Words, c: Columns, r: Reading, rows: seq<Row>)
    requires rows != [] && Take(w, c, r, rows[0]).Some?
    ensures Closed(c, r, rows) + Expected(c, rows) ==
            Closed(c, Take(w, c, r, rows[0]).value, rows[1..]) + Expected(c, rows[1..])
  {
    hide ParseRow, RowText, IsMarker, IsFooter, Blank, Describe;
    var row, rest := rows[0], rows[1..];
    if !Blank(row) {
      if ParseRow(row, c).Some? {
        ClosedTransaction(c, r, ParseRow(row, c).value, rest);
        UndescribedIsUnchanged(r);
      } else if Open(r) {
        TextOf(row);
        DescribedIsClosed(r, RowText(row));
      }
    }
  }

  lemma UndescribedIsUnchanged(r: Reading)
    ensures Open(r) ==> Describe(r, "").transactions == r.transactions
  {
  }

  lemma DescribedIsClosed(r: Reading, text: string)
    requires r.transactions != [] && text != ""
    ensures !Open(Describe(r, text))
  {
  }

  lemma ClosedTransaction(c: Columns, r: Reading, t: Transaction, rest: seq<Row>)
    ensures Closed(c, r.(transactions := r.transactions + [t]), rest) + Expected(c, rest) ==
            r.transactions +
            ([if t.description == "" then t.(description := FirstText(c, rest)) else t] + Expected(c, rest))
  {
    hide FirstText, Expected;
    var after := r.(transactions := r.transactions + [t]);
    if t.description == "" {
      assert Describe(after, FirstText(c, rest)).transactions
          == r.transactions + [t.(description := FirstText(c, rest))];
    }
  }

  lemma TextOf(row: Row)
    requires !Blank(row)
    ensures RowText(row) != ""
  {
  }

  lemma {:induction false} TakeAllSnoc(w: Words, c: Columns, r: Reading, rows: seq<Row>, row: Row)
    ensures var before := TakeAll(w, c, r, rows);
            TakeAll(w, c, r, rows + [row]) == if before.None? then None else Take(w, c, before.value, row)
    decreases |rows|
  {
    hide Take;
    if rows == [] {
      assert rows + [row] == [row] && [row][1..] == [];
    } else {
      assert (rows + [row])[1..] == rows[1..] + [row];
      var next := Take(w, c, r, rows[0]);
      if next.Some? {
        TakeAllSnoc(w, c, next.value, rows[1..], row);
      }
    }
  }

  lemma {:induction false} RowsAccountedUpto(w: Words, c: Columns, rows: seq<Row>, n: nat)
    requires n <= |rows|
    ensures var r := TakeAll(w, c, START, rows[..n]);
            (r.Some? <==> forall k: nat :: k < n ==> Accounted(w, c, rows, k))
            && (r.Some? ==> (Open(r.value) <==> Describes(c, rows, n))
                            && (r.value.marker <==> exists k: nat :: k < n && MarksEmpty(w, c, rows, k)))
  {
    hide ParseRow, RowText, IsMarker, IsFooter, Blank;
    if n == 0 {
      assert rows[..0] == [];
    } else {
      RowsAccountedUpto(w, c, rows, n - 1);
      assert rows[..n] == rows[..n - 1] + [rows[n - 1]];
      TakeAllSnoc(w, c, START, rows[..n - 1], rows[n - 1]);
      var before := TakeAll(w, c, START, rows[..n - 1]);
      if before.Some? {
        OneRowAccounted(w, c, before.value, rows, n - 1);
      }
    }
  }

  lemma OneRowAccounted(w: Words, c: Columns, r: Reading, rows: seq<Row>, k: nat)
    requires k < |rows| && (Open(r) <==> Describes(c, rows, k))
    ensures var next := Take(w, c, r, rows[k]);
            (next.Some? <==> Accounted(w, c, rows, k))
            && (next.Some? ==> (Open(next.value) <==> Describes(c, rows, k + 1))
                               && (next.value.marker <==> r.marker || MarksEmpty(w, c, rows, k)))
  {
    hide ParseRow, RowText, IsMarker, IsFooter, Blank;
    if !Blank(rows[k]) {
      TextOf(rows[k]);
    }
  }

  /**
    A table is read exactly when each of its rows is blank, a transaction, the description of the
    transaction before it, a marker or a footer; and then the transactions are the expected ones.
   */
  lemma TableIsAccountedFor(w: Words, c: Columns, rows: seq<Row>)
    ensures var r := TakeAll(w, c, START, rows);
            (r.Some? <==> forall k: nat :: k < |rows| ==> Accounted(w, c, rows, k))
            && (r.Some? ==> r.value.transactions == Expected(c, rows)
                            && (r.value.marker <==> exists k: nat :: k < |rows| && MarksEmpty(w, c, rows, k)))
  {
    hide ParseRow, RowText, IsMarker, IsFooter, Blank, Accounted, MarksEmpty;
    RowsAccountedUpto(w, c, rows, |rows|);
    assert rows[..|rows|] == rows;
    if TakeAll(w, c, START, rows).Some? {
      ReadingIsExpectedFrom(w, c, START, rows);
    }
  }

  /** Where the transaction of row `p` is among the expected ones, and how it is described. */
  lemma {:induction false} ExpectedAt(c: Columns, rows: seq<Row>, p: nat)
    requires p < |rows| && IsTransaction(c, rows, p)
    ensures var n, t := |Expected(c, rows[..p])|, ParseRow(rows[p], c).value;
            n < |Expected(c, rows)| &&
            Expected(c, rows)[n] ==
            if t.description == "" then t.(description := FirstText(c, rows[p + 1..])) else t
    decreases p
  {
    hide ParseRow, RowText, Blank;
    if p == 0 {
      assert rows[..p] == [];
    } else {
      assert IsTransaction(c, rows[1..], p - 1);
      ExpectedAt(c, rows[1..], p - 1);
      assert rows[..p][1..] == rows[1..][..p - 1] && rows[1..][p..] == rows[p + 1..];
      assert rows[..p][0] == rows[0];
    }
  }

  /** Blank rows in between do not matter. */
  lemma {:induction false} FirstTextAfterBlanks(c: Columns, rows: seq<Row>, from: nat, k: nat)
    requires from <= k < |rows| && !Blank(rows[k]) && ParseRow(rows[k], c).None?
    requires forall j :: from <= j < k ==> Blank(rows[j])
    ensures FirstText(c, rows[from..]) == RowText(rows[k])
    decreases k - from
  {
    hide ParseRow, RowText, Blank;
    assert rows[from..][0] == rows[from] && rows[from..][1..] == rows[from + 1..];
    if from == k {
    } else {
      FirstTextAfterBlanks(c, rows, from + 1, k);
    }
  }

  lemma {:induction false} OnlyBlanksSincePrevious(rows: seq<Row>, k: nat)
    requires k <= |rows|
    ensures forall j :: Previous(rows, k) < j < k ==> Blank(rows[j])
    decreases k
  {
    hide Blank;
    if k > 0 && Blank(rows[k - 1]) {
      OnlyBlanksSincePrevious(rows, k - 1);
    }
  }

  /**
    In any table a footer that directly follows, blank rows aside, a transaction without a description
    is taken for its description.
   */
  lemma FooterBecomesDescription(w: Words, c: Columns, rows: seq<Row>, k: nat)
    requires k < |rows| && !Blank(rows[k]) && ParseRow(rows[k], c).None? && IsFooter(w, rows[k])
    requires Describes(c, rows, k)
    ensures var p: nat := Previous(rows, k);
            var n, t := |Expected(c, rows[..p])|, ParseRow(rows[p], c).value;
            n < |Expected(c, rows)| && Expected(c, rows)[n] == t.(description := RowText(rows[k]))
  {
    hide ParseRow, RowText, Blank, Expected, FirstText;
    var p: nat := Previous(rows, k);
    ExpectedAt(c, rows, p);
    OnlyBlanksSincePrevious(rows, k);
    FirstTextAfterBlanks(c, rows, p + 1, k);
  }

  /** Any other footer leaves no trace: the transactions are those of the table without it. */
  lemma OtherFootersLeaveNoTrace(w: Words, c: Columns, rows: seq<Row>, k: nat)
    requires k < |rows| && !Blank(rows[k]) && ParseRow(rows[k], c).None? && IsFooter(w, rows[k])
    requires !Describes(c, rows, k)
    ensures Expected(c, rows[..k] + rows[k + 1..]) == Expected(c, rows)
  {
    DropUndescribing(c, rows, k, 0);
    assert rows[0..] == rows && rows[0..k] == rows[..k];
  }

  lemma {:induction false} DropUndescribing(c: Columns, rows: seq<Row>, k: nat, from: nat)
    requires from <= k < |rows| && !Blank(rows[k]) && ParseRow(rows[k], c).None? && !Describes(c, rows, k)
    ensures Expected(c, rows[from..k] + rows[k + 1..]) == Expected(c, rows[from..])
    ensures Previous(rows, k) >= from ==> FirstText(c, rows[from..k] + rows[k + 1..]) == FirstText(c, rows[from..])
    decreases k - from
  {
    hide ParseRow, RowText, Blank, IsTransaction;
    var short := rows[from..k] + rows[k + 1..];
    assert rows[from..][0] == rows[from] && rows[from..][1..] == rows[from + 1..];
    if from == k {
      assert short == rows[k + 1..];
    } else {
      assert short[0] == rows[from] && short[1..] == rows[from + 1..k] + rows[k + 1..];
      DropUndescribing(c, rows, k, from + 1);
      PreviousIsNotBlank(rows, k);
      if !Blank(rows[from]) && ParseRow(rows[from], c).Some? && ParseRow(rows[from], c).value.description == "" {
        PreviousAfter(c, rows, k, from);
      }
    }
  }

  /** A transaction with nothing but blank rows up to row `k` is what row `k` would describe. */
  lemma PreviousAfter(c: Columns, rows: seq<Row>, k: nat, from: nat)
    requires from < k < |rows| && !Describes(c, rows, k) && !Blank(rows[from]) && ParseRow(rows[from], c).Some?
    requires ParseRow(rows[from], c).value.description == ""
    ensures Previous(rows, k) >= from + 1
  {
    hide ParseRow, Blank, Previous;
    PreviousNotBefore(rows, k, from);
  }

  lemma {:induction false} PreviousIsNotBlank(rows: seq<Row>, k: nat)
    requires k <= |rows|
    ensures Previous(rows, k) >= 0 ==> !Blank(rows[Previous(rows, k)])
    decreases k
  {
    hide Blank;
    if k > 0 && Blank(rows[k - 1]) {
      PreviousIsNotBlank(rows, k - 1);
    }
  }

  lemma {:induction false} PreviousNotBefore(rows: seq<Row>, k: nat, from: nat)
    requires from < k <= |rows| && !Blank(rows[from])
    ensures Previous(rows, k) >= from
    decreases k
  {
    hide Blank;
    if Blank(rows[k - 1]) {
      PreviousNotBefore(rows, k - 1, from);
    }
  }

  // ---------- the page ----------

  ghost predicate HasOneOf(w: Words, row: Row, names: set<string>) {
    exists k :: 0 <= k < |row| && w.normalize(row[k]) in names
  }

  ghost predicate IsHeader(w: Words, row: Row) {
    && HasOneOf(w, row, {"sogd", "sogiaodich", "sogiao dich", "transactionnumber"})
    && HasOneOf(w, row, {"ngaygiaodich", "transaction date"})
    && HasOneOf(w, row, {"ghino", "debit"})
    && HasOneOf(w, row, {"ghico", "credit"})
  }

  lemma ValidIffHeader(w: Words, row: Row)
    ensures ValidColumns(Indexes(w, row)) <==> IsHeader(w, row)
  {
    hide Indexes;
    IndexesAreNamed(w, row);
  }

  /** The first row that is a header. */
  function HeaderFrom(w: Words, rows: seq<Row>, k: nat): (h: Option<nat>)
    requires k <= |rows|
    ensures h.Some? ==> k <= h.value < |rows| && ValidColumns(Indexes(w, rows[h.value]))
    ensures forall j :: k <= j < |rows| && (h.None? || j < h.value) ==> !ValidColumns(Indexes(w, rows[j]))
    decreases |rows| - k
  {
    if k == |rows| then None
    else if ValidColumns(Indexes(w, rows[k])) then Some(k)
    else HeaderFrom(w, rows, k + 1)
  }

  function Header(w: Words, rows: seq<Row>): Option<nat> {
    HeaderFrom(w, rows, 0)
  }

  method HistoryHeader(w: Words, rows: seq<Row>) returns (header: Option<nat>, c: Columns)
    ensures header == Header(w, rows)
    ensures header.Some? ==> header.value < |rows| && c == Indexes(w, rows[header.value])
    // the first row with a cell for the number, the transaction date, the debit and the credit
    ensures header.Some? ==> IsHeader(w, rows[header.value]) && ColumnsNamed(w, rows[header.value], c)
    ensures forall k :: 0 <= k < |rows| && (header.None? || k < header.value) ==> !IsHeader(w, rows[k])
  {
    hide Indexes, HeaderFrom, IsHeader, ColumnsNamed;
    for i := 0 to |rows|
      invariant Header(w, rows) == HeaderFrom(w, rows, i)
      invariant forall k :: 0 <= k < i ==> !IsHeader(w, rows[k])
    {
      var indexes := ColumnIndexes(w, rows[i]);
      HeaderStep(w, rows, i);
      ValidIffHeader(w, rows[i]);
      if ValidColumns(indexes) {
        return Some(i), indexes;
      }
    }
    HeaderStep(w, rows, |rows|);
    header, c := None, Columns(-1, -1, -1, -1, -1, -1, -1);
  }

  lemma HeaderStep(w: Words, rows: seq<Row>, k: nat)
    requires k <= |rows|
    ensures HeaderFrom(w, rows, k) ==
            if k == |rows| then None
            else if ValidColumns(Indexes(w, rows[k])) then Some(k) else HeaderFrom(w, rows, k + 1)
  {
  }

  type Table = seq<Row>

  function Body(w: Words, t: Table): seq<Row>
    requires Header(w, t).Some?
  {
    t[Header(w, t).value + 1..]
  }

  function ColumnsOf(w: Words, t: Table): Columns
    requires Header(w, t).Some?
  {
    Indexes(w, t[Header(w, t).value])
  }

  function ReadTable(w: Words, t: Table): Option<Reading>
    requires Header(w, t).Some?
  {
    TakeAll(w, ColumnsOf(w, t), START, Body(w, t))
  }

  lemma ReadTableIs(w: Words, t: Table)
    requires Header(w, t).Some?
    ensures ReadTable(w, t) == TakeAll(w, Indexes(w, t[Header(w, t).value]), START, t[Header(w, t).value + 1..])
  {
  }

  /** A table ends the search: it cannot be read, or it has transactions. */
  predicate Ends(w: Words, t: Table) {
    Header(w, t).Some? && (ReadTable(w, t).None? || ReadTable(w, t).value.transactions != [])
  }

  ghost predicate AllAccounted(w: Words, c: Columns, rows: seq<Row>) {
    forall k: nat :: k < |rows| ==> Accounted(w, c, rows, k)
  }

  ghost predicate HasStrangeRow(w: Words, t: Table) {
    Header(w, t).Some? && !AllAccounted(w, ColumnsOf(w, t), Body(w, t))
  }

  ghost predicate Yields(w: Words, t: Table, transactions: seq<Transaction>) {
    && Header(w, t).Some? && AllAccounted(w, ColumnsOf(w, t), Body(w, t))
    && transactions == Expected(ColumnsOf(w, t), Body(w, t))
  }

  lemma DecidedBy(w: Words, t: Table)
    requires Header(w, t).Some?
    ensures ReadTable(w, t).None? <==> HasStrangeRow(w, t)
    ensures ReadTable(w, t).Some? ==> Yields(w, t, ReadTable(w, t).value.transactions)
  {
    hide Header, TakeAll, Expected, Accounted, MarksEmpty, Indexes;
    TableIsAccountedFor(w, ColumnsOf(w, t), Body(w, t));
  }

  datatype Result = Parsed(transactions: seq<Transaction>) | Refused(problem: Problem)

  ghost predicate Recognized(w: Words, t: Table) {
    Header(w, t).Some?
  }

  /** A table that can be read and holds a marker. */
  ghost predicate SaysEmpty(w: Words, t: Table) {
    Header(w, t).Some? && ReadTable(w, t).Some? && ReadTable(w, t).value.marker
  }

  lemma Unrecognized(w: Words, t: Table)
    ensures !Recognized(w, t) ==> !SaysEmpty(w, t) && !Ends(w, t)
  {
  }

  lemma SaysEmptyIff(w: Words, t: Table)
    requires Recognized(w, t)
    ensures SaysEmpty(w, t) ==> ReadTable(w, t).Some?
    ensures ReadTable(w, t).Some? ==> (SaysEmpty(w, t) <==> ReadTable(w, t).value.marker)
    ensures Ends(w, t) <==> ReadTable(w, t).None? || ReadTable(w, t).value.transactions != []
  {
    hide Header, ReadTable;
  }

  /** The tables of a page in document order. */
  method ParseHistoryPage(w: Words, tables: seq<Table>) returns (r: Result)
    // the first table that cannot be read or has transactions decides
    ensures forall k: nat :: k < |tables| && Ends(w, tables[k]) && (forall j: nat :: j < k ==> !Ends(w, tables[j])) ==>
              r == (if ReadTable(w, tables[k]).None? then Refused(BadRow)
                    else Parsed(ReadTable(w, tables[k]).value.transactions))
    // it is refused only if some row is none of the kinds a table may hold
    ensures r == Refused(BadRow) ==> exists k: nat :: k < |tables| && HasStrangeRow(w, tables[k])
    ensures r.Parsed? && r.transactions != [] ==>
              exists k: nat :: k < |tables| && Yields(w, tables[k], r.transactions)
    // with no such table, an empty history needs a table that says so
    ensures (forall k: nat :: k < |tables| ==> !Ends(w, tables[k])) ==>
              r == (if exists k: nat :: k < |tables| && SaysEmpty(w, tables[k]) then Parsed([])
                    else Refused(if exists k: nat :: k < |tables| && Recognized(w, tables[k]) then NoMarker
                                 else NoSchema))
  {
    hide Header, HeaderFrom, Indexes, TakeAll, ReadTable, HasStrangeRow, Yields, SaysEmpty, Ends;
    hide ColumnsNamed, IsHeader;
    var recognized, emptyHistory := false, false;
    for i := 0 to |tables|
      invariant forall k: nat :: k < i ==> !Ends(w, tables[k])
      invariant recognized <==> exists k: nat :: k < i && Recognized(w, tables[k])
      invariant emptyHistory <==> exists k: nat :: k < i && SaysEmpty(w, tables[k])
      invariant emptyHistory ==> recognized
    {
      var rows := tables[i];
      var header, c := HistoryHeader(w, rows);
      Unrecognized(w, rows);
      if header.Some? {
        recognized := true;
        var reading := ParseTable(w, c, rows, header.value);
        assert reading == ReadTable(w, rows) by { ReadTableIs(w, rows); }
        DecidedBy(w, rows);
        SaysEmptyIff(w, rows);
        if reading.None? {
          return Refused(BadRow);
        }
        if reading.value.marker {
          emptyHistory := true;
        }
        if |reading.value.transactions| > 0 {
          return Parsed(reading.value.transactions);
        }
      }
    }
    if recognized && emptyHistory {
      r := Parsed([]);
    } else if recognized {
      r := Refused(NoMarker);
    } else {
      r := Refused(NoSchema);
    }
  }

  /** What an accepted table gives: its rows accounted for, its transactions the expected ones. */
  lemma AcceptedTable(w: Words, t: Table)
    requires Header(w, t).Some? && ReadTable(w, t).Some?
    ensures ReadTable(w, t).value.transactions == Expected(ColumnsOf(w, t), Body(w, t))
    ensures forall k: nat :: k < |Body(w, t)| ==> Accounted(w, ColumnsOf(w, t), Body(w, t), k)
    ensures ReadTable(w, t).value.marker <==>
            exists k: nat :: k < |Body(w, t)| && MarksEmpty(w, ColumnsOf(w, t), Body(w, t), k)
  {
    hide TakeAll, Expected, Accounted, MarksEmpty, Header, Indexes;
    TableIsAccountedFor(w, ColumnsOf(w, t), Body(w, t));
  }
}
