/**
  Reading an amount of money aloud in Vietnamese: the Go reader, the TypeScript reader, and the
  meaning of the words they say.

  A text is a sequence of words with one space between neighbours. `Blank` is the empty word: the Go
  code joins "nghìn", one "tỷ " per power of 10^9 and the next part, which leaves a doubled space.
 */
module MoneyVi {
  datatype Word =
    | Digit(value: nat)        // không, một, ..., chín
    | Tram | Muoi | TenMuoi    // trăm (hundred), mươi (-ty), mười (ten)
    | Linh                     // linh: the tens are zero
    | Mot | Tu | Lam           // mốt, tư, lăm: 1, 4, 5 after a ten
    | Nghin | Trieu | Ty       // nghìn 10^3, triệu 10^6, tỷ 10^9
    | Blank
    | Dong                     // đồng

  // ---------- what the words mean ----------

  function Pow1000(k: nat): (r: nat)
    ensures r > 0
  {
    if k == 0 then 1 else 1000 * Pow1000(k - 1)
  }

  /** Powers of a thousand a scale word stands for; 0 for the other words. */
  function Scale(w: Word): nat {
    match w
    case Nghin => 1
    case Trieu => 2
    case Ty => 3
    case _ => 0
  }

  /** The combined scale of the scale words `ws` begins with: "nghìn tỷ" is 10^12. */
  function LeadingScale(ws: seq<Word>): nat {
    if ws == [] || Scale(ws[0]) == 0 then 0 else Scale(ws[0]) + LeadingScale(ws[1..])
  }

  predicate InGroup(w: Word) {
    Scale(w) == 0 && w != Blank && w != Dong
  }

  /** The scale a word inside a group is counted at: that of the next scale words. */
  function NextScale(ws: seq<Word>): nat {
    if ws != [] && InGroup(ws[0]) then NextScale(ws[1..]) else LeadingScale(ws)
  }

  /** What the first word is worth inside its group, given the words after it. */
  function Worth(w: Word, after: seq<Word>): nat {
    match w
    case Digit(d) =>
      if after != [] && after[0] == Tram then 100 * d
      else if after != [] && after[0] == Muoi then 10 * d
      else d
    case TenMuoi => 10
    case Mot => 1
    case Tu => 4
    case Lam => 5
    case _ => 0
  }

  /** The amount a text names. */
  function Meaning(ws: seq<Word>): nat {
    if ws == [] then 0 else Worth(ws[0], ws[1..]) * Pow1000(NextScale(ws[1..])) + Meaning(ws[1..])
  }

  /** The same for the words of one group, before any scale. */
  function GroupMeaning(ws: seq<Word>): nat {
    if ws == [] then 0 else Worth(ws[0], ws[1..]) + GroupMeaning(ws[1..])
  }

  // ---------- the two readers as functions of the amount ----------

  function ReadThreeDigits(n: nat, hasHigherGroup: bool): seq<Word>
    requires n < 1000
  {
    var hundreds, tens, units := n / 100, n % 100 / 10, n % 10;
    var spoken := hundreds > 0 || hasHigherGroup;
    (if spoken then [Digit(hundreds), Tram] else []) +
    if tens > 1 then
      [Digit(tens), Muoi] +
      (if units == 1 then [Mot] else if units == 4 then [Tu] else if units == 5 then [Lam]
       else if units > 0 then [Digit(units)] else [])
    else if tens == 1 then
      [TenMuoi] + (if units == 5 then [Lam] else if units > 0 then [Digit(units)] else [])
    else if units > 0 then
      if spoken then [Linh, Digit(units)] else [Digit(units)]
    else
      []
  }

  const SCALE_UNITS: seq<seq<Word>> := [[], [Nghin], [Trieu], [Ty]]

  function Repeat(n: nat): (ws: seq<Word>)
    ensures |ws| == n && forall w <- ws :: w == Ty
  {
    if n == 0 then [] else [Ty] + Repeat(n - 1)
  }

  function GoScale(i: nat): seq<Word> {
    if i < |SCALE_UNITS| then SCALE_UNITS[i]
    else if i % 3 > 0 then SCALE_UNITS[i % 3] + Repeat(i / 3) + [Blank]
    else Repeat(i / 3)
  }

  function TsScale(power: nat): seq<Word> {
    if power == 0 then [] else SCALE_UNITS[power % 4] + if power % 4 == 0 && power / 3 > 0 then [Ty] else []
  }

  /** The words of `v` when its lowest group has index `i`. */
  function GoParts(v: nat, i: nat): seq<Word> {
    if v == 0 then []
    else GoParts(v / 1000, i + 1) +
         if v % 1000 == 0 then [] else ReadThreeDigits(v % 1000, v / 1000 > 0) + GoScale(i)
  }

  function TsParts(v: nat, power: nat): seq<Word> {
    if v == 0 then []
    else
      var higher := TsParts(v / 1000, power + 1);
      higher +
      if v % 1000 == 0 then (if power > 0 && power % 3 == 0 && |higher| > 0 then [Ty] else [])
      else ReadThreeDigits(v % 1000, v / 1000 > 0) + TsScale(power)
  }

  const NOTHING: seq<Word> := [Digit(0), Dong]

  function GoText(amount: int): seq<Word> {
    if amount <= 0 then NOTHING else GoParts(amount, 0) + [Dong]
  }

  function TsText(v: nat): seq<Word> {
    if v == 0 then NOTHING else TsParts(v, 0) + [Dong]
  }

  // ---------- decoding inverts the Go reader ----------

  lemma GroupRoundTrip(n: nat, hasHigherGroup: bool)
    requires n < 1000
    ensures GroupMeaning(ReadThreeDigits(n, hasHigherGroup)) == n
    ensures forall w <- ReadThreeDigits(n, hasHigherGroup) :: InGroup(w)
    ensures n > 0 ==> ReadThreeDigits(n, hasHigherGroup) != []
  {
    var ws := ReadThreeDigits(n, hasHigherGroup);
    var hundreds, tens, units := n / 100, n % 100 / 10, n % 10;
    var spoken := hundreds > 0 || hasHigherGroup;
    var low := ws[if spoken then 2 else 0..];
    LowRoundTrip(n % 100, spoken, low);
    if spoken {
      assert ws[1..][1..] == low;
      assert GroupMeaning(ws) == 100 * hundreds + GroupMeaning(low);
    } else {
      assert ws == low;
    }
  }

  /** The tens and units of a group. */
  lemma LowRoundTrip(n: nat, spoken: bool, ws: seq<Word>)
    requires n < 100
    requires var tens, units := n / 10, n % 10;
             ws == if tens > 1 then
                     [Digit(tens), Muoi] +
                     (if units == 1 then [Mot] else if units == 4 then [Tu] else if units == 5 then [Lam]
                      else if units > 0 then [Digit(units)] else [])
                   else if tens == 1 then
                     [TenMuoi] + (if units == 5 then [Lam] else if units > 0 then [Digit(units)] else [])
                   else if units > 0 then
                     if spoken then [Linh, Digit(units)] else [Digit(units)]
                   else []
    ensures GroupMeaning(ws) == n
    ensures forall w <- ws :: InGroup(w)
    ensures ws == [] || ws[0] != Tram
    ensures ws == [] <==> n == 0
  {
    if |ws| > 0 {
      var rest := ws[1..];
      assert GroupMeaning(ws) == Worth(ws[0], rest) + GroupMeaning(rest);
      if |rest| > 0 {
        assert GroupMeaning(rest) == Worth(rest[0], rest[1..]) + GroupMeaning(rest[1..]);
        if |rest| > 1 {
          assert GroupMeaning(rest[1..]) == Worth(rest[1], rest[1..][1..]) + GroupMeaning(rest[1..][1..]);
        }
      }
    }
  }

  lemma Spread(x: nat, y: nat, p: nat)
    ensures (x + y) * p == x * p + y * p
  {
  }

  lemma WorthInText(g: seq<Word>, after: seq<Word>)
    requires g != [] && after != [] && !InGroup(after[0])
    ensures Worth(g[0], g[1..] + after) == Worth(g[0], g[1..])
  {
    assert (g[1..] + after)[0] == if |g| == 1 then after[0] else g[1..][0];
  }

  /** A group counts at the scale that follows it. */
  lemma {:induction false} GroupInText(g: seq<Word>, after: seq<Word>)
    requires forall w <- g :: InGroup(w)
    requires after != [] && !InGroup(after[0])
    ensures Meaning(g + after) == GroupMeaning(g) * Pow1000(LeadingScale(after)) + Meaning(after)
    ensures NextScale(g + after) == LeadingScale(after)
    decreases |g|
  {
    hide Pow1000, Worth, LeadingScale, InGroup;
    var ws := g + after;
    var p := Pow1000(LeadingScale(after));
    if g == [] {
      assert ws == after;
    } else {
      assert ws[1..] == g[1..] + after && ws[0] == g[0];
      GroupInText(g[1..], after);
      WorthInText(g, after);
      Spread(Worth(g[0], g[1..]), GroupMeaning(g[1..]), p);
    }
  }

  /** Words outside the groups are worth nothing themselves. */
  lemma {:induction false} OutsideGroups(ws: seq<Word>, after: seq<Word>)
    requires forall w <- ws :: !InGroup(w)
    ensures Meaning(ws + after) == Meaning(after)
    decreases |ws|
  {
    if ws == [] {
      assert ws + after == after;
    } else {
      assert (ws + after)[1..] == ws[1..] + after && (ws + after)[0] == ws[0];
      assert !InGroup(ws[0]);
      OutsideGroups(ws[1..], after);
    }
  }

  lemma ScaleCons(w: Word, rest: seq<Word>)
    requires Scale(w) > 0
    ensures LeadingScale([w] + rest) == Scale(w) + LeadingScale(rest)
  {
    assert ([w] + rest)[1..] == rest;
  }

  lemma {:induction false} RepeatScale(n: nat, after: seq<Word>)
    requires after == [] || Scale(after[0]) == 0
    ensures LeadingScale(Repeat(n) + after) == 3 * n
  {
    if n == 0 {
      assert Repeat(n) + after == after;
    } else {
      RepeatScale(n - 1, after);
      ScaleCons(Ty, Repeat(n - 1) + after);
      assert Repeat(n) + after == [Ty] + (Repeat(n - 1) + after);
    }
  }

  /** The scale words of group `i` stand for 1000^i. */
  lemma GoScaleMeans(i: nat, after: seq<Word>)
    requires after != [] && Scale(after[0]) == 0
    ensures LeadingScale(GoScale(i) + after) == i
  {
    hide LeadingScale, Repeat, InGroup;
    var unit := SCALE_UNITS[i % 3];
    assert LeadingScale(after) == 0 by { NoScale(after); }
    if i < |SCALE_UNITS| {
      OneScale(i, after);
    } else if i % 3 > 0 {
      RepeatScale(i / 3, [Blank] + after);
      OneScale(i % 3, Repeat(i / 3) + ([Blank] + after));
      assert GoScale(i) + after == unit + (Repeat(i / 3) + ([Blank] + after));
    } else {
      RepeatScale(i / 3, after);
    }
  }

  lemma GoScaleOutside(i: nat)
    ensures forall w <- GoScale(i) :: !InGroup(w)
    ensures i > 0 ==> GoScale(i) != []
  {
    hide Repeat;
  }

  lemma NoScale(ws: seq<Word>)
    requires ws != [] && Scale(ws[0]) == 0
    ensures LeadingScale(ws) == 0
  {
  }

  lemma OneScale(i: nat, rest: seq<Word>)
    requires i < |SCALE_UNITS|
    ensures LeadingScale(SCALE_UNITS[i] + rest) == i + LeadingScale(rest)
  {
    if i == 0 {
      assert SCALE_UNITS[i] + rest == rest;
    } else {
      ScaleCons(SCALE_UNITS[i][0], rest);
    }
  }

  predicate Boundary(after: seq<Word>, i: nat) {
    if i == 0 then after == [Dong] else after != [] && Scale(after[0]) == 0
  }

  lemma {:induction false} PartsRoundTrip(v: nat, i: nat, after: seq<Word>)
    requires Boundary(after, i)
    ensures Meaning(GoParts(v, i) + after) == v * Pow1000(i) + Meaning(after)
    decreases v
  {
    hide Meaning, ReadThreeDigits, GoScale, Boundary;
    if v == 0 {
      assert GoParts(v, i) + after == after;
    } else {
      var n := v % 1000;
      var part := if n == 0 then [] else ReadThreeDigits(n, v / 1000 > 0) + GoScale(i);
      var rest := part + after;
      assert GoParts(v, i) + after == GoParts(v / 1000, i + 1) + rest;
      OnePart(n, v / 1000 > 0, i, after);
      PartsRoundTrip(v / 1000, i + 1, rest);
      Regroup(v, Pow1000(i));
    }
  }

  lemma OnePart(n: nat, higher: bool, i: nat, after: seq<Word>)
    requires n < 1000 && Boundary(after, i)
    ensures var rest := (if n == 0 then [] else ReadThreeDigits(n, higher) + GoScale(i)) + after;
            Meaning(rest) == n * Pow1000(i) + Meaning(after) && Boundary(rest, i + 1)
  {
    hide Meaning, ReadThreeDigits, GoScale, Pow1000;
    if n == 0 {
      assert [] + after == after;
    } else {
      OneGroup(n, higher, i, after);
      assert ReadThreeDigits(n, higher) + GoScale(i) + after == ReadThreeDigits(n, higher) + (GoScale(i) + after);
    }
  }

  lemma OneGroup(n: nat, higher: bool, i: nat, after: seq<Word>)
    requires 0 < n < 1000 && Boundary(after, i)
    ensures var rest := ReadThreeDigits(n, higher) + (GoScale(i) + after);
            Meaning(rest) == n * Pow1000(i) + Meaning(after) && rest != [] && Scale(rest[0]) == 0
  {
    hide Meaning, GroupMeaning, ReadThreeDigits, GoScale, LeadingScale, Pow1000;
    var g, s := ReadThreeDigits(n, higher), GoScale(i);
    GroupRoundTrip(n, higher);
    GoScaleMeans(i, after);
    GoScaleOutside(i);
    OutsideGroups(s, after);
    assert (s + after)[0] == if s == [] then after[0] else s[0];
    if i > 0 {
      assert s[0] in s;
    } else {
      assert s == [] by { NoScaleAtZero(); }
    }
    GroupInText(g, s + after);
    assert g[0] in g;
  }

  lemma NoScaleAtZero()
    ensures GoScale(0) == []
  {
  }

  lemma Regroup(v: nat, p: nat)
    ensures v / 1000 * (1000 * p) + v % 1000 * p == v * p
  {
    assert v == v / 1000 * 1000 + v % 1000;
    calc {
      v * p;
      (v / 1000 * 1000 + v % 1000) * p;
      v / 1000 * 1000 * p + v % 1000 * p;
    }
  }

  /** The words name the amount, so different amounts are read differently. */
  lemma GoRoundTrip(amount: int)
    ensures Meaning(GoText(amount)) == if amount <= 0 then 0 else amount
  {
    if amount <= 0 {
      assert Meaning(NOTHING) == Meaning(NOTHING[1..]) == Meaning(NOTHING[1..][1..]);
    } else {
      PartsRoundTrip(amount, 0, [Dong]);
      assert Meaning([Dong]) == 0;
    }
  }

  lemma GoInjective(a: int, b: int)
    requires GoText(a) == GoText(b)
    ensures a == b || (a <= 0 && b <= 0)
  {
    GoRoundTrip(a);
    GoRoundTrip(b);
  }

  // ---------- the two readers agree exactly below 10^12 ----------

  lemma {:induction false} PartsAgree(v: nat, i: nat)
    requires i <= 4 && v < Pow1000(4 - i)
    ensures TsParts(v, i) == GoParts(v, i)
    decreases v
  {
    hide ReadThreeDigits, TsScale, GoScale, Repeat;
    SmallScales(i);
    if v == 0 {
    } else {
      PartsAgree(v / 1000, i + 1);
      assert v / 1000 == 0 ==> TsParts(v / 1000, i + 1) == [];
    }
  }

  lemma SmallScales(i: nat)
    ensures i < 4 ==> GoScale(i) == TsScale(i)
  {
  }

  function Top(v: nat): (top: nat)
    requires v > 0
    ensures 0 < top < 1000
  {
    if v < 1000 then v else Top(v / 1000)
  }

  /** The index of the highest group of `v` when the lowest has index `i`. */
  function Height(v: nat, i: nat): nat {
    if v < 1000 then i else Height(v / 1000, i + 1)
  }

  lemma {:induction false} TopIsSaidFirst(v: nat, i: nat)
    requires v > 0
    ensures ReadThreeDigits(Top(v), false) + GoScale(Height(v, i)) <= GoParts(v, i)
    ensures ReadThreeDigits(Top(v), false) + TsScale(Height(v, i)) <= TsParts(v, i)
    decreases v
  {
    if v < 1000 {
      assert v / 1000 == 0 && v % 1000 == v;
      assert GoParts(0, i + 1) == [] && TsParts(0, i + 1) == [];
    } else {
      TopIsSaidFirst(v / 1000, i + 1);
    }
  }

  lemma {:induction false} HeightBounds(v: nat, i: nat, k: nat)
    requires v > 0
    ensures Height(v, i) < i + k + 1 <==> v < Pow1000(k + 1)
    ensures Height(v, i) >= i
    decreases v
  {
    if v < 1000 {
      assert Pow1000(k + 1) == 1000 * Pow1000(k);
    } else {
      if k == 0 {
        HeightBounds(v / 1000, i + 1, 0);
        assert Pow1000(1) == 1000 * Pow1000(0);
      } else {
        HeightBounds(v / 1000, i + 1, k - 1);
        assert Pow1000(k + 1) == 1000 * Pow1000(k);
      }
    }
  }

  /**
    Below 10^12 the readers say the same words; from there up to 10^36, far above the largest int64,
    they always differ.
   */
  lemma ReadersAgreeBelow1000Billion(v: nat)
    requires v < Pow1000(12)
    ensures TsText(v) == GoText(v) <==> v < 1_000_000_000_000
  {
    FourthPower();
    if v < Pow1000(4) {
      PartsAgree(v, 0);
    } else {
      var g, h := ReadThreeDigits(Top(v), false), Height(v, 0);
      HeightBounds(v, 0, 3);
      HeightBounds(v, 0, 11);
      TopIsSaidFirst(v, 0);
      ScalesDiffer(h);
      assert (g + GoScale(h))[|g|] == GoScale(h)[0] && (g + TsScale(h))[|g|] == TsScale(h)[0];
      assert GoText(v)[|g|] != TsText(v)[|g|];
    }
  }

  lemma ScalesDiffer(h: nat)
    requires 4 <= h < 12
    ensures GoScale(h) != [] && TsScale(h) != [] && GoScale(h)[0] != TsScale(h)[0]
  {
  }

  lemma FourthPower()
    ensures Pow1000(4) == 1_000_000_000_000
  {
    assert Pow1000(1) == 1000;
    assert Pow1000(2) == 1_000_000;
    assert Pow1000(3) == 1_000_000_000;
  }

  /** The TypeScript reader says "một tỷ tỷ đồng", which is 10^18, for 10^12. */
  lemma TsMisreads()
    ensures TsText(1_000_000_000_000) == [Digit(1), Ty, Ty, Dong]
    ensures Meaning(TsText(1_000_000_000_000)) == 1_000_000_000_000_000_000
  {
    TsOfBillionThousands();
    MeaningOfTyTy();
  }

  lemma TsOfBillionThousands()
    ensures TsText(1_000_000_000_000) == [Digit(1), Ty, Ty, Dong]
  {
    hide ReadThreeDigits, TsScale;
    assert ReadThreeDigits(1, false) + TsScale(4) == [Digit(1), Ty] by {
      OneAndScale();
    }
    var v := 1;
    assert TsParts(v / 1000, 5) == [] && v % 1000 == 1;
    assert TsParts(v, 4) == [] + (ReadThreeDigits(1, false) + TsScale(4)) == [Digit(1), Ty];
    TsThousandfold(1, 3);
    TsThousandfold(1_000, 2);
    TsThousandfold(1_000_000, 1);
    TsThousandfold(1_000_000_000, 0);
  }

  lemma OneAndScale()
    ensures ReadThreeDigits(1, false) == [Digit(1)] && TsScale(4) == [Ty]
  {
  }

  lemma TsThousandfold(v: nat, power: nat)
    requires v > 0 && TsParts(v, power + 1) != []
    ensures TsParts(1000 * v, power) ==
            TsParts(v, power + 1) + if power > 0 && power % 3 == 0 then [Ty] else []
  {
    assert 1000 * v / 1000 == v && 1000 * v % 1000 == 0;
  }

  lemma MeaningOfTyTy()
    ensures Meaning([Digit(1), Ty, Ty, Dong]) == 1_000_000_000_000_000_000
  {
    hide Pow1000;
    var tail := [Ty, Ty, Dong];
    assert tail[1..] == [Ty, Dong] && tail[1..][1..] == [Dong];
    assert LeadingScale([Dong]) == 0 && LeadingScale([Ty, Dong]) == 3 && NextScale(tail) == 6;
    OutsideGroups(tail, []);
    assert tail + [] == tail;
    assert [Digit(1), Ty, Ty, Dong][1..] == tail;
    assert Meaning([Digit(1), Ty, Ty, Dong]) == Pow1000(6);
    SixthPower();
  }

  lemma SixthPower()
    ensures Pow1000(6) == 1_000_000_000_000_000_000
  {
    FourthPower();
    assert Pow1000(5) == 1000 * Pow1000(4) && Pow1000(6) == 1000 * Pow1000(5);
  }

  // ---------- the Go code ----------

  /** The number whose groups, lowest first, are `groups`. */
  ghost function Lowest(groups: seq<nat>): nat {
    if groups == [] then 0 else groups[0] + 1000 * Lowest(groups[1..])
  }

  ghost predicate Groups(groups: seq<nat>) {
    forall k :: 0 <= k < |groups| ==> groups[k] < 1000
  }

  lemma PowZero(g: nat)
    ensures g * Pow1000(0) == g
  {
  }

  lemma PowStep(g: nat, k: nat)
    ensures g * Pow1000(k + 1) == 1000 * (g * Pow1000(k))
  {
  }

  lemma {:induction false} LowestSnoc(groups: seq<nat>, g: nat)
    ensures Lowest(groups + [g]) == Lowest(groups) + g * Pow1000(|groups|)
    decreases |groups|
  {
    hide Pow1000;
    if groups == [] {
      assert Lowest([g]) == g + 1000 * Lowest([g][1..]);
      PowZero(g);
    } else {
      assert (groups + [g])[1..] == groups[1..] + [g];
      LowestSnoc(groups[1..], g);
      PowStep(g, |groups| - 1);
    }
  }

  lemma {:induction false} LowestPositive(groups: seq<nat>)
    requires groups != [] && groups[|groups| - 1] > 0
    ensures Lowest(groups) > 0
    decreases |groups|
  {
    if |groups| <= 1 {
    } else {
      LowestPositive(groups[1..]);
    }
  }

  method SpeakVND(amount: int) returns (text: seq<Word>)
    ensures text == GoText(amount)
  {
    if amount <= 0 {
      return NOTHING;
    }
    var groups := BreakIntoGroups(amount);
    var resultParts := JoinGroups(groups);
    if resultParts == [] {
      return NOTHING;
    }
    text := resultParts + [Dong];
  }

  method BreakIntoGroups(amount: int) returns (groups: seq<nat>)
    requires amount > 0
    ensures Groups(groups) && groups != [] && groups[|groups| - 1] > 0
    ensures Lowest(groups) == amount
  {
    hide Lowest;
    groups := [];
    assert Lowest(groups) == 0 by { EmptyIsZero(); }
    var val: nat := amount;
    while val > 0
      invariant Groups(groups) && amount == Lowest(groups) + val * Pow1000(|groups|)
      invariant val == 0 ==> groups != [] && groups[|groups| - 1] > 0
    {
      LowestSnoc(groups, val % 1000);
      Regroup(val, Pow1000(|groups|));
      groups := groups + [val % 1000];
      val := val / 1000;
    }
  }

  lemma EmptyIsZero()
    ensures Lowest([]) == 0
  {
  }

  method JoinGroups(groups: seq<nat>) returns (resultParts: seq<Word>)
    requires Groups(groups) && groups != [] && groups[|groups| - 1] > 0
    ensures resultParts == GoParts(Lowest(groups), 0)
    ensures resultParts != []
  {
    hide ReadThreeDigits, GoScale, Lowest, GoParts;
    resultParts := [];
    var i := |groups| - 1;
    assert groups[i + 1..] == [];
    assert resultParts == GoParts(Lowest([]), i + 1) by { NothingAbove(i + 1); }
    while i >= 0
      invariant -1 <= i < |groups|
      invariant resultParts == GoParts(Lowest(groups[i + 1..]), i + 1)
      invariant i < |groups| - 1 ==> resultParts != []
      decreases i
    {
      var groupVal := groups[i];
      var hasHigher := i < |groups| - 1;
      GoGroup(groups, i);
      if groupVal != 0 {
        var groupWords := ReadThreeDigits(groupVal, hasHigher);
        if groupWords != [] {
          resultParts := resultParts + (groupWords + GoScale(i));
        }
      }
      i := i - 1;
    }
    assert groups[0..] == groups;
  }

  lemma NothingAbove(i: nat)
    ensures GoParts(Lowest([]), i) == []
  {
  }

  /** One round of the loop over the groups. */
  lemma GoGroup(groups: seq<nat>, i: nat)
    requires Groups(groups) && i < |groups| && groups[|groups| - 1] > 0
    ensures GoParts(Lowest(groups[i..]), i) ==
            GoParts(Lowest(groups[i + 1..]), i + 1) +
            if groups[i] == 0 then [] else ReadThreeDigits(groups[i], i < |groups| - 1) + GoScale(i)
    ensures groups[i] > 0 ==> ReadThreeDigits(groups[i], i < |groups| - 1) != []
  {
    hide ReadThreeDigits, GoScale;
    var high := Lowest(groups[i + 1..]);
    assert groups[i..][1..] == groups[i + 1..];
    assert Lowest(groups[i..]) == groups[i] + 1000 * high;
    LowestPositive(groups[i..]);
    if i < |groups| - 1 {
      LowestPositive(groups[i + 1..]);
    }
    GroupRoundTrip(groups[i], i < |groups| - 1);
    assert (groups[i] + 1000 * high) % 1000 == groups[i] && (groups[i] + 1000 * high) / 1000 == high;
  }

  // ---------- the TypeScript code ----------

  predicate IsDigit(c: char) {
    '0' <= c <= '9'
  }

  predicate Digits(s: string) {
    forall k :: 0 <= k < |s| ==> IsDigit(s[k])
  }

  function Numeral(c: char): (d: nat)
    requires IsDigit(c)
    ensures d < 10
  {
    (c as int) - ('0' as int)
  }

  /** What is left after removing every character that is not a digit. */
  function OnlyDigits(s: string): (r: string)
    ensures Digits(r)
  {
    if s == "" then "" else (if IsDigit(s[0]) then [s[0]] else "") + OnlyDigits(s[1..])
  }

  function Decimal(s: string): nat
    requires Digits(s)
  {
    if s == "" then 0 else 10 * Decimal(s[..|s| - 1]) + Numeral(s[|s| - 1])
  }

  /** The numeral of an amount. */
  function NumeralOf(v: nat): (s: string)
    decreases v
  {
    (if v < 10 then "" else NumeralOf(v / 10)) + ["0123456789"[v % 10]]
  }

  lemma {:induction false} OnlyDigitsAppend(a: string, b: string)
    ensures OnlyDigits(a + b) == OnlyDigits(a) + OnlyDigits(b)
    decreases |a|
  {
    hide IsDigit, Digits;
    if a == "" {
      assert a + b == b;
    } else {
      assert (a + b)[1..] == a[1..] + b;
      OnlyDigitsAppend(a[1..], b);
      var first := if IsDigit(a[0]) then [a[0]] else "";
      assert OnlyDigits(a + b) == first + OnlyDigits(a[1..] + b);
      assert first + (OnlyDigits(a[1..]) + OnlyDigits(b)) == first + OnlyDigits(a[1..]) + OnlyDigits(b);
    }
  }

  lemma OneCharacter(c: char)
    ensures OnlyDigits([c]) == if c in "0123456789" then [c] else ""
  {
    assert [c][1..] == "";
    var digits := "0123456789";
    assert IsDigit(c) ==> digits[(c as int) - ('0' as int)] == c;
  }

  /** The digits of a numeral are read as its amount; by OnlyDigitsAppend, wherever other characters stand between. */
  lemma {:induction false} NumeralIsRead(v: nat)
    ensures OnlyDigits(NumeralOf(v)) == NumeralOf(v) && Decimal(NumeralOf(v)) == v
    decreases v
  {
    hide OnlyDigits, Decimal, Numeral, IsDigit;
    var last := "0123456789"[v % 10];
    DigitIsRead(v % 10);
    if v < 10 {
      assert NumeralOf(v) == [last];
    } else {
      NumeralIsRead(v / 10);
      OnlyDigitsAppend(NumeralOf(v / 10), [last]);
      DecimalSnoc(NumeralOf(v / 10), last);
    }
  }

  lemma DigitIsRead(d: nat)
    requires d < 10
    ensures var c := "0123456789"[d];
            && IsDigit(c) && Numeral(c) == d
            && OnlyDigits([c]) == [c] && Digits([c]) && Decimal([c]) == d
  {
    var c := "0123456789"[d];
    OneCharacter(c);
    assert c == ('0' as int + d) as char;
    assert [c][..0] == "";
  }

  lemma {:induction false} LeadingZero(s: string)
    requires Digits(s)
    requires s != "" && s[0] == '0'
    ensures Decimal(s) == Decimal(s[1..])
    decreases |s|
  {
    if |s| <= 1 {
    } else {
      LeadingZero(s[..|s| - 1]);
      assert s[..|s| - 1][1..] == s[1..][..|s| - 2];
    }
  }

  lemma {:induction false} Positive(s: string)
    requires Digits(s)
    requires s != "" && s[0] != '0'
    ensures Decimal(s) > 0
    decreases |s|
  {
    if |s| <= 1 {
    } else {
      Positive(s[..|s| - 1]);
    }
  }

  lemma DecimalSnoc(s: string, c: char)
    requires Digits(s) && IsDigit(c)
    ensures Digits(s + [c]) && Decimal(s + [c]) == 10 * Decimal(s) + Numeral(c)
  {
    assert (s + [c])[..|s|] == s;
  }

  lemma ThreeMore(s: string, a: char, b: char, c: char)
    requires Digits(s) && IsDigit(a) && IsDigit(b) && IsDigit(c)
    ensures Digits(s + [a, b, c])
    ensures Decimal(s + [a, b, c]) == 1000 * Decimal(s) + 100 * Numeral(a) + 10 * Numeral(b) + Numeral(c)
  {
    hide Decimal, Numeral, IsDigit, Digits;
    DecimalSnoc(s, a);
    DecimalSnoc(s + [a], b);
    DecimalSnoc(s + [a] + [b], c);
    assert s + [a] + [b] + [c] == s + [a, b, c];
  }

  lemma DigitsAround(s: string)
    requires Digits(s) && |s| >= 3
    ensures Digits(s[..|s| - 3]) && Digits(s[|s| - 3..])
    ensures IsDigit(s[|s| - 3]) && IsDigit(s[|s| - 2]) && IsDigit(s[|s| - 1]) && Digits("")
    ensures Decimal("") == 0
  {
  }

  lemma LastThree(s: string)
    requires Digits(s) && |s| >= 3
    ensures Digits(s[..|s| - 3]) && Digits(s[|s| - 3..])
    ensures Decimal(s) == 1000 * Decimal(s[..|s| - 3]) + Decimal(s[|s| - 3..])
    ensures Decimal(s[|s| - 3..]) < 1000
  {
    hide Decimal, Digits, Numeral, IsDigit;
    DigitsAround(s);
    var n := |s|;
    var a, b, c := s[n - 3], s[n - 2], s[n - 1];
    ThreeMore(s[..n - 3], a, b, c);
    assert s[..n - 3] + [a, b, c] == s;
    ThreeMore("", a, b, c);
    assert "" + [a, b, c] == s[n - 3..];
  }

  lemma FewDigits(s: string)
    requires Digits(s)
    requires |s| < 3
    ensures Decimal(s) < 100
  {
    if |s| > 0 {
      var t := s[..|s| - 1];
      assert |t| > 0 ==> t[..|t| - 1] == "";
    }
  }

  /** The number whose groups, highest first, are `groups`. */
  ghost function Highest(groups: seq<nat>): nat {
    if groups == [] then 0 else 1000 * Highest(groups[..|groups| - 1]) + groups[|groups| - 1]
  }

  lemma {:induction false} HighestCons(g: nat, groups: seq<nat>)
    ensures Highest([g] + groups) == g * Pow1000(|groups|) + Highest(groups)
    decreases |groups|
  {
    hide Pow1000;
    var all := [g] + groups;
    if groups == [] {
      assert all == [g] && Highest([g][..0]) == 0;
      PowZero(g);
    } else {
      var n := |groups|;
      assert all[..n] == [g] + groups[..n - 1];
      HighestCons(g, groups[..n - 1]);
      PowStep(g, n - 1);
    }
  }

  lemma {:induction false} HighestPositive(groups: seq<nat>, n: nat)
    requires 0 < n <= |groups| && groups[0] > 0
    ensures Highest(groups[..n]) > 0
    decreases n
  {
    var head := groups[..n];
    assert head[n - 1] == groups[n - 1];
    if n <= 1 {
    } else {
      assert head[..n - 1] == groups[..n - 1];
      HighestPositive(groups, n - 1);
    }
  }

  method SpeakVnd(rawAmount: string) returns (text: seq<Word>)
    ensures text == TsText(Decimal(OnlyDigits(rawAmount)))
  {
    var str := OnlyDigits(rawAmount);
    ghost var v := Decimal(str);
    while str != "" && str[0] == '0'
      invariant Digits(str)
      invariant Decimal(str) == v
      decreases |str|
    {
      LeadingZero(str);
      str := str[1..];
    }
    if str == "" {
      return NOTHING;
    }
    Positive(str);
    var groups := SplitGroups(str);
    text := GroupsToWords(groups);
    text := text + [Dong];
  }

  method SplitGroups(digits: string) returns (groups: seq<nat>)
    requires digits != "" && digits[0] != '0'
    requires Digits(digits)
    ensures Groups(groups) && groups != [] && groups[0] > 0
    ensures Highest(groups) == Decimal(digits)
  {
    groups := [];
    var str := digits;
    ghost var v := Decimal(digits);
    while |str| > 0
      invariant str <= digits
      invariant Groups(groups) && v == Decimal(str) * Pow1000(|groups|) + Highest(groups)
      invariant str == "" ==> groups != [] && groups[0] > 0
    {
      var cut := if |str| > 3 then |str| - 3 else 0;
      var chunk := str[cut..];
      if |str| >= 3 {
        LastThree(str);
      } else {
        FewDigits(str);
        assert chunk == str;
      }
      if cut == 0 {
        assert chunk == str;
        Positive(str);
      }
      var g := Decimal(chunk);
      HighestCons(g, groups);
      assert Decimal(str) == 1000 * Decimal(str[..cut]) + g;
      Distribute(Decimal(str[..cut]), g, Pow1000(|groups|));
      groups := [g] + groups;
      str := str[..cut];
    }
  }

  lemma Distribute(high: nat, g: nat, p: nat)
    ensures (1000 * high + g) * p == high * (1000 * p) + g * p
  {
    assert (1000 * high + g) * p == 1000 * high * p + g * p;
  }

  method GroupsToWords(groups: seq<nat>) returns (resultWords: seq<Word>)
    requires Groups(groups) && groups != [] && groups[0] > 0
    ensures resultWords == TsParts(Highest(groups), 0)
  {
    hide ReadThreeDigits, TsScale, TsParts, Highest;
    resultWords := [];
    var totalGroups := |groups|;
    assert groups[..0] == [];
    assert resultWords == TsParts(Highest([]), totalGroups) by { NothingBefore(totalGroups); }
    for i := 0 to totalGroups
      invariant resultWords == TsParts(Highest(groups[..i]), totalGroups - i)
    {
      var groupVal := groups[i];
      var power := totalGroups - 1 - i;
      TsGroup(groups, i);
      if groupVal == 0 {
        if power > 0 && power % 3 == 0 && |resultWords| > 0 {
          resultWords := resultWords + [Ty];
        }
      } else {
        resultWords := resultWords + (ReadThreeDigits(groupVal, i > 0) + TsScale(power));
      }
    }
    assert groups[..totalGroups] == groups;
  }

  lemma NothingBefore(power: nat)
    ensures TsParts(Highest([]), power) == []
  {
  }

  /** One round of the loop over the groups. */
  lemma TsGroup(groups: seq<nat>, i: nat)
    requires Groups(groups) && i < |groups| && groups[0] > 0
    ensures var power: nat := |groups| - 1 - i;
            var higher := TsParts(Highest(groups[..i]), power + 1);
            TsParts(Highest(groups[..i + 1]), power) ==
            higher +
            if groups[i] == 0 then (if power > 0 && power % 3 == 0 && |higher| > 0 then [Ty] else [])
            else ReadThreeDigits(groups[i], i > 0) + TsScale(power)
  {
    hide ReadThreeDigits, TsScale, TsParts;
    var high := Highest(groups[..i]);
    assert groups[..i + 1][..i] == groups[..i];
    HighestPositive(groups, i + 1);
    if i > 0 {
      HighestPositive(groups, i);
    }
    TsStep(high, groups[i], |groups| - 1 - i);
  }

  lemma TsStep(high: nat, g: nat, power: nat)
    requires g < 1000 && 1000 * high + g > 0
    ensures var higher := TsParts(high, power + 1);
            TsParts(1000 * high + g, power) ==
            higher +
            if g == 0 then (if power > 0 && power % 3 == 0 && |higher| > 0 then [Ty] else [])
            else ReadThreeDigits(g, high > 0) + TsScale(power)
  {
    hide ReadThreeDigits, TsScale;
    assert (1000 * high + g) % 1000 == g && (1000 * high + g) / 1000 == high;
  }

  /** A minus sign is dropped, as is any other character that is no digit. */
  lemma SignIsLost(text: string)
    ensures OnlyDigits("-" + text) == OnlyDigits(text)
  {
    assert ("-" + text)[1..] == text;
  }

  /**
    So the text of a negative amount is read as the positive one: it agrees with what the Go reader says
    of the signed amount if and only if the amount is zero, and with what it says of the amount without
    its sign if and only if that is below 10^12 (below 10^36).
   */
  lemma SignedAmount(text: string)
    ensures var v := Decimal(OnlyDigits(text));
            TsText(Decimal(OnlyDigits("-" + text))) == TsText(v)
            && (TsText(v) == GoText(-(v as int)) <==> v == 0)
            && (v < Pow1000(12) ==> (TsText(v) == GoText(v) <==> v < 1_000_000_000_000))
  {
    hide TsText, Pow1000, OnlyDigits, Decimal;
    SignIsLost(text);
    var v := Decimal(OnlyDigits(text));
    NothingIffZero(v);
    if v < Pow1000(12) {
      ReadersAgreeBelow1000Billion(v);
    }
  }

  lemma NothingIffZero(v: nat)
    ensures TsText(v) == NOTHING <==> v == 0
  {
    hide ReadThreeDigits, TsScale, GoScale, GoParts, TsParts;
    if v > 0 {
      TopIsSaidFirst(v, 0);
      FirstWordIsNotNothing(Top(v));
      assert ReadThreeDigits(Top(v), false)[0] == TsText(v)[0];
    }
  }

  lemma FirstWordIsNotNothing(n: nat)
    requires 0 < n < 1000
    ensures ReadThreeDigits(n, false) != [] && ReadThreeDigits(n, false)[0] != Digit(0)
  {
  }

  // ---------- the doubled space ----------

  const DIGITS: seq<string> := ["không", "một", "hai", "ba", "bốn", "năm", "sáu", "bảy", "tám", "chín"]

  predicate Sayable(w: Word) {
    w.Digit? ==> w.value < 10
  }

  function Spelling(w: Word): (s: string)
    requires Sayable(w)
    ensures (s == "" <==> w == Blank) && ' ' !in s
  {
    match w
    case Digit(d) => DigitSpelling(d)
    case Tram => "trăm"
    case Muoi => "mươi"
    case TenMuoi => "mười"
    case Linh => "linh"
    case Mot => "mốt"
    case Tu => "tư"
    case Lam => "lăm"
    case Nghin => "nghìn"
    case Trieu => "triệu"
    case Ty => "tỷ"
    case Blank => ""
    case Dong => "đồng"
  }

  function DigitSpelling(d: nat): (s: string)
    requires d < 10
    ensures s == DIGITS[d] && s != "" && ' ' !in s
  {
    match d
    case 0 => "không"
    case 1 => "một"
    case 2 => "hai"
    case 3 => "ba"
    case 4 => "bốn"
    case 5 => "năm"
    case 6 => "sáu"
    case 7 => "bảy"
    case 8 => "tám"
    case _ => "chín"
  }

  /** The words with one space before each. */
  function Spaced(ws: seq<Word>): string
    requires forall k :: 0 <= k < |ws| ==> Sayable(ws[k])
  {
    if ws == [] then "" else " " + Spelling(ws[0]) + Spaced(ws[1..])
  }

  /** The text itself: the same without the first space. */
  function Render(ws: seq<Word>): string
    requires ws != [] && forall k :: 0 <= k < |ws| ==> Sayable(ws[k])
  {
    Spaced(ws)[1..]
  }

  predicate DoubledAt(s: string, k: int) {
    0 <= k < |s| - 1 && s[k] == ' ' && s[k + 1] == ' '
  }

  ghost predicate HasDoubledSpace(s: string) {
    exists k :: DoubledAt(s, k)
  }

  lemma {:induction false} SpacedDoubles(ws: seq<Word>)
    requires forall k :: 0 <= k < |ws| ==> Sayable(ws[k])
    requires ws != [] ==> ws[|ws| - 1] != Blank
    ensures HasDoubledSpace(Spaced(ws)) <==> Blank in ws
    ensures ws != [] ==> Spaced(ws)[0] == ' '
    decreases |ws|
  {
    if ws == [] {
    } else {
      hide Spelling;
      var word, rest := Spelling(ws[0]), ws[1..];
      SpacedDoubles(rest);
      assert ws == [ws[0]] + rest;
      WordThenRest(word, Spaced(rest));
    }
  }

  lemma WordThenRest(word: string, rest: string)
    requires ' ' !in word && (rest == "" || rest[0] == ' ')
    ensures HasDoubledSpace(" " + word + rest) <==> HasDoubledSpace(rest) || (word == "" && rest != "")
  {
    var s, n := " " + word + rest, 1 + |word|;
    if HasDoubledSpace(rest) {
      var k :| DoubledAt(rest, k);
      assert DoubledAt(s, n + k);
    }
    if word == "" && rest != "" {
      assert DoubledAt(s, 0);
    }
    forall k | 1 <= k < n ensures s[k] != ' ' {
      assert s[k] == word[k - 1];
    }
    if HasDoubledSpace(s) {
      var k :| DoubledAt(s, k);
      if k >= n {
        assert DoubledAt(rest, k - n);
      }
    }
  }

  /** Group `j` of three digits, the lowest being 0. */
  function Group(v: nat, j: nat): nat {
    if j == 0 then v % 1000 else Group(v / 1000, j - 1)
  }

  /** The scales the Go code spells with a space too many. */
  predicate DoublesAt(v: nat, i: nat, j: nat) {
    Group(v, j) > 0 && i + j >= |SCALE_UNITS| && (i + j) % 3 > 0
  }

  lemma BlankInScale(i: nat)
    ensures Blank in GoScale(i) <==> i >= |SCALE_UNITS| && i % 3 > 0
    ensures forall k :: 0 <= k < |GoScale(i)| ==> Sayable(GoScale(i)[k])
  {
    if i >= |SCALE_UNITS| && i % 3 > 0 {
      assert GoScale(i)[|GoScale(i)| - 1] == Blank;
    }
    forall k | 0 <= k < |GoScale(i)| ensures Sayable(GoScale(i)[k]) {
      assert GoScale(i)[k] in GoScale(i);
    }
  }

  lemma GroupWordsAreSayable(n: nat, higher: bool)
    requires n < 1000
    ensures Blank !in ReadThreeDigits(n, higher)
    ensures forall k :: 0 <= k < |ReadThreeDigits(n, higher)| ==> Sayable(ReadThreeDigits(n, higher)[k])
  {
  }

  ghost predicate Doubles(v: nat, i: nat) {
    exists j: nat :: DoublesAt(v, i, j)
  }

  lemma DoublesStep(v: nat, i: nat)
    ensures Doubles(v, i) <==> (v % 1000 > 0 && i >= |SCALE_UNITS| && i % 3 > 0) || Doubles(v / 1000, i + 1)
  {
    if Doubles(v / 1000, i + 1) {
      var j: nat :| DoublesAt(v / 1000, i + 1, j);
      assert DoublesAt(v, i, j + 1);
    }
    if Doubles(v, i) {
      var j: nat :| DoublesAt(v, i, j);
      if j > 0 {
        assert DoublesAt(v / 1000, i + 1, j - 1);
      }
    }
    assert DoublesAt(v, i, 0) <==> v % 1000 > 0 && i >= |SCALE_UNITS| && i % 3 > 0;
  }

  lemma {:induction false} BlankInParts(v: nat, i: nat)
    ensures Blank in GoParts(v, i) <==> Doubles(v, i)
    ensures forall k :: 0 <= k < |GoParts(v, i)| ==> Sayable(GoParts(v, i)[k])
    decreases v
  {
    hide ReadThreeDigits, GoScale, Doubles;
    if v == 0 {
      NothingDoubles(i);
    } else {
      BlankInParts(v / 1000, i + 1);
      DoublesStep(v, i);
      GroupWordsAreSayable(v % 1000, v / 1000 > 0);
      BlankInScale(i);
    }
  }

  lemma NothingDoubles(i: nat)
    ensures !Doubles(0, i)
  {
    forall j: nat | true ensures !DoublesAt(0, i, j) {
      NoGroups(j);
    }
  }

  lemma {:induction false} NoGroups(j: nat)
    ensures Group(0, j) == 0
    decreases j
  {
    if j == 0 {
    } else {
      NoGroups(j - 1);
    }
  }

  lemma GoTextIsSayable(amount: int)
    ensures GoText(amount) != [] && forall k :: 0 <= k < |GoText(amount)| ==> Sayable(GoText(amount)[k])
  {
    if amount > 0 {
      BlankInParts(amount, 0);
    }
  }

  /**
    The Go text has a doubled space if and only if a group that is not zero has index 4 or more and is
    not at a power of 10^9, that is, exactly when "nghìn tỷ" or "triệu tỷ" is said.
   */
  lemma DoubledSpaceIff(amount: int)
    ensures forall k :: 0 <= k < |GoText(amount)| ==> Sayable(GoText(amount)[k])
    ensures HasDoubledSpace(Render(GoText(amount))) <==> amount > 0 && Doubles(amount, 0)
  {
    hide GoParts, Spelling, Spaced, Doubles;
    GoTextIsSayable(amount);
    var ws := GoText(amount);
    SpacedDoubles(ws);
    FirstWordIsSaid(amount);
    RestOfSpaced(ws);
    if amount > 0 {
      BlankInParts(amount, 0);
      assert ws == GoParts(amount, 0) + [Dong];
    }
  }

  lemma FirstWordIsSaid(amount: int)
    ensures GoText(amount)[0] != Blank
  {
    if amount > 0 {
      hide ReadThreeDigits, GoScale;
      TopIsSaidFirst(amount, 0);
      GroupRoundTrip(Top(amount), false);
      GroupWordsAreSayable(Top(amount), false);
      var g := ReadThreeDigits(Top(amount), false);
      assert g[0] in g && GoText(amount)[0] == g[0];
    }
  }

  /** Dropping the first space drops no doubled one when the first word is not blank. */
  lemma RestOfSpaced(ws: seq<Word>)
    requires ws != [] && ws[0] != Blank && forall k :: 0 <= k < |ws| ==> Sayable(ws[k])
    ensures HasDoubledSpace(Render(ws)) <==> HasDoubledSpace(Spaced(ws))
  {
    hide Spelling;
    var s, word := Spaced(ws), Spelling(ws[0]);
    assert s == " " + word + Spaced(ws[1..]);
    assert s[1] == word[0] && word[0] in word;
    if k :| DoubledAt(s, k) {
      assert k > 0;
      assert DoubledAt(s[1..], k - 1);
    }
    if k :| DoubledAt(s[1..], k) {
      assert DoubledAt(s, k + 1);
    }
  }

  // ---------- what is said, in words ----------

  /** The idioms of a group: which words it has. */
  lemma GroupIdioms(n: nat, hasHigherGroup: bool)
    requires n < 1000
    ensures var ws, hundreds, tens, units := ReadThreeDigits(n, hasHigherGroup), n / 100, n % 100 / 10, n % 10;
            && (Tram in ws <==> hundreds > 0 || hasHigherGroup)
            && (Muoi in ws <==> tens >= 2)
            && (TenMuoi in ws <==> tens == 1)
            && (Mot in ws <==> tens >= 2 && units == 1)
            && (Tu in ws <==> tens >= 2 && units == 4)
            && (Lam in ws <==> tens >= 1 && units == 5)
            && (Linh in ws <==> tens == 0 && units > 0 && (hundreds > 0 || hasHigherGroup))
  {
    var tens, units := n % 100 / 10, n % 10;
    if tens > 1 {
      if units == 1 {
      } else if units == 4 {
      } else if units == 5 {
      } else if units > 0 {
      }
    } else if tens == 1 {
      if units == 5 {
      } else if units > 0 {
      }
    } else {
      assert tens == 0;
    }
  }

  /** And their order: the hundreds first, then the tens, then the units. */
  lemma GroupOrder(n: nat, hasHigherGroup: bool)
    requires n < 1000
    ensures var ws, hundreds, tens, units := ReadThreeDigits(n, hasHigherGroup), n / 100, n % 100 / 10, n % 10;
            var end := |ws| - if units > 0 then 1 else 0;
            && (hundreds > 0 || hasHigherGroup ==> |ws| >= 2 && ws[0] == Digit(hundreds) && ws[1] == Tram)
            && (tens >= 2 ==> end >= 2 && ws[end - 2] == Digit(tens) && ws[end - 1] == Muoi)
            && (tens == 1 ==> end >= 1 && ws[end - 1] == TenMuoi)
            && (units > 0 ==> end >= 0 && (ws[end] == Digit(units) || ws[end] in [Mot, Tu, Lam]))
            && (Linh in ws ==> end >= 1 && ws[end - 1] == Linh)
  {
    GroupIdioms(n, hasHigherGroup);
  }

  /** The Go scale words, group by group: "nghìn" or "triệu" first, then one "tỷ" per power of 10^9. */
  lemma GoScaleWords(i: nat)
    ensures i == 0 ==> GoScale(i) == []
    ensures i == 1 ==> GoScale(i) == [Nghin]
    ensures i == 2 ==> GoScale(i) == [Trieu]
    ensures i > 2 ==>
              && |GoScale(i)| == i / 3 + (if i % 3 > 0 then 2 else 0)
              && (i % 3 == 1 ==> GoScale(i)[0] == Nghin)
              && (i % 3 == 2 ==> GoScale(i)[0] == Trieu)
              && (i % 3 > 0 ==> GoScale(i)[|GoScale(i)| - 1] == Blank)
              && forall k :: 0 <= k < |GoScale(i)| && (i % 3 == 0 || 0 < k < |GoScale(i)| - 1) ==> GoScale(i)[k] == Ty
  {
    hide Repeat;
    var tys := Repeat(i / 3);
    assert forall k :: 0 <= k < |tys| ==> tys[k] in tys;
    assert i == 3 ==> i / 3 == 1;
  }

  /** The TypeScript scale words repeat every four groups. */
  lemma TsScaleWords(power: nat)
    ensures power == 0 ==> TsScale(power) == []
    ensures power > 0 ==>
              TsScale(power) == match power % 4 case 1 => [Nghin] case 2 => [Trieu] case _ => [Ty]
  {
  }

  /** The Go reader says this of the amount. */
  ghost predicate Says(amount: nat, text: string) {
    && GoText(amount) != [] && (forall k :: 0 <= k < |GoText(amount)| ==> Sayable(GoText(amount)[k]))
    && Render(GoText(amount)) == text
  }

  lemma {:induction false} SpacedAppend(a: seq<Word>, b: seq<Word>)
    requires forall k :: 0 <= k < |a| ==> Sayable(a[k])
    requires forall k :: 0 <= k < |b| ==> Sayable(b[k])
    ensures Spaced(a + b) == Spaced(a) + Spaced(b)
    decreases |a|
  {
    hide Spelling;
    if a == [] {
      assert a + b == b;
    } else {
      assert (a + b)[1..] == a[1..] + b;
      SpacedAppend(a[1..], b);
    }
  }

  lemma SpacedTwo(a: Word, b: Word)
    requires Sayable(a) && Sayable(b)
    ensures Spaced([a]) == " " + Spelling(a)
    ensures Spaced([a, b]) == " " + Spelling(a) + " " + Spelling(b)
  {
    hide Spelling, Sayable;
    assert [a][1..] == [] && [a, b][1..] == [b] && [b][1..] == [];
  }

  lemma SpacedFour(a: Word, b: Word, c: Word, d: Word)
    requires Sayable(a) && Sayable(b) && Sayable(c) && Sayable(d)
    ensures Spaced([a, b, c, d]) == " " + Spelling(a) + " " + Spelling(b) + " " + Spelling(c) + " " + Spelling(d)
  {
    hide Spelling, Spaced, Sayable;
    SpacedTwo(a, b);
    SpacedTwo(c, d);
    SpacedAppend([a, b], [c, d]);
    assert [a, b] + [c, d] == [a, b, c, d];
  }

  lemma OneGroupText(a: nat)
    requires 0 < a < 1000
    ensures GoText(a) == ReadThreeDigits(a, false) + [Dong]
  {
    hide ReadThreeDigits, GoParts, GoScale;
    GoScaleWords(0);
    NoParts();
    LowestGroup(0, a, 0);
    assert [] + (ReadThreeDigits(a, false) + []) == ReadThreeDigits(a, false);
  }

  /** The words of three groups, the highest of which is not zero. */
  lemma ThreeGroups(a: nat, b: nat, c: nat)
    requires 0 < a < 1000 && b < 1000 && c < 1000
    ensures GoText(1000 * (1000 * a + b) + c) ==
            ReadThreeDigits(a, false) + [Trieu]
            + (if b == 0 then [] else ReadThreeDigits(b, true) + [Nghin])
            + (if c == 0 then [] else ReadThreeDigits(c, true)) + [Dong]
  {
    hide ReadThreeDigits, GoParts, GoScale;
    GoScaleWords(0);
    GoScaleWords(1);
    GoScaleWords(2);
    NoParts();
    var first := ReadThreeDigits(a, false) + [Trieu];
    LowestGroup(0, a, 2);
    assert GoParts(a, 2) == first by { assert [] + first == first; }
    LowestGroup(a, b, 1);
    LowestGroup(1000 * a + b, c, 0);
    assert ReadThreeDigits(c, true) + [] == ReadThreeDigits(c, true);
  }

  lemma NoParts()
    ensures forall i: nat :: GoParts(0, i) == []
  {
  }

  lemma LowestGroup(high: nat, low: nat, i: nat)
    requires low < 1000 && 1000 * high + low > 0
    ensures GoParts(1000 * high + low, i) ==
            GoParts(high, i + 1) + if low == 0 then [] else ReadThreeDigits(low, high > 0) + GoScale(i)
  {
    hide ReadThreeDigits, GoScale;
    assert (1000 * high + low) / 1000 == high && (1000 * high + low) % 1000 == low;
  }

  lemma Rendered(amount: nat, ws: seq<Word>, text: string)
    requires GoText(amount) == ws && ws != [] && forall k :: 0 <= k < |ws| ==> Sayable(ws[k])
    requires Spaced(ws) == " " + text
    ensures Says(amount, text)
  {
    hide GoText, Spaced, Sayable;
    assert (" " + text)[1..] == text;
  }

  /** The idioms of the tens, as the repository's tests expect them. */
  lemma SaysMotTuLam()
    ensures Says(21, "hai mươi mốt đồng")
    ensures Says(24, "hai mươi tư đồng")
    ensures Says(25, "hai mươi lăm đồng")
  {
    hide Says, ReadThreeDigits;
    TwentyWords();
    TwentyAnd(1, Mot, "mốt");
    TwentyAnd(4, Tu, "tư");
    TwentyAnd(5, Lam, "lăm");
    assert "hai mươi " + "mốt" + " đồng" == "hai mươi mốt đồng";
    assert "hai mươi " + "tư" + " đồng" == "hai mươi tư đồng";
    assert "hai mươi " + "lăm" + " đồng" == "hai mươi lăm đồng";
  }

  lemma TwentyWords()
    ensures ReadThreeDigits(21, false) == [Digit(2), Muoi, Mot]
    ensures ReadThreeDigits(24, false) == [Digit(2), Muoi, Tu]
    ensures ReadThreeDigits(25, false) == [Digit(2), Muoi, Lam]
  {
  }

  lemma TwentyAnd(units: nat, w: Word, spelling: string)
    requires 0 < units < 10 && ReadThreeDigits(20 + units, false) == [Digit(2), Muoi, w]
    requires Sayable(w) && Spelling(w) == spelling
    ensures Says(20 + units, "hai mươi " + spelling + " đồng")
  {
    hide GoText, Spaced, ReadThreeDigits, Says;
    OneGroupText(20 + units);
    SpacedFour(Digit(2), Muoi, w, Dong);
    assert Spelling(Digit(2)) == "hai" && Spelling(Muoi) == "mươi" && Spelling(Dong) == "đồng";
    Joined(spelling);
    Rendered(20 + units, [Digit(2), Muoi, w, Dong], "hai mươi " + spelling + " đồng");
  }

  lemma Joined(units: string)
    ensures " " + "hai" + " " + "mươi" + " " + units + " " + "đồng" == " " + ("hai mươi " + units + " đồng")
  {
  }

  /** A group below another one says its hundreds even if there are none. */
  lemma SaysKhongTramLinh()
    ensures Says(1_005_000, "một triệu không trăm linh năm nghìn đồng")
  {
    hide GoText, Spaced, Says;
    ThreeGroups(1, 5, 0);
    var high, low := [Digit(1), Trieu, Digit(0), Tram], [Linh, Digit(5), Nghin, Dong];
    assert ReadThreeDigits(1, false) == [Digit(1)] && ReadThreeDigits(5, true) == [Digit(0), Tram, Linh, Digit(5)];
    assert GoText(1_005_000) == high + low;
    FourAndFour(high, low);
  }

  lemma EightJoined()
    ensures (" " + "một" + " " + "triệu" + " " + "không" + " " + "trăm")
            + (" " + "linh" + " " + "năm" + " " + "nghìn" + " " + "đồng")
         == " " + "một triệu không trăm linh năm nghìn đồng"
  {
    FirstFour();
    LastFour();
    var first, last := " một triệu không trăm", " linh năm nghìn đồng";
    assert first + last == " " + "một triệu không trăm linh năm nghìn đồng";
  }

  lemma FirstFour()
    ensures " " + "một" + " " + "triệu" + " " + "không" + " " + "trăm" == " một triệu không trăm"
  {
  }

  lemma LastFour()
    ensures " " + "linh" + " " + "năm" + " " + "nghìn" + " " + "đồng" == " linh năm nghìn đồng"
  {
  }

  lemma FourAndFour(high: seq<Word>, low: seq<Word>)
    requires high == [Digit(1), Trieu, Digit(0), Tram] && low == [Linh, Digit(5), Nghin, Dong]
    requires GoText(1_005_000) == high + low
    ensures Says(1_005_000, "một triệu không trăm linh năm nghìn đồng")
  {
    hide GoText, Spaced, Says;
    SpacedFour(Digit(1), Trieu, Digit(0), Tram);
    SpacedFour(Linh, Digit(5), Nghin, Dong);
    SpacedAppend(high, low);
    var text := "một triệu không trăm linh năm nghìn đồng";
    assert Spaced(high + low) == " " + text by {
      assert Spelling(Digit(1)) == "một" && Spelling(Trieu) == "triệu" && Spelling(Digit(0)) == "không";
      assert Spelling(Tram) == "trăm" && Spelling(Linh) == "linh" && Spelling(Digit(5)) == "năm";
      assert Spelling(Nghin) == "nghìn" && Spelling(Dong) == "đồng";
      EightJoined();
    }
    Rendered(1_005_000, high + low, text);
  }
}
