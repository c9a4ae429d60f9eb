/** Duration strings such as "1d2h30m": the destructive parser, and the grammar it accepts. */
module Duration {
  import opened Wrappers
  import opened Text

  datatype Unit = Day | Hour | Minute | Second

  const UNITS: seq<Unit> := [Day, Hour, Minute, Second]

  function Rank(u: Unit): nat {
    match u case Day => 0 case Hour => 1 case Minute => 2 case Second => 3
  }

  function Letter(u: Unit): char {
    match u case Day => 'd' case Hour => 'h' case Minute => 'm' case Second => 's'
  }

  /** `n` units in nanoseconds. */
  function Scaled(n: int, u: Unit): int
    decreases match u case Day => 3 case Hour => 2 case Minute => 1 case Second => 0
  {
    match u
    case Day => 24 * Scaled(n, Hour)
    case Hour => 60 * Scaled(n, Minute)
    case Minute => 60 * Scaled(n, Second)
    case Second => 1_000_000_000 * n
  }

  // ----- 64-bit arithmetic -----

  lemma WrapShift(x: int)
    ensures Wrap(x + TWO64) == Wrap(x)
  {
  }

  /** Wrapping an operand first makes no difference to a wrapped sum. */
  lemma {:induction false} WrapSum(a: int, b: int)
    ensures Wrap(Wrap(a) + b) == Wrap(a + b)
    decreases if a > INT64_MAX then a - INT64_MAX else if a < INT64_MIN then INT64_MIN - a else 0
  {
    if a > INT64_MAX {
      WrapSum(a - TWO64, b);
      WrapShift(a - TWO64 + b);
    } else if a < INT64_MIN {
      WrapSum(a + TWO64, b);
      WrapShift(a + b);
    }
  }

  lemma WrapBoth(a: int, b: int)
    ensures Wrap(Wrap(a) + Wrap(b)) == Wrap(a + b)
  {
    WrapSum(a, Wrap(b));
    WrapSum(b, a);
  }

  /** A wrapped number differs from the number by a multiple of 2^64. */
  predicate Congruent(x: int, y: int) {
    (x - y) % 0x1_0000_0000_0000_0000 == 0
  }

  lemma {:induction false} WrapIsModular(x: int)
    ensures Congruent(x, Wrap(x))
    decreases if x > INT64_MAX then x - INT64_MAX else if x < INT64_MIN then INT64_MIN - x else 0
  {
    if x > INT64_MAX {
      WrapIsModular(x - TWO64);
    } else if x < INT64_MIN {
      WrapIsModular(x + TWO64);
    }
  }

  // ----- the parser -----

  datatype ParseError = Empty | InvalidPart | Unrecognized

  function IndexOf(s: string, c: char): (r: Option<nat>)
    ensures r.None? ==> c !in s
    ensures r.Some? ==> r.value < |s| && s[r.value] == c && c !in s[..r.value]
  {
    if s == "" then None
    else if s[0] == c then Some(0)
    else
      var r := IndexOf(s[1..], c);
      assert s == [s[0]] + s[1..];
      if r.None? then None
      else
        assert s[..r.value + 1] == [s[0]] + s[1..][..r.value];
        Some(r.value + 1)
  }

  /** The number in front of a unit; none at all counts as zero. */
  function Number(part: string): Option<int64> {
    if part == "" then Some(0) else Atoi(part)
  }

  lemma NumberOfEmpty()
    ensures Atoi("0") == Some(0)
  {
    assert Print(0) == "0";
    AtoiInvertsPrintInt(0);
  }

  /** A number, possibly absent, the value it has, and its unit. */
  datatype Item = Item(number: string, value: int64, units: Unit)

  function Worth(item: Item): int {
    Scaled(item.value, item.units)
  }

  /** How the units from the `k`-th on cut up the text `d` that is left after `done`. */
  function SplitFrom(done: seq<Item>, d: string, k: nat): Result<seq<Item>, ParseError>
    requires k <= 4
    decreases |d| + (4 - k)
  {
    if k == 4 then
      if d == "" then Ok(done) else Err(Unrecognized)
    else
      var at := IndexOf(d, Letter(UNITS[k]));
      if at.None? then SplitFrom(done, d, k + 1)
      else
        var part := d[..at.value];
        if Number(part).None? then Err(InvalidPart)
        else SplitFrom(done + [Item(part, Number(part).value, UNITS[k])], d[at.value + 1..], k)
  }

  function Worths(items: seq<Item>): (ws: seq<int>)
    ensures |ws| == |items|
  {
    seq(|items|, i requires 0 <= i < |items| => Worth(items[i]))
  }

  /** The running total, every product and every sum wrapping around. */
  function Accumulated(ws: seq<int>): int64 {
    if ws == [] then 0 else Wrap(Accumulated(ws[..|ws| - 1]) + Wrap(ws[|ws| - 1]))
  }

  function Parse(text: string): Result<int64, ParseError> {
    if TrimSpace(text) == "" then Err(Empty)
    else match SplitFrom([], TrimSpace(text), 0)
      case Ok(items) => Ok(Accumulated(Worths(items)))
      case Err(e) => Err(e)
  }

  method ParsePart(text: string) returns (n: Option<int64>)
    ensures n == Number(text)
  {
    var part := text;
    if part == "" {
      part := "0";
      NumberOfEmpty();
    }
    n := Atoi(part);
  }

  /** The inner loop: takes every part that ends in the `k`-th unit off the front of the text. */
  method ParseUnit(text: string, k: nat, before: int64, ghost given: seq<Item>)
    returns (ok: bool, d: string, total: int64, ghost done: seq<Item>)
    requires k < 4 && before == Accumulated(Worths(given))
    ensures ok ==> SplitFrom(given, text, k) == SplitFrom(done, d, k + 1) && total == Accumulated(Worths(done))
    ensures !ok ==> SplitFrom(given, text, k) == Err(InvalidPart)
  {
    var u := UNITS[k];
    ok, d, total, done := true, text, before, given;
    var at := IndexOf(d, Letter(u));
    while at.Some?
      invariant at == IndexOf(d, Letter(u))
      invariant SplitFrom(given, text, k) == SplitFrom(done, d, k)
      invariant total == Accumulated(Worths(done))
      decreases |d|
    {
      ok, total, done := TakePart(d, k, at.value, total, done);
      if !ok {
        return;
      }
      d := d[at.value + 1..];
      at := IndexOf(d, Letter(u));
    }
    SplitSkips(done, d, k);
  }

  /** The body of the inner loop. */
  method TakePart(d: string, k: nat, at: nat, before: int64, ghost given: seq<Item>) returns (ok: bool, total: int64, ghost done: seq<Item>)
    requires k < 4 && IndexOf(d, Letter(UNITS[k])) == Some(at) && before == Accumulated(Worths(given))
    ensures ok ==> SplitFrom(given, d, k) == SplitFrom(done, d[at + 1..], k) && total == Accumulated(Worths(done))
    ensures !ok ==> SplitFrom(given, d, k) == Err(InvalidPart)
  {
    var n := ParsePart(d[..at]);
    SplitNext(given, d, k, at, n);
    ok, total, done := n.Some?, before, given;
    if ok {
      var item := Item(d[..at], n.value, UNITS[k]);
      total := AddItem(item, before, given);
      done := given + [item];
    }
  }

  method AddItem(item: Item, before: int64, ghost given: seq<Item>) returns (total: int64)
    requires before == Accumulated(Worths(given))
    ensures total == Accumulated(Worths(given + [item]))
  {
    AccumulatedAppend(given, item);
    total := Wrap(before + Wrap(Worth(item)));
  }

  lemma SplitSkips(done: seq<Item>, d: string, k: nat)
    requires k < 4 && IndexOf(d, Letter(UNITS[k])).None?
    ensures SplitFrom(done, d, k) == SplitFrom(done, d, k + 1)
  {
  }

  /** One part more is taken off the front. */
  lemma SplitNext(done: seq<Item>, d: string, k: nat, at: nat, n: Option<int64>)
    requires k < 4 && IndexOf(d, Letter(UNITS[k])) == Some(at) && n == Number(d[..at])
    ensures n.None? ==> SplitFrom(done, d, k) == Err(InvalidPart)
    ensures n.Some? ==> SplitFrom(done, d, k) == SplitFrom(done + [Item(d[..at], n.value, UNITS[k])], d[at + 1..], k)
  {
  }

  method ParseDuration(text: string) returns (r: Result<int64, ParseError>)
    ensures r == Parse(text)
  {
    var d := TrimSpace(text);
    if |d| == 0 {
      return Err(Empty);
    }
    var total: int64 := 0;
    ghost var done: seq<Item> := [];
    for k := 0 to 4
      invariant SplitFrom([], TrimSpace(text), 0) == SplitFrom(done, d, k)
      invariant total == Accumulated(Worths(done))
    {
      var ok;
      ok, d, total, done := ParseUnit(d, k, total, done);
      if !ok {
        return Err(InvalidPart);
      }
    }
    if |d| > 0 {
      return Err(Unrecognized);
    }
    return Ok(total);
  }

  lemma AccumulatedAppend(items: seq<Item>, item: Item)
    ensures Accumulated(Worths(items + [item])) == Wrap(Accumulated(Worths(items)) + Wrap(Worth(item)))
  {
    var ws := Worths(items + [item]);
    assert ws == Worths(items) + [Worth(item)];
    assert ws[..|ws| - 1] == Worths(items);
  }

  // ----- the grammar -----

  function Render(items: seq<Item>): string {
    if items == [] then "" else items[0].number + ([Letter(items[0].units)] + Render(items[1..]))
  }

  predicate IsNumber(item: Item) {
    Number(item.number) == Some(item.value)
  }

  /** Units in the order d*, h*, m*, s*, starting no earlier than rank `k`, each after a number. */
  predicate WellFormed(items: seq<Item>, k: nat) {
    items == [] ||
    (k <= Rank(items[0].units) && IsNumber(items[0]) && WellFormed(items[1..], Rank(items[0].units)))
  }

  function Sum(ws: seq<int>): int {
    if ws == [] then 0 else Sum(ws[..|ws| - 1]) + ws[|ws| - 1]
  }

  /** The weighted sum, as a mathematical integer. */
  function Total(items: seq<Item>): int {
    Sum(Worths(items))
  }

  lemma {:induction false} AccumulatedIsSum(ws: seq<int>)
    ensures Accumulated(ws) == Wrap(Sum(ws))
  {
    if ws != [] {
      AccumulatedIsSum(ws[..|ws| - 1]);
      WrapBoth(Sum(ws[..|ws| - 1]), ws[|ws| - 1]);
    }
  }

  lemma NumberHasNoLetter(number: string, u: Unit)
    requires Number(number).Some?
    ensures Letter(u) !in number
  {
    if number != "" {
      var signed := number[0] == '-' || number[0] == '+';
      var digits := if signed then number[1..] else number;
      assert AllDigits(digits);
      forall i | 0 <= i < |number|
        ensures number[i] != Letter(u)
      {
        if signed && i > 0 {
          assert number[i] == digits[i - 1];
        }
      }
    }
  }

  lemma {:induction false} LaterUnitsLackLetter(items: seq<Item>, k: nat, u: Unit)
    requires WellFormed(items, k) && Rank(u) < k
    ensures Letter(u) !in Render(items)
  {
    if items != [] {
      NumberHasNoLetter(items[0].number, u);
      LaterUnitsLackLetter(items[1..], Rank(items[0].units), u);
    }
  }

  lemma FirstIndex(part: string, c: char, rest: string)
    requires c !in part
    ensures IndexOf(part + ([c] + rest), c) == Some(|part|)
  {
    var s := part + ([c] + rest);
    assert s[|part|] == c;
    var at := IndexOf(s, c);
    assert forall i | 0 <= i < |part| :: s[i] == part[i];
    assert forall j | |part| < j <= |s| :: s[..j][|part|] == c;
  }

  lemma SplitItem(done: seq<Item>, item: Item, rest: string, k: nat)
    requires k < 4 && item.units == UNITS[k] && IsNumber(item)
    ensures SplitFrom(done, item.number + ([Letter(item.units)] + rest), k) == SplitFrom(done + [item], rest, k)
  {
    var d := item.number + ([Letter(item.units)] + rest);
    NumberHasNoLetter(item.number, item.units);
    FirstIndex(item.number, Letter(item.units), rest);
    assert d[..|item.number|] == item.number && d[|item.number| + 1..] == rest;
  }

  lemma NoSuchUnit(items: seq<Item>, k: nat)
    requires k < 4 && WellFormed(items, k) && (items == [] || Rank(items[0].units) > k)
    ensures WellFormed(items, k + 1) && IndexOf(Render(items), Letter(UNITS[k])).None?
  {
    assert Rank(UNITS[k]) == k;
    LaterUnitsLackLetter(items, k + 1, UNITS[k]);
  }

  lemma {:induction false} SplitOfRender(done: seq<Item>, items: seq<Item>, k: nat)
    requires k <= 4 && WellFormed(items, k)
    ensures SplitFrom(done, Render(items), k) == Ok(done + items)
    decreases |items| + (4 - k)
  {
    if k == 4 {
      assert items == [] && done + items == done;
    } else if items == [] || Rank(items[0].units) > k {
      NoSuchUnit(items, k);
      SplitSkips(done, Render(items), k);
      SplitOfRender(done, items, k + 1);
    } else {
      assert items[0].units == UNITS[k];
      SplitItem(done, items[0], Render(items[1..]), k);
      SplitOfRender(done + [items[0]], items[1..], k);
      assert done + [items[0]] + items[1..] == done + items;
    }
  }

  lemma ConsIsWellFormed(item: Item, items: seq<Item>)
    requires IsNumber(item) && WellFormed(items, Rank(item.units))
    ensures WellFormed([item] + items, Rank(item.units))
    ensures Render([item] + items) == item.number + ([Letter(item.units)] + Render(items))
  {
    assert ([item] + items)[1..] == items;
  }

  lemma TakeApart(d: string, at: nat, c: char)
    requires at < |d| && d[at] == c
    ensures d == d[..at] + ([c] + d[at + 1..])
  {
  }

  lemma Regroup(done: seq<Item>, item: Item, more: seq<Item>)
    ensures done + [item] + more == done + ([item] + more)
  {
  }

  lemma {:induction false} RenderOfSplit(done: seq<Item>, d: string, k: nat) returns (items: seq<Item>)
    requires k <= 4 && SplitFrom(done, d, k).Ok?
    ensures SplitFrom(done, d, k).value == done + items && WellFormed(items, k) && Render(items) == d
    decreases |d| + (4 - k)
  {
    if k == 4 {
      items := [];
    } else {
      var u := UNITS[k];
      var at := IndexOf(d, Letter(u));
      if at.None? {
        items := RenderOfSplit(done, d, k + 1);
        LowerRank(items, k);
      } else {
        items := RenderOfItem(done, d, k, u, at.value);
      }
    }
  }

  lemma {:induction false} RenderOfItem(done: seq<Item>, d: string, k: nat, u: Unit, at: nat) returns (items: seq<Item>)
    requires k < 4 && SplitFrom(done, d, k).Ok? && u == UNITS[k] && IndexOf(d, Letter(u)) == Some(at)
    ensures SplitFrom(done, d, k).value == done + items && WellFormed(items, k) && Render(items) == d
    decreases |d| + (4 - k), 0
  {
    SplitNext(done, d, k, at, Number(d[..at]));
    var item := Item(d[..at], Number(d[..at]).value, u);
    var more := RenderOfSplit(done + [item], d[at + 1..], k);
    items := [item] + more;
    Regroup(done, item, more);
    RenderOfCons(item, more, d, at, k);
  }

  lemma RenderOfCons(item: Item, more: seq<Item>, d: string, at: nat, k: nat)
    requires k < 4 && item.units == UNITS[k] && IsNumber(item) && WellFormed(more, k)
    requires at < |d| && d[at] == Letter(item.units) && item.number == d[..at] && Render(more) == d[at + 1..]
    ensures WellFormed([item] + more, k) && Render([item] + more) == d
  {
    assert Rank(item.units) == k;
    ConsIsWellFormed(item, more);
    TakeApart(d, at, Letter(item.units));
  }

  lemma LowerRank(items: seq<Item>, k: nat)
    requires WellFormed(items, k + 1)
    ensures WellFormed(items, k)
  {
  }

  /** The text is a sentence of the grammar, cut up into `items`. */
  ghost predicate Derives(items: seq<Item>, text: string) {
    WellFormed(items, 0) && Render(items) == TrimSpace(text) != ""
  }

  /** The parser accepts exactly the sentences of the grammar. */
  lemma AcceptsTheGrammar(text: string)
    ensures Parse(text).Ok? <==> exists items :: Derives(items, text)
  {
    if Parse(text).Ok? {
      var items := RenderOfSplit([], TrimSpace(text), 0);
      assert Derives(items, text);
    }
    if items :| Derives(items, text) {
      SplitOfRender([], items, 0);
    }
  }

  /** A sentence has one derivation only. */
  lemma DerivationIsUnique(items: seq<Item>, others: seq<Item>)
    requires WellFormed(items, 0) && WellFormed(others, 0) && Render(items) == Render(others)
    ensures items == others
  {
    SplitOfRender([], items, 0);
    SplitOfRender([], others, 0);
    assert [] + items == items && [] + others == others;
  }

  /** The result is the weighted sum modulo 2^64: the sum itself exactly when it fits in 64 bits. */
  lemma ReturnsTheWeightedSum(items: seq<Item>, text: string)
    requires Derives(items, text)
    ensures Parse(text) == Ok(Wrap(Total(items)))
    ensures Congruent(Total(items), Parse(text).value)
    ensures Parse(text) == Ok(Total(items)) <==> INT64_MIN <= Total(items) <= INT64_MAX
  {
    WrapIsModular(Total(items));
    SplitOfRender([], items, 0);
    assert [] + items == items;
    AccumulatedIsSum(Worths(items));
  }

  // ----- a canonical printer -----

  /** Days, hours, minutes and seconds of a whole number of seconds. */
  function CanonicalItems(seconds: nat): seq<Item>
    requires seconds / 86400 <= INT64_MAX
  {
    [PrintedItem(seconds / 86400, Day), PrintedItem(seconds / 3600 % 24, Hour),
     PrintedItem(seconds / 60 % 60, Minute), PrintedItem(seconds % 60, Second)]
  }

  function PrintedItem(n: int64, u: Unit): Item
    requires n >= 0
  {
    Item(Print(n), n, u)
  }

  lemma NumberOfPrint(n: int64)
    requires n >= 0
    ensures Number(Print(n)) == Some(n)
  {
    AtoiInvertsPrintInt(n);
  }

  lemma {:induction false} RenderEndsInLetter(items: seq<Item>, k: nat)
    requires items != [] && WellFormed(items, k)
    ensures Render(items) != "" && Render(items)[|Render(items)| - 1] in "dhms"
  {
    if |items| > 1 {
      RenderEndsInLetter(items[1..], Rank(items[0].units));
    } else {
      assert items[1..] == [];
    }
  }

  lemma CanonicalItemsAreWellFormed(seconds: nat)
    requires seconds / 86400 <= INT64_MAX
    ensures WellFormed(CanonicalItems(seconds), 0)
  {
    var items := CanonicalItems(seconds);
    NumberOfPrint(seconds / 86400);
    NumberOfPrint(seconds / 3600 % 24);
    NumberOfPrint(seconds / 60 % 60);
    NumberOfPrint(seconds % 60);
    var one, two, three := items[1..], items[2..], items[3..];
    assert one[1..] == two && two[1..] == three && three[1..] == [];
    assert WellFormed(three, 2) && WellFormed(two, 1) && WellFormed(one, 0);
  }

  lemma SumOfOneMore(ws: seq<int>, w: int)
    ensures Sum(ws + [w]) == Sum(ws) + w
  {
    assert (ws + [w])[..|ws|] == ws;
  }

  lemma SumOfFour(a: int, b: int, c: int, d: int)
    ensures Sum([a, b, c, d]) == a + b + c + d
  {
    SumOfOneMore([], a);
    SumOfOneMore([a], b);
    SumOfOneMore([a, b], c);
    SumOfOneMore([a, b, c], d);
    assert [] + [a] == [a] && [a] + [b] == [a, b] && [a, b] + [c] == [a, b, c] && [a, b, c] + [d] == [a, b, c, d];
  }

  lemma CanonicalTotal(seconds: nat)
    requires seconds / 86400 <= INT64_MAX
    ensures Total(CanonicalItems(seconds)) == seconds * 1_000_000_000
  {
    var items := CanonicalItems(seconds);
    SumOfFour(Worth(items[0]), Worth(items[1]), Worth(items[2]), Worth(items[3]));
    assert Worths(items) == [Worth(items[0]), Worth(items[1]), Worth(items[2]), Worth(items[3])];
    MixedRadix(seconds);
  }

  lemma MixedRadix(seconds: nat)
    ensures seconds == seconds / 86400 * 86400 + seconds / 3600 % 24 * 3600 + seconds / 60 % 60 * 60 + seconds % 60
  {
    var minutes := seconds / 60;
    var hours := minutes / 60;
    assert seconds / 3600 == hours && seconds / 86400 == hours / 24;
    assert seconds == 60 * minutes + seconds % 60;
    assert minutes == 60 * hours + minutes % 60;
    assert hours == 24 * (hours / 24) + hours % 24;
  }

  lemma CanonicalIsTrimmed(seconds: nat)
    requires seconds / 86400 <= INT64_MAX
    ensures Trimmed(Render(CanonicalItems(seconds))) && Render(CanonicalItems(seconds)) != ""
  {
    var items := CanonicalItems(seconds);
    CanonicalItemsAreWellFormed(seconds);
    RenderEndsInLetter(items, 0);
    StartsWithNumber(items);
  }

  lemma StartsWithNumber(items: seq<Item>)
    requires items != [] && items[0].number != "" && IsDigit(items[0].number[0])
    ensures Render(items) != "" && IsDigit(Render(items)[0])
  {
    assert Render(items)[0] == items[0].number[0];
  }

  /** The same as text. */
  function CanonicalText(seconds: nat): string {
    Print(seconds / 86400) + "d" + Print(seconds / 3600 % 24) + "h" + Print(seconds / 60 % 60) + "m" + Print(seconds % 60) + "s"
  }

  lemma RenderOne(item: Item, rest: seq<Item>)
    ensures Render([item] + rest) == item.number + [Letter(item.units)] + Render(rest)
  {
    assert ([item] + rest)[1..] == rest;
  }

  lemma RenderIsText(seconds: nat)
    requires seconds / 86400 <= INT64_MAX
    ensures Render(CanonicalItems(seconds)) == CanonicalText(seconds)
  {
    var items := CanonicalItems(seconds);
    FourRendered(items[0], items[1], items[2], items[3]);
    assert items == [items[0], items[1], items[2], items[3]];
  }

  lemma FourRendered(a: Item, b: Item, c: Item, d: Item)
    ensures Render([a, b, c, d]) ==
            a.number + [Letter(a.units)] + b.number + [Letter(b.units)] + c.number + [Letter(c.units)] + d.number + [Letter(d.units)]
  {
    RenderOne(d, []);
    RenderOne(c, [d]);
    RenderOne(b, [c, d]);
    RenderOne(a, [b, c, d]);
    assert [d] + [] == [d] && [c] + [d] == [c, d] && [b] + [c, d] == [b, c, d] && [a] + [b, c, d] == [a, b, c, d];
  }

  /** Parsing undoes printing for every whole number of seconds a duration can hold. */
  lemma ParseInvertsPrint(seconds: nat)
    requires seconds * 1_000_000_000 <= INT64_MAX
    ensures Parse(CanonicalText(seconds)) == Ok(seconds * 1_000_000_000)
  {
    var items := CanonicalItems(seconds);
    RenderIsText(seconds);
    CanonicalItemsAreWellFormed(seconds);
    CanonicalTotal(seconds);
    CanonicalIsTrimmed(seconds);
    ReturnsTheWeightedSum(items, Render(items));
  }
}
