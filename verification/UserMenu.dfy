/** The user menu's items in the configuration file. */
module UserMenu {
  import opened Decimal

  const ITEM_MAX: nat := 11

  function One(x: int): seq<int> {
    if x == 0 then [] else [x]
  }

  /** The items a table shows: its entries but the empty ones, in order. */
  function Items(table: seq<int>): (items: seq<int>)
    ensures |items| <= |table|
  {
    if table == [] then [] else One(table[0]) + Items(table[1..])
  }

  predicate InRange(table: seq<int>) {
    forall k :: 0 <= k < |table| ==> 0 <= table[k] < ITEM_MAX
  }

  predicate AllItems(items: seq<int>) {
    forall k :: 0 <= k < |items| ==> 0 < items[k] < ITEM_MAX
  }

  function Number(n: int): (s: string)
    ensures s != ""
  {
    if n < 0 then "-" + Digits(-n) else Digits(n)
  }

  function Piece(x: int, first: bool): string {
    if x == 0 then "" else (if first then "" else ",") + Number(x)
  }

  /** What saving prints for the entries from a position on. */
  function Printed(table: seq<int>, first: bool): string {
    if table == [] then "" else Piece(table[0], first) + Printed(table[1..], false)
  }

  /** What is saved: when there is nothing to print, the text the buffer had before. */
  function Saved(table: seq<int>, buffer: string): string {
    if Printed(table, true) == "" then buffer else Printed(table, true)
  }

  lemma JoinedThree(a: string, b: string, c: string)
    ensures a + b + c == a + (b + c) && a + "" == a
    ensures c != "" ==> a + (b + c) != ""
  {
  }

  /** One position. */
  method SaveItem(x: int, first: bool, out: string, was: string) returns (next: string, text: string)
    ensures next == out + Piece(x, first)
    ensures text == if x == 0 then was else next
    ensures x != 0 ==> next != ""
  {
    next, text := out, was;
    if x != 0 {
      JoinedThree(out, if first then "" else ",", Number(x));
      if !first {
        next := next + ",";
      }
      next := next + Number(x);
      text := next;
    }
  }

  /** What is still to be printed at a position. */
  function Left(table: seq<int>, pos: nat): string
    requires pos <= |table|
  {
    Printed(table[pos..], pos == 0)
  }

  lemma LeftStep(table: seq<int>, pos: nat, out: string)
    requires pos < |table|
    ensures out + Left(table, pos) == (out + Piece(table[pos], pos == 0)) + Left(table, pos + 1)
  {
    assert table[pos..][1..] == table[pos + 1..];
  }

  lemma LeftEnds(table: seq<int>)
    ensures Left(table, 0) == Printed(table, true) && Left(table, |table|) == ""
  {
    assert table[0..] == table;
  }

  method SaveItems(table: seq<int>, buffer: string) returns (text: string)
    requires |table| == ITEM_MAX
    ensures text == Saved(table, buffer)
  {
    var out, pos := "", 0;
    text := buffer;
    LeftEnds(table);
    while pos < ITEM_MAX
      invariant 0 <= pos <= ITEM_MAX
      invariant out + Left(table, pos) == Printed(table, true)
      invariant text == if out == "" then buffer else out
    {
      LeftStep(table, pos, out);
      out, text := SaveItem(table[pos], pos == 0, out, text);
      pos := pos + 1;
    }
  }

  lemma {:induction false} NothingPrinted(table: seq<int>, first: bool)
    ensures Printed(table, first) == "" <==> Items(table) == []
  {
    if table != [] {
      NothingPrinted(table[1..], false);
    }
  }

  lemma {:induction false} ItemsConcat(a: seq<int>, b: seq<int>)
    ensures Items(a + b) == Items(a) + Items(b)
  {
    if a != [] {
      assert (a + b)[1..] == a[1..] + b;
      ItemsConcat(a[1..], b);
    } else {
      assert a + b == b;
    }
  }

  // Reading

  function DigitRun(s: string): (k: nat)
    ensures k <= |s| && AllDigits(s[..k])
    ensures k < |s| ==> !IsDigit(s[k])
  {
    if s != "" && IsDigit(s[0]) then
      var k := 1 + DigitRun(s[1..]);
      assert s[1..][..k - 1] == s[1..k];
      k
    else 0
  }

  function Unsigned(s: string): nat {
    Value(s[..DigitRun(s)])
  }

  function Atoi(s: string): int {
    var t := SkipSpace(s);
    if t != "" && t[0] == '-' then 0 - Unsigned(t[1..])
    else if t != "" && t[0] == '+' then Unsigned(t[1..])
    else Unsigned(t)
  }

  function Entry(s: string): int {
    if s == "" then 0 else var n := Atoi(s); if n >= ITEM_MAX then 0 else n
  }

  function AfterComma(s: string): (r: string)
    ensures |r| <= |s|
  {
    if s == "" then "" else if s[0] == ',' then s[1..] else AfterComma(s[1..])
  }

  function Parsed(s: string, n: nat): (table: seq<int>)
    ensures |table| == n
    decreases n
  {
    if n == 0 then [] else [Entry(s)] + Parsed(AfterComma(s), n - 1)
  }

  method SkipToComma(s: string) returns (r: string)
    ensures r == AfterComma(s)
  {
    r := s;
    while r != "" && r[0] != ','
      invariant AfterComma(r) == AfterComma(s)
      decreases |r|
    {
      r := r[1..];
    }
    if r != "" {
      r := r[1..];
    }
  }

  /** What is left of the text at a position. */
  function RestAt(s: string, pos: nat): string {
    if pos == 0 then s else AfterComma(RestAt(s, pos - 1))
  }

  predicate ReadSoFar(text: string, table: seq<int>) {
    forall k :: 0 <= k < |table| ==> table[k] == Entry(RestAt(text, k))
  }

  lemma OneMore(text: string, table: seq<int>, rest: string, entry: int)
    requires ReadSoFar(text, table) && rest == RestAt(text, |table|) && entry == Entry(rest)
    ensures ReadSoFar(text, table + [entry])
  {
  }

  method LoadItem(rest: string) returns (entry: int)
    ensures entry == Entry(rest)
  {
    entry := 0;
    if rest != "" {
      entry := Atoi(rest);
      if entry >= ITEM_MAX {
        entry := 0;
      }
    }
  }

  method LoadItems(text: string) returns (table: seq<int>)
    ensures table == Parsed(text, ITEM_MAX)
  {
    var rest, pos := text, 0;
    table := [];
    while pos < ITEM_MAX
      invariant 0 <= pos <= ITEM_MAX && |table| == pos
      invariant pos == 0 ==> rest == text
      invariant pos > 0 ==> rest == RestAt(text, pos - 1)
      invariant ReadSoFar(text, table)
    {
      if pos != 0 {
        rest := SkipToComma(rest);
      }
      var entry := LoadItem(rest);
      OneMore(text, table, rest, entry);
      table := table + [entry];
      pos := pos + 1;
    }
    ParsedIs(text, 0, text, ITEM_MAX, table);
  }

  lemma {:induction false} ParsedIs(text: string, pos: nat, rest: string, n: nat, table: seq<int>)
    requires rest == RestAt(text, pos) && |table| == pos + n && ReadSoFar(text, table)
    ensures table[pos..] == Parsed(rest, n)
    decreases n
  {
    if n > 0 {
      ParsedIs(text, pos + 1, AfterComma(rest), n - 1, table);
      assert table[pos..] == [table[pos]] + table[pos + 1..];
    }
  }

  // Saving and loading

  /** Items each with a comma before it. */
  function Joined(items: seq<int>): string {
    if items == [] then "" else "," + (Number(items[0]) + Joined(items[1..]))
  }

  /** Items separated by commas. */
  function Listed(items: seq<int>): string {
    if items == [] then "" else Number(items[0]) + Joined(items[1..])
  }

  lemma {:induction false} PrintedIsJoined(table: seq<int>)
    ensures Printed(table, false) == Joined(Items(table))
  {
    if table != [] {
      PrintedIsJoined(table[1..]);
      if table[0] != 0 {
        assert Items(table)[1..] == Items(table[1..]);
        assert Printed(table, false) == "," + Number(table[0]) + Joined(Items(table[1..]));
      } else {
        assert Items(table) == Items(table[1..]) && Printed(table, false) == Printed(table[1..], false);
      }
    }
  }

  /** An empty first entry leaves a comma in front. */
  lemma PrintedIs(table: seq<int>)
    requires table != []
    ensures Printed(table, true) == if table[0] != 0 then Listed(Items(table)) else Joined(Items(table))
  {
    PrintedIsJoined(table[1..]);
    assert Piece(0, true) == "";
    if table[0] != 0 {
      assert Items(table)[1..] == Items(table[1..]);
      assert Piece(table[0], true) == Number(table[0]);
    } else {
      assert Items(table) == Items(table[1..]);
    }
  }

  lemma {:induction false} DigitRunIs(d: string, t: string)
    requires AllDigits(d) && (t == "" || !IsDigit(t[0]))
    ensures DigitRun(d + t) == |d|
  {
    if d != "" {
      assert (d + t)[1..] == d[1..] + t;
      DigitRunIs(d[1..], t);
    }
  }

  lemma NumberRead(n: int, t: string)
    requires 0 < n < ITEM_MAX && (t == "" || !IsDigit(t[0]))
    ensures Entry(Number(n) + t) == n
  {
    DigitsRead(n);
    DigitRunIs(Digits(n), t);
    assert IsDigit((Digits(n) + t)[0]);
    assert (Digits(n) + t)[..|Digits(n)|] == Digits(n);
  }

  lemma {:induction false} NoCommaSkipped(d: string, t: string)
    requires AllDigits(d)
    ensures AfterComma(d + t) == AfterComma(t)
  {
    if d != "" {
      assert (d + t)[1..] == d[1..] + t;
      NoCommaSkipped(d[1..], t);
    } else {
      assert d + t == t;
    }
  }

  function Empty(n: nat): (table: seq<int>)
    ensures |table| == n
  {
    if n == 0 then [] else [0] + Empty(n - 1)
  }

  lemma {:induction false} NothingParsed(n: nat)
    ensures Parsed("", n) == Empty(n)
  {
    if n > 0 {
      NothingParsed(n - 1);
    }
  }

  lemma HeadAndRest(s: seq<int>, t: seq<int>)
    requires s != []
    ensures s + t == [s[0]] + (s[1..] + t)
  {
  }

  /** The first item of a list, and what is left behind its comma. */
  lemma ListedFirst(items: seq<int>)
    requires AllItems(items) && items != []
    ensures Entry(Listed(items)) == items[0] && AfterComma(Listed(items)) == Listed(items[1..])
  {
    var rest := Joined(items[1..]);
    NumberRead(items[0], rest);
    DigitsRead(items[0]);
    NoCommaSkipped(Digits(items[0]), rest);
    AfterFirst(items[1..]);
  }

  /** A list of items is read as these items, with empty entries behind them. */
  lemma {:induction false} ListedParsed(items: seq<int>, n: nat, empty: nat)
    requires AllItems(items) && |items| + empty == n
    ensures Parsed(Listed(items), n) == items + Empty(empty)
    decreases n
  {
    if items == [] {
      NothingParsed(n);
    } else {
      var rest, less := items[1..], n - 1;
      ListedFirst(items);
      ListedParsed(rest, less, empty);
      ParsedStep(Listed(items), n, less, Listed(rest), items[0], rest + Empty(empty));
      HeadAndRest(items, Empty(empty));
    }
  }

  lemma AfterFirst(rest: seq<int>)
    ensures AfterComma(Joined(rest)) == Listed(rest)
  {
    if rest != [] {
      assert Joined(rest)[1..] == Listed(rest);
    }
  }

  lemma ParsedStep(s: string, n: nat, less: nat, t: string, x: int, more: seq<int>)
    requires less + 1 == n && Entry(s) == x && AfterComma(s) == t && Parsed(t, less) == more
    ensures Parsed(s, n) == [x] + more
  {
  }

  /** The table that comes back: the items moved together, behind an empty first entry if the
      first entry was empty. */
  function Compact(table: seq<int>): seq<int> {
    var items := Items(table);
    if table == [] then []
    else if table[0] != 0 then items + Empty(|table| - |items|)
    else [0] + (items + Empty(|table| - 1 - |Items(table[1..])|))
  }

  lemma {:induction false} ItemsInRange(table: seq<int>)
    requires InRange(table)
    ensures AllItems(Items(table))
  {
    if table != [] {
      ItemsInRange(table[1..]);
    }
  }

  /** A list with a comma in front. */
  lemma JoinedParsed(items: seq<int>, n: nat, less: nat, empty: nat)
    requires AllItems(items) && items != [] && |items| + empty == less && less + 1 == n
    ensures Parsed(Joined(items), n) == [0] + (items + Empty(empty))
  {
    AfterFirst(items);
    ListedParsed(items, less, empty);
    assert Joined(items)[0] == ',' && DigitRun(Joined(items)) == 0;
    ParsedStep(Joined(items), n, less, Listed(items), 0, items + Empty(empty));
  }

  lemma SavedTable(table: seq<int>)
    requires InRange(table) && Items(table) != []
    ensures Parsed(Printed(table, true), |table|) == Compact(table)
  {
    var items := Items(table);
    ItemsInRange(table);
    PrintedIs(table);
    if table[0] != 0 {
      ListedParsed(items, |table|, |table| - |items|);
    } else {
      assert items == Items(table[1..]);
      JoinedParsed(items, |table|, |table| - 1, |table| - 1 - |items|);
    }
  }

  lemma {:induction false} ItemsOfAll(items: seq<int>)
    requires AllItems(items)
    ensures Items(items) == items
  {
    if items != [] {
      ItemsOfAll(items[1..]);
    }
  }

  lemma {:induction false} NoItems(n: nat)
    ensures Items(Empty(n)) == []
  {
    if n > 0 {
      NoItems(n - 1);
    }
  }

  lemma CompactItems(table: seq<int>)
    requires InRange(table)
    ensures Items(Compact(table)) == Items(table)
  {
    var items := Items(table);
    ItemsInRange(table);
    ItemsOfAll(items);
    if table != [] {
      var n := if table[0] != 0 then |table| - |items| else |table| - 1 - |Items(table[1..])|;
      NoItems(n);
      ItemsConcat(items, Empty(n));
      assert ([0] + (items + Empty(n)))[1..] == items + Empty(n);
    }
  }

  /** Saving and loading keeps the items shown, in order, if and only if there are any, or the
      buffer happens to hold a text without items. */
  lemma SaveThenLoad(table: seq<int>, buffer: string)
    requires |table| == ITEM_MAX && InRange(table)
    ensures Items(Parsed(Saved(table, buffer), ITEM_MAX)) == Items(table)
            <==> Items(table) != [] || Items(Parsed(buffer, ITEM_MAX)) == []
  {
    NothingPrinted(table, true);
    if Items(table) != [] {
      SavedTable(table);
      CompactItems(table);
    }
  }

  /** What was saved and loaded is saved as the same text again, whatever the buffer holds. */
  lemma SavedAgain(table: seq<int>)
    requires |table| == ITEM_MAX && InRange(table) && Items(table) != []
    ensures Items(Compact(table)) != [] && Printed(Compact(table), true) == Printed(table, true)
  {
    CompactItems(table);
    PrintedIs(table);
    PrintedIs(Compact(table));
    ItemsInRange(table);
    assert table[0] != 0 ==> Compact(table)[0] == Items(table)[0];
  }

  /** A table without items, saved after one that left "1" in the buffer, comes back with item 1. */
  lemma EmptyTableComesBack()
    ensures Items(Empty(ITEM_MAX)) == []
    ensures Saved(Empty(ITEM_MAX), "1") == "1" && Items(Parsed("1", ITEM_MAX)) == [1]
  {
    NoItems(ITEM_MAX);
    NothingPrinted(Empty(ITEM_MAX), true);
    assert Number(1) == "1" && Listed([1]) == "1";
    ListedParsed([1], ITEM_MAX, ITEM_MAX - 1);
    ItemsConcat([1], Empty(ITEM_MAX - 1));
    NoItems(ITEM_MAX - 1);
    assert Items([1]) == [1];
  }
}
