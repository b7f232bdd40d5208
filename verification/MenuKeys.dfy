/** Direct keys for the entries of the user menu. */
module MenuKeys {
  import opened UserMenu

  datatype Key = NoKey | Color(c: nat) | Digit(d: nat)

  const YELLOW := Color(2)
  const BLUE := Color(3)

  /** How many digit keys are gone when number_key has this value: 1 to 9 are given out, then 0. */
  function DigitsGone(numberKey: nat): nat
    requires numberKey <= 10
  {
    if numberKey == 0 then 9 else if numberKey == 10 then 10 else numberKey - 1
  }

  /** The digit that is given out as number n, counting from 0. */
  function DigitKey(n: nat): Key {
    if n < 9 then Digit(n + 1) else Digit(0)
  }

  /** CKeyHelper: which direct keys are still free. */
  class KeyHelper {
    var numberKey: nat
    const colorKeyUsed: array<bool>

    ghost predicate Valid()
      reads this
    {
      numberKey <= 10 && colorKeyUsed.Length == 4
    }

    ghost predicate Taken(key: Key)
      reads this, colorKeyUsed
      requires Valid()
    {
      match key
      case NoKey => false
      case Color(c) => c < 4 && colorKeyUsed[c]
      case Digit(d) => d < 10 && if d == 0 then numberKey == 10 else d <= DigitsGone(numberKey)
    }

    constructor ()
      ensures Valid() && numberKey == 1 && fresh(colorKeyUsed) && forall key :: !Taken(key)
    {
      numberKey := 1;
      colorKeyUsed := new bool[4](_ => false);
    }

    /** The preferred color if it is free, or else the next digit; no key once all digits are gone. */
    method Get(preferred: Key) returns (ok: bool, key: Key)
      requires Valid()
      modifies this`numberKey, colorKeyUsed
      ensures Valid() && (ok <==> key != NoKey)
      ensures ok ==> !old(Taken(key)) && forall k :: Taken(k) <==> k == key || old(Taken(k))
      ensures preferred.Color? && preferred.c < 4 && !old(Taken(preferred)) ==> key == preferred
      ensures !(preferred.Color? && preferred.c < 4 && !old(Taken(preferred))) ==>
                key == if old(DigitsGone(numberKey)) < 10 then DigitKey(old(DigitsGone(numberKey))) else NoKey
      ensures !ok ==> forall k :: Taken(k) <==> old(Taken(k))
      ensures DigitsGone(numberKey) <= old(DigitsGone(numberKey)) + 1
    {
      ok, key := false, NoKey;
      if preferred.Color? && preferred.c < 4 && !colorKeyUsed[preferred.c] {
        colorKeyUsed[preferred.c] := true;
        ok, key := true, preferred;
      }
      if !ok && numberKey < 10 {
        key := Digit(numberKey);
        if numberKey == 9 {
          numberKey := 0;
        } else if numberKey == 0 {
          numberKey := 10;
        } else {
          numberKey := numberKey + 1;
        }
        ok := true;
      }
    }
  }

  datatype Shown = Shown(item: int, key: Key)

  function Preferred(item: int): Key {
    if item == 1 then YELLOW else if item == 2 then BLUE else NoKey
  }

  /** No direct key stands for two entries. */
  predicate OwnKeys(menu: seq<Shown>) {
    forall j, k :: 0 <= j < k < |menu| && menu[j].key != NoKey ==> menu[j].key != menu[k].key
  }

  function ShownItems(menu: seq<Shown>): (items: seq<int>)
    ensures |items| == |menu|
  {
    seq(|menu|, k requires 0 <= k < |menu| => menu[k].item)
  }

  lemma ShownMore(menu: seq<Shown>, s: Shown)
    ensures ShownItems(menu + [s]) == ShownItems(menu) + [s.item]
  {
  }

  lemma OwnMore(menu: seq<Shown>, s: Shown)
    requires OwnKeys(menu) && forall k :: 0 <= k < |menu| ==> menu[k].key == NoKey || menu[k].key != s.key
    ensures OwnKeys(menu + [s])
  {
  }

  lemma ItemsUpTo(table: seq<int>, pos: nat)
    requires pos < |table|
    ensures Items(table[..pos + 1]) == Items(table[..pos]) + One(table[pos])
  {
    ItemsConcat(table[..pos], [table[pos]]);
    assert Items([table[pos]]) == One(table[pos]) + Items([table[pos]][1..]);
    assert table[..pos + 1] == table[..pos] + [table[pos]];
  }

  /** The keys in the menu are taken; the digits gone are at most its entries. */
  ghost predicate KeysOf(menu: seq<Shown>, keys: KeyHelper)
    reads keys, keys.colorKeyUsed
  {
    && keys.Valid() && OwnKeys(menu) && DigitsGone(keys.numberKey) <= |menu|
    && forall k :: 0 <= k < |menu| ==> (menu[k].key == NoKey || keys.Taken(menu[k].key)) && (k < 10 ==> menu[k].key != NoKey)
  }

  /** One entry is added. */
  method AddItem(menu: seq<Shown>, item: int, keys: KeyHelper) returns (more: seq<Shown>)
    requires KeysOf(menu, keys)
    modifies keys, keys.colorKeyUsed
    ensures KeysOf(more, keys) && ShownItems(more) == ShownItems(menu) + [item]
  {
    var ok, key := keys.Get(Preferred(item));
    more := menu + [Shown(item, key)];
    ShownMore(menu, Shown(item, key));
    OwnMore(menu, Shown(item, key));
  }

  /** The user menu shows exactly the items of its table, in order, no two of them under one key,
      and at least the first ten with a key. */
  method ShowUserMenu(table: seq<int>) returns (menu: seq<Shown>)
    requires |table| == ITEM_MAX && InRange(table)
    ensures ShownItems(menu) == Items(table) && OwnKeys(menu)
    ensures forall k :: 0 <= k < |menu| && k < 10 ==> menu[k].key != NoKey
  {
    var keys := new KeyHelper();
    var pos := 0;
    menu := [];
    while pos < ITEM_MAX
      invariant 0 <= pos <= ITEM_MAX && fresh(keys) && fresh(keys.colorKeyUsed)
      invariant KeysOf(menu, keys) && ShownItems(menu) == Items(table[..pos])
    {
      ItemsUpTo(table, pos);
      if table[pos] != 0 {
        menu := AddItem(menu, table[pos], keys);
      }
      pos := pos + 1;
    }
    assert table[..pos] == table;
  }
}
