/** The orders in which the movie browser sorts. */
module MovieOrder {

  datatype Item =
    | FILENAME | FILEPATH | TITLE | SERIE | INFO1 | MAJOR_GENRE | MINOR_GENRE | INFO2 | PARENTAL_LOCKAGE | CHANNEL
    | BOOKMARK | QUALITY | PREVPLAYDATE | RECORDDATE | PRODDATE | COUNTRY | GEOMETRIE | AUDIO | LENGTH | SIZE | MAX_NUMBER

  datatype Direction = AUTO | UP | DOWN

  datatype Info = Info(name: string, title: string, info1: string, channel: string, serie: string, majorGenre: int,
                       dirNr: int, age: int, quality: int, lastPlay: int, time: int, size: int)

  function Lower(c: char): int {
    if 'A' <= c <= 'Z' then c as int + 32 else c as int
  }

  /** lexicographical_compare with compare_to_lower. */
  predicate Less(a: string, b: string) {
    b != "" && (a == "" || Lower(a[0]) < Lower(b[0]) || (Lower(a[0]) == Lower(b[0]) && Less(a[1..], b[1..])))
  }

  predicate ByTitle(a: Info, b: Info) {
    Less(a.title, b.title) || (!Less(b.title, a.title) && a.time < b.time)
  }

  predicate ByGenre(a: Info, b: Info) {
    Less(a.info1, b.info1) || (!Less(b.info1, a.info1) && ByTitle(a, b))
  }

  predicate ByChannel(a: Info, b: Info) {
    Less(a.channel, b.channel) || (!Less(b.channel, a.channel) && ByTitle(a, b))
  }

  predicate ByFileName(a: Info, b: Info) {
    Less(a.name, b.name) || (!Less(b.name, a.name) && a.time < b.time)
  }

  predicate ByNumber(x: int, y: int, down: bool) {
    if down then x > y else x < y
  }

  /** The items with a comparator in the table sortBy. */
  predicate Sortable(item: Item) {
    item in {FILENAME, FILEPATH, TITLE, INFO1, PARENTAL_LOCKAGE, CHANNEL, QUALITY, PREVPLAYDATE, RECORDDATE, SIZE}
  }

  /** That comparator. */
  predicate Before(item: Item, down: bool, a: Info, b: Info) {
    match item
    case FILENAME => ByFileName(a, b)
    case FILEPATH => ByNumber(a.dirNr, b.dirNr, down)
    case TITLE => ByTitle(a, b)
    case INFO1 => ByGenre(a, b)
    case PARENTAL_LOCKAGE => ByNumber(a.age, b.age, down)
    case CHANNEL => ByChannel(a, b)
    case QUALITY => ByNumber(a.quality, b.quality, down)
    case PREVPLAYDATE => ByNumber(a.lastPlay, b.lastPlay, down)
    case RECORDDATE => ByNumber(a.time, b.time, down)
    case _ => ByNumber(a.size, b.size, down)
  }

  predicate Downwards(item: Item, direction: Direction) {
    match direction
    case UP => false
    case DOWN => true
    case AUTO => item in {QUALITY, PARENTAL_LOCKAGE, PREVPLAYDATE, RECORDDATE, PRODDATE, SIZE}
  }

  lemma {:induction false} LessAsymmetric(a: string, b: string)
    ensures Less(a, b) ==> !Less(b, a)
  {
    if a != "" && b != "" {
      LessAsymmetric(a[1..], b[1..]);
    }
  }

  lemma {:induction false} LessThrough(a: string, b: string, c: string)
    ensures Less(a, c) ==> Less(a, b) || Less(b, c)
  {
    if a != "" && b != "" && c != "" {
      LessThrough(a[1..], b[1..], c[1..]);
    }
  }

  /** What a strict weak order has to satisfy, for the three strings in every order. */
  lemma LessFacts(a: string, b: string, c: string)
    ensures (Less(a, b) ==> !Less(b, a)) && (Less(b, c) ==> !Less(c, b)) && (Less(a, c) ==> !Less(c, a))
    ensures (Less(a, c) ==> Less(a, b) || Less(b, c)) && (Less(c, a) ==> Less(c, b) || Less(b, a))
    ensures (Less(a, b) ==> Less(a, c) || Less(c, b)) && (Less(b, a) ==> Less(b, c) || Less(c, a))
    ensures (Less(b, c) ==> Less(b, a) || Less(a, c)) && (Less(c, b) ==> Less(c, a) || Less(a, b))
  {
    LessAsymmetric(a, b); LessAsymmetric(b, c); LessAsymmetric(a, c);
    LessThrough(a, b, c); LessThrough(c, b, a);
    LessThrough(a, c, b); LessThrough(b, c, a);
    LessThrough(b, a, c); LessThrough(c, a, b);
  }

  lemma TitleWeak(a: Info, b: Info, c: Info)
    ensures (ByTitle(a, b) ==> !ByTitle(b, a)) && (ByTitle(a, c) ==> ByTitle(a, b) || ByTitle(b, c))
  {
    LessFacts(a.title, b.title, c.title);
  }

  /** Every comparator is a strict weak order: no pair goes before each other, and what goes before
      another goes before it or behind any third. Sorting with it is well defined. */
  lemma StrictWeakOrder(item: Item, down: bool, a: Info, b: Info, c: Info)
    ensures Before(item, down, a, b) ==> !Before(item, down, b, a)
    ensures Before(item, down, a, c) ==> Before(item, down, a, b) || Before(item, down, b, c)
  {
    TitleWeak(a, b, c);
    LessFacts(a.info1, b.info1, c.info1);
    LessFacts(a.channel, b.channel, c.channel);
    LessFacts(a.name, b.name, c.name);
  }

  /** Transitive as well, for the order itself and for going neither before nor behind. */
  lemma Transitive(item: Item, down: bool, a: Info, b: Info, c: Info)
    ensures Before(item, down, a, b) && Before(item, down, b, c) ==> Before(item, down, a, c)
    ensures !Before(item, down, b, a) && !Before(item, down, c, b) ==> !Before(item, down, c, a)
  {
    StrictWeakOrder(item, down, a, c, b);
    StrictWeakOrder(item, down, b, c, a);
    StrictWeakOrder(item, down, c, b, a);
  }

  // What the orders mean

  /** Letters count alike, capital or small. */
  lemma LowerIs(i: nat)
    requires i < 26
    ensures Lower("ABCDEFGHIJKLMNOPQRSTUVWXYZ"[i]) == Lower("abcdefghijklmnopqrstuvwxyz"[i])
  {
  }

  /** The texts agree up to i, and there a is at its end, or has the smaller character. */
  predicate FirstDiffers(a: string, b: string, i: nat) {
    && i <= |a| && i < |b| && (forall k :: 0 <= k < i ==> Lower(a[k]) == Lower(b[k]))
    && (i == |a| || Lower(a[i]) < Lower(b[i]))
  }

  /** The order of a dictionary. */
  ghost predicate Precedes(a: string, b: string) {
    exists i: nat :: FirstDiffers(a, b, i)
  }

  predicate Alike(a: string, b: string) {
    |a| == |b| && forall k :: 0 <= k < |a| ==> Lower(a[k]) == Lower(b[k])
  }

  lemma PrecedesTail(a: string, b: string)
    requires a != "" && b != ""
    ensures Precedes(a, b) <==>
            Lower(a[0]) < Lower(b[0]) || (Lower(a[0]) == Lower(b[0]) && Precedes(a[1..], b[1..]))
  {
    if i: nat :| FirstDiffers(a, b, i) {
      assert i > 0 ==> FirstDiffers(a[1..], b[1..], i - 1);
    }
    if Lower(a[0]) < Lower(b[0]) {
      assert FirstDiffers(a, b, 0);
    }
    if i: nat :| Lower(a[0]) == Lower(b[0]) && FirstDiffers(a[1..], b[1..], i) {
      assert FirstDiffers(a, b, i + 1) by {
        assert forall k :: 0 < k < i + 1 ==> a[k] == a[1..][k - 1] && b[k] == b[1..][k - 1];
      }
    }
  }

  lemma {:induction false} LessMeans(a: string, b: string)
    ensures Less(a, b) <==> Precedes(a, b)
  {
    if a != "" && b != "" {
      PrecedesTail(a, b);
      LessMeans(a[1..], b[1..]);
    } else if b != "" {
      assert FirstDiffers(a, b, 0);
    }
  }

  lemma {:induction false} NeitherLess(a: string, b: string)
    ensures !Less(a, b) && !Less(b, a) <==> Alike(a, b)
  {
    if a != "" && b != "" {
      NeitherLess(a[1..], b[1..]);
      assert Alike(a, b) <==> Lower(a[0]) == Lower(b[0]) && Alike(a[1..], b[1..]) by {
        assert forall k :: 0 < k < |a| ==> a[k] == a[1..][k - 1];
        assert forall k :: 0 < k < |b| ==> b[k] == b[1..][k - 1];
      }
    }
  }

  /** By one text, and where that is alike by something else. */
  ghost predicate FirstBy(a: string, b: string, next: bool) {
    Precedes(a, b) || (Alike(a, b) && next)
  }

  lemma FirstByIs(a: string, b: string, next: bool)
    ensures Less(a, b) || (!Less(b, a) && next) <==> FirstBy(a, b, next)
  {
    LessMeans(a, b);
    NeitherLess(a, b);
  }

  /** What each column sorts by. */
  lemma BeforeMeans(item: Item, down: bool, a: Info, b: Info)
    requires Sortable(item)
    ensures var byTitle := FirstBy(a.title, b.title, a.time < b.time);
      match item
      case FILENAME => Before(item, down, a, b) <==> FirstBy(a.name, b.name, a.time < b.time)
      case TITLE => Before(item, down, a, b) <==> byTitle
      case INFO1 => Before(item, down, a, b) <==> FirstBy(a.info1, b.info1, byTitle)
      case CHANNEL => Before(item, down, a, b) <==> FirstBy(a.channel, b.channel, byTitle)
      case FILEPATH => Before(item, down, a, b) <==> if down then b.dirNr < a.dirNr else a.dirNr < b.dirNr
      case PARENTAL_LOCKAGE => Before(item, down, a, b) <==> if down then b.age < a.age else a.age < b.age
      case QUALITY => Before(item, down, a, b) <==> if down then b.quality < a.quality else a.quality < b.quality
      case PREVPLAYDATE => Before(item, down, a, b) <==> if down then b.lastPlay < a.lastPlay else a.lastPlay < b.lastPlay
      case RECORDDATE => Before(item, down, a, b) <==> if down then b.time < a.time else a.time < b.time
      case _ => Before(item, down, a, b) <==> if down then b.size < a.size else a.size < b.size
  {
    FirstByIs(a.name, b.name, a.time < b.time);
    FirstByIs(a.title, b.title, a.time < b.time);
    FirstByIs(a.info1, b.info1, ByTitle(a, b));
    FirstByIs(a.channel, b.channel, ByTitle(a, b));
  }
}
