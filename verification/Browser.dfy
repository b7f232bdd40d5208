/** The movie browser's list: which movies it shows, in which order, and what its columns say. */
module Browser {
  import opened Flags
  import opened MovieOrder

  datatype Option<T> = None | Some(value: T)

  datatype Lock = LOCK_OFF | LOCK_ACTIVE | LOCK_OFF_TMP

  datatype Filter = Filter(item: Item, text: string, number: int)

  datatype Settings = Settings(rowItems: seq<Item>, sorting: Item, filter: Filter, lockAge: int, serieMode: bool)

  /** getMovieInfoItem, as far as the list is concerned: the text of an item, or None. */
  type Texts = (Info, Item) -> Option<string>

  predicate IsFiltered(filter: Filter, m: Info) {
    match filter.item
    case FILEPATH => filter.number != m.dirNr
    case INFO1 => filter.text != m.info1
    case MAJOR_GENRE => filter.number != m.majorGenre
    case SERIE => filter.text != m.serie
    case _ => false
  }

  predicate IsParentalLock(lock: Lock, s: Settings, m: Info) {
    lock == LOCK_ACTIVE && s.lockAge <= m.age
  }

  /** In series mode the members of a series are shown behind its filter only. */
  predicate Passes(lock: Lock, s: Settings, m: Info) {
    && !IsFiltered(s.filter, m) && !IsParentalLock(lock, s, m)
    && (!s.serieMode || m.serie == "" || s.filter.item == SERIE)
  }

  function PassFlags(lock: Lock, s: Settings, movies: seq<Info>): (flags: seq<bool>)
    ensures |flags| == |movies|
  {
    seq(|movies|, i requires 0 <= i < |movies| => Passes(lock, s, movies[i]))
  }

  /** The movies that pass, in the order of the recordings found. */
  function Passing(lock: Lock, s: Settings, movies: seq<Info>): seq<int> {
    Hits(PassFlags(lock, s, movies), 0)
  }

  /** What a column says of a movie. */
  function Cell(texts: Texts, m: Info, item: Item): string {
    match texts(m, item)
    case Some(text) => text
    case None =>
      if item == TITLE then (match texts(m, FILENAME) case Some(text) => text case None => "") else "n/a"
  }

  predicate Handles(h: seq<int>, movies: seq<Info>) {
    forall k :: 0 <= k < |h| ==> 0 <= h[k] < |movies|
  }

  predicate Sorted(h: seq<int>, movies: seq<Info>, item: Item, down: bool)
    requires Handles(h, movies)
  {
    forall j, k :: 0 <= j < k < |h| ==> !Before(item, down, movies[h[k]], movies[h[j]])
  }

  /** Handles are sorted into place one by one. */
  function Insert(x: int, h: seq<int>, movies: seq<Info>, item: Item, down: bool): (r: seq<int>)
    requires Handles(h, movies) && 0 <= x < |movies|
    ensures Handles(r, movies)
  {
    if h == [] || Before(item, down, movies[x], movies[h[0]]) then [x] + h
    else [h[0]] + Insert(x, h[1..], movies, item, down)
  }

  lemma {:induction false} InsertPermutes(x: int, h: seq<int>, movies: seq<Info>, item: Item, down: bool)
    requires Handles(h, movies) && 0 <= x < |movies|
    ensures multiset(Insert(x, h, movies, item, down)) == multiset(h) + multiset{x}
  {
    if h != [] && !Before(item, down, movies[x], movies[h[0]]) {
      InsertPermutes(x, h[1..], movies, item, down);
      assert h == [h[0]] + h[1..];
    }
  }

  /** y goes before none of the handles. */
  predicate First(y: Info, h: seq<int>, movies: seq<Info>, item: Item, down: bool)
    requires Handles(h, movies)
  {
    forall k :: 0 <= k < |h| ==> !Before(item, down, movies[h[k]], y)
  }

  lemma {:induction false} InsertBehind(y: Info, x: int, h: seq<int>, movies: seq<Info>, item: Item, down: bool)
    requires Handles(h, movies) && 0 <= x < |movies| && First(y, h, movies, item, down)
    requires !Before(item, down, movies[x], y)
    ensures First(y, Insert(x, h, movies, item, down), movies, item, down)
  {
    if h != [] && !Before(item, down, movies[x], movies[h[0]]) {
      InsertBehind(y, x, h[1..], movies, item, down);
    }
  }

  lemma {:induction false} InsertSorts(x: int, h: seq<int>, movies: seq<Info>, item: Item, down: bool)
    requires Handles(h, movies) && 0 <= x < |movies| && Sorted(h, movies, item, down)
    ensures Sorted(Insert(x, h, movies, item, down), movies, item, down)
  {
    if h == [] {
    } else if Before(item, down, movies[x], movies[h[0]]) {
      forall k | 0 <= k < |h| ensures !Before(item, down, movies[h[k]], movies[x]) {
        StrictWeakOrder(item, down, movies[x], movies[h[k]], movies[h[0]]);
        StrictWeakOrder(item, down, movies[h[k]], movies[x], movies[h[0]]);
        Transitive(item, down, movies[h[k]], movies[x], movies[h[0]]);
      }
    } else {
      InsertSorts(x, h[1..], movies, item, down);
      InsertBehind(movies[h[0]], x, h[1..], movies, item, down);
    }
  }

  /** Stands for any sorting routine with this contract. */
  method Sort(h: seq<int>, movies: seq<Info>, item: Item, down: bool) returns (r: seq<int>)
    requires Handles(h, movies)
    ensures multiset(r) == multiset(h) && Handles(r, movies) && Sorted(r, movies, item, down)
  {
    r := [];
    for i := 0 to |h|
      invariant multiset(r) == multiset(h[..i]) && Handles(r, movies) && Sorted(r, movies, item, down)
    {
      InsertPermutes(h[i], r, movies, item, down);
      InsertSorts(h[i], r, movies, item, down);
      r := Insert(h[i], r, movies, item, down);
      assert h[..i + 1] == h[..i] + [h[i]];
    }
    assert h[..|h|] == h;
  }

  /** onSortMovieInfoHandleList */
  method SortHandles(h: seq<int>, movies: seq<Info>, item: Item, direction: Direction) returns (r: seq<int>, done: bool)
    requires Handles(h, movies)
    ensures done <==> h != [] && Sortable(item)
    ensures done ==> multiset(r) == multiset(h) && Handles(r, movies) && Sorted(r, movies, item, Downwards(item, direction))
    ensures !done ==> r == h
  {
    r, done := h, false;
    if h != [] && Sortable(item) {
      r := Sort(h, movies, item, Downwards(item, direction));
      done := true;
    }
  }

  lemma PassingHandles(lock: Lock, s: Settings, movies: seq<Info>)
    ensures Handles(Passing(lock, s, movies), movies)
  {
    var p := Passing(lock, s, movies);
    HitsExact(PassFlags(lock, s, movies), 0);
    assert forall k :: 0 <= k < |p| ==> p[k] in p;
  }

  lemma SameHandles(h: seq<int>, p: seq<int>, movies: seq<Info>)
    requires multiset(h) == multiset(p)
    ensures forall x :: x in h <==> x in p
  {
    assert forall x :: x in h <==> x in multiset(h);
    assert forall x :: x in p <==> x in multiset(p);
  }

  /** A movie is shown: it is what the filter asks for, young enough while the lock is on, and no
      member of a series when series are folded. */
  predicate Shown(lock: Lock, s: Settings, m: Info) {
    && (s.filter.item == FILEPATH ==> m.dirNr == s.filter.number)
    && (s.filter.item == INFO1 ==> m.info1 == s.filter.text)
    && (s.filter.item == MAJOR_GENRE ==> m.majorGenre == s.filter.number)
    && (s.filter.item == SERIE ==> m.serie == s.filter.text)
    && (lock == LOCK_ACTIVE ==> m.age < s.lockAge)
    && (s.serieMode && s.filter.item != SERIE ==> m.serie == "")
  }

  lemma PassesMeans(lock: Lock, s: Settings, m: Info)
    ensures Passes(lock, s, m) <==> Shown(lock, s, m)
  {
  }

  /** The handles of a refreshed list are those of the movies to be shown, each exactly once. */
  lemma RefreshedExactly(lock: Lock, s: Settings, movies: seq<Info>, h: seq<int>)
    requires multiset(h) == multiset(Passing(lock, s, movies))
    ensures forall x :: x in h <==> 0 <= x < |movies| && Shown(lock, s, movies[x])
    ensures forall j, k :: 0 <= j < k < |h| ==> h[j] != h[k]
  {
    var flags := PassFlags(lock, s, movies);
    var p := Passing(lock, s, movies);
    HitsExact(flags, 0);
    SameHandles(h, p, movies);
    forall x ensures x in p <==> 0 <= x < |movies| && Shown(lock, s, movies[x]) {
      if 0 <= x < |movies| {
        PassesMeans(lock, s, movies[x]);
      }
      if 0 <= x < |movies| {
        assert flags[x] <==> 0 + x in p;
      }
    }
    forall j, k | 0 <= j < k < |h| ensures h[j] != h[k] {
      if h[j] == h[k] {
        Twice(h, j, k);
        Once(p, h[j]);
      }
    }
  }

  lemma Twice(h: seq<int>, j: nat, k: nat)
    requires j < k < |h| && h[j] == h[k]
    ensures multiset(h)[h[j]] >= 2
  {
    assert h == h[..k] + [h[k]] + h[k + 1..];
    assert h[j] in h[..k];
  }

  lemma {:induction false} Once(p: seq<int>, x: int)
    requires forall j, k :: 0 <= j < k < |p| ==> p[j] < p[k]
    ensures multiset(p)[x] <= 1
  {
    if p != [] {
      assert p == [p[0]] + p[1..];
      Once(p[1..], x);
      assert x == p[0] ==> x !in p[1..];
    }
  }

  class MovieBrowser {
    const texts: Texts
    var settings: Settings
    var parentalLock: Lock
    var movies: seq<Info>
    var handles: seq<int>
    var lines: seq<seq<string>>

    constructor (texts: Texts, settings: Settings, parentalLock: Lock, movies: seq<Info>)
      ensures this.texts == texts && this.settings == settings && this.parentalLock == parentalLock && this.movies == movies
    {
      this.texts, this.settings, this.parentalLock, this.movies := texts, settings, parentalLock, movies;
      handles, lines := [], [];
    }

    method CollectHandles()
      modifies this`handles
      ensures handles == Passing(parentalLock, settings, movies)
    {
      ghost var flags := PassFlags(parentalLock, settings, movies);
      handles := [];
      for file := 0 to |movies|
        invariant handles == Hits(flags[..file], 0)
      {
        HitsStep(flags, 0, file);
        var m := movies[file];
        if !IsFiltered(settings.filter, m) && !IsParentalLock(parentalLock, settings, m)
           && (!settings.serieMode || m.serie == "" || settings.filter.item == SERIE)
        {
          handles := handles + [file];
        }
      }
      assert flags[..|movies|] == flags;
    }

    method CellOf(m: Info, item: Item) returns (cell: string)
      ensures cell == Cell(texts, m, item)
    {
      var text := texts(m, item);
      cell := if text.Some? then text.value else "n/a";
      if text.None? && item == TITLE {
        var name := texts(m, FILENAME);
        cell := if name.Some? then name.value else "";
      }
    }

    /** The columns, complete for the first handles. */
    ghost predicate Filled(columns: seq<seq<string>>, upTo: nat)
      reads this
      requires Handles(handles, movies) && upTo <= |handles|
    {
      && |columns| == |settings.rowItems|
      && forall row :: 0 <= row < |columns| ==> FilledColumn(columns[row], settings.rowItems[row], upTo)
    }

    ghost predicate FilledColumn(column: seq<string>, item: Item, upTo: nat)
      reads this
      requires Handles(handles, movies) && upTo <= |handles|
    {
      |column| == upTo && forall k :: 0 <= k < upTo ==> column[k] == Cell(texts, movies[handles[k]], item)
    }

    /** A line's text appended to every column. */
    method AddLine(columns: seq<seq<string>>, handle: nat) returns (more: seq<seq<string>>)
      requires Handles(handles, movies) && handle < |handles| && Filled(columns, handle)
      ensures Filled(more, handle + 1)
    {
      more := columns;
      for row := 0 to |settings.rowItems|
        invariant |more| == |columns| && forall r :: row <= r < |columns| ==> more[r] == columns[r]
        invariant forall r :: 0 <= r < row ==> FilledColumn(more[r], settings.rowItems[r], handle + 1)
      {
        var cell := CellOf(movies[handles[handle]], settings.rowItems[row]);
        more := more[row := more[row] + [cell]];
      }
    }

    method FillColumns() returns (columns: seq<seq<string>>)
      requires Handles(handles, movies)
      ensures Filled(columns, |handles|)
    {
      columns := seq(|settings.rowItems|, _ => []);
      for handle := 0 to |handles|
        invariant Filled(columns, handle)
      {
        columns := AddLine(columns, handle);
      }
    }

    /** refreshBrowserList: the list shows the movies that pass and no others, sorted where their
        item can be sorted by, and each column tells of each movie in its own line. */
    method RefreshBrowserList()
      modifies this`handles, this`lines
      ensures multiset(handles) == multiset(Passing(parentalLock, settings, movies)) && Handles(handles, movies)
      ensures Sortable(settings.sorting) ==> Sorted(handles, movies, settings.sorting, Downwards(settings.sorting, AUTO))
      ensures !Sortable(settings.sorting) ==> handles == Passing(parentalLock, settings, movies)
      ensures Filled(lines, |handles|)
    {
      PassingHandles(parentalLock, settings, movies);
      CollectHandles();
      var sorted, done := SortHandles(handles, movies, settings.sorting, AUTO);
      handles := sorted;
      lines := FillColumns();
    }
  }
}
