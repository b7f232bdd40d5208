/** Names of series: the list of names, and finding the series of recordings without one. */
module Series {
  import opened MovieOrder

  /** Movie i is the first with its series name. */
  predicate FirstOfSeries(movies: seq<Info>, i: int) {
    0 <= i < |movies| && movies[i].serie != "" && forall j :: 0 <= j < i ==> movies[j].serie != movies[i].serie
  }

  /** The first movies of all series among the first n movies, in order. */
  function Firsts(movies: seq<Info>, n: nat): (h: seq<int>)
    requires n <= |movies|
  {
    if n == 0 then [] else Firsts(movies, n - 1) + if FirstOfSeries(movies, n - 1) then [n - 1] else []
  }

  lemma {:induction false} FirstsAre(movies: seq<Info>, n: nat)
    requires n <= |movies|
    ensures forall x :: x in Firsts(movies, n) <==> x < n && FirstOfSeries(movies, x)
    ensures forall j, k :: 0 <= j < k < |Firsts(movies, n)| ==> Firsts(movies, n)[j] < Firsts(movies, n)[k]
  {
    if n > 0 {
      var h := Firsts(movies, n - 1);
      FirstsAre(movies, n - 1);
      assert forall k :: 0 <= k < |h| ==> h[k] in h;
    }
  }

  /** A movie with a series name has the first of its series before it or is it. */
  lemma {:induction false} FirstExists(movies: seq<Info>, i: nat) returns (f: nat)
    requires i < |movies| && movies[i].serie != ""
    ensures f <= i && FirstOfSeries(movies, f) && movies[f].serie == movies[i].serie
    decreases i
  {
    f := i;
    if j :| 0 <= j < i && movies[j].serie == movies[i].serie {
      f := FirstExists(movies, j);
    }
  }

  /** The list of names holds one movie for each series name, no name twice. */
  lemma NamesAreDistinctAndComplete(movies: seq<Info>)
    ensures var h := Firsts(movies, |movies|);
            && (forall k :: 0 <= k < |h| ==> FirstOfSeries(movies, h[k]))
            && (forall j, k :: 0 <= j < k < |h| ==> movies[h[j]].serie != movies[h[k]].serie)
            && (forall i :: 0 <= i < |movies| && movies[i].serie != "" ==>
                  exists k :: 0 <= k < |h| && movies[h[k]].serie == movies[i].serie)
  {
    var h := Firsts(movies, |movies|);
    FirstsAre(movies, |movies|);
    forall k | 0 <= k < |h| ensures FirstOfSeries(movies, h[k]) {
      assert h[k] in h;
    }
    forall i | 0 <= i < |movies| && movies[i].serie != ""
      ensures exists k :: 0 <= k < |h| && movies[h[k]].serie == movies[i].serie
    {
      var f := FirstExists(movies, i);
      assert f in h;
      var k :| 0 <= k < |h| && h[k] == f;
    }
  }

  predicate InRange(movies: seq<Info>, h: seq<int>) {
    forall k :: 0 <= k < |h| ==> 0 <= h[k] < |movies|
  }

  /** One of these movies has the series name. */
  predicate Listed(movies: seq<Info>, h: seq<int>, name: string)
    requires InRange(movies, h)
  {
    exists k :: 0 <= k < |h| && movies[h[k]].serie == name
  }

  /** The series of the first of these movies that has the title; "" when none has. */
  function SeriesOf(movies: seq<Info>, h: seq<int>, title: string): string
    requires InRange(movies, h)
  {
    if h == [] then ""
    else if title == movies[h[0]].title then movies[h[0]].serie
    else SeriesOf(movies, h[1..], title)
  }

  lemma FirstsInRange(movies: seq<Info>, n: nat)
    requires n <= |movies|
    ensures InRange(movies, Firsts(movies, n))
  {
    FirstsAre(movies, n);
    var h := Firsts(movies, n);
    assert forall k :: 0 <= k < |h| ==> h[k] in h;
  }

  /** A movie after looking for its series. */
  function Named(movies: seq<Info>, m: Info): Info {
    FirstsInRange(movies, |movies|);
    if m.serie != "" then m else m.(serie := SeriesOf(movies, Firsts(movies, |movies|), m.title))
  }

  function AllNamed(movies: seq<Info>): (r: seq<Info>)
    ensures |r| == |movies|
  {
    seq(|movies|, i requires 0 <= i < |movies| => Named(movies, movies[i]))
  }

  /** A name is found if and only if the first movie of some series has the title; and then it is
      the name of such a series. */
  lemma {:induction false} SeriesFound(movies: seq<Info>, h: seq<int>, title: string)
    requires forall k :: 0 <= k < |h| ==> 0 <= h[k] < |movies| && movies[h[k]].serie != ""
    ensures SeriesOf(movies, h, title) != "" <==> exists k :: 0 <= k < |h| && movies[h[k]].title == title
    ensures SeriesOf(movies, h, title) != "" ==>
              exists k :: 0 <= k < |h| && movies[h[k]].title == title && movies[h[k]].serie == SeriesOf(movies, h, title)
  {
    if h != [] && title != movies[h[0]].title {
      SeriesFound(movies, h[1..], title);
      assert forall k :: 0 <= k < |h[1..]| ==> h[1..][k] == h[k + 1];
      if k :| 0 < k < |h| && movies[h[k]].title == title {
        assert h[1..][k - 1] == h[k];
      }
    }
  }

  /** What looking for series does to one movie: it keeps its name; without one it gets a name
      exactly if the first movie of some series has its title, and then that series' name. */
  lemma NamedMeans(movies: seq<Info>, m: Info)
    ensures m.serie != "" ==> Named(movies, m) == m
    ensures m.serie == "" ==>
              (Named(movies, m).serie != "" <==> exists f :: FirstOfSeries(movies, f) && movies[f].title == m.title)
    ensures Named(movies, m).serie != "" && m.serie == "" ==>
              exists f :: FirstOfSeries(movies, f) && movies[f].title == m.title && movies[f].serie == Named(movies, m).serie
    ensures Named(movies, m).(serie := m.serie) == m
  {
    var h := Firsts(movies, |movies|);
    FirstsInRange(movies, |movies|);
    FirstsAre(movies, |movies|);
    assert forall k :: 0 <= k < |h| ==> h[k] in h;
    SeriesFound(movies, h, m.title);
    if f :| FirstOfSeries(movies, f) && movies[f].title == m.title {
      assert f in h;
    }
  }

  /** No series is invented and none is lost. */
  lemma NoNewNames(movies: seq<Info>, name: string)
    requires name != ""
    ensures (exists i :: 0 <= i < |movies| && movies[i].serie == name)
            <==> (exists i :: 0 <= i < |movies| && AllNamed(movies)[i].serie == name)
  {
    forall i | 0 <= i < |movies| && AllNamed(movies)[i].serie == name
      ensures exists j :: 0 <= j < |movies| && movies[j].serie == name
    {
      NamedMeans(movies, movies[i]);
    }
    forall i | 0 <= i < |movies| && movies[i].serie == name
      ensures AllNamed(movies)[i].serie == name
    {
    }
  }

  /** The first movie of a series after the search has the title of a first movie before it. */
  lemma FirstsKeepTitles(movies: seq<Info>, f: int)
    requires FirstOfSeries(AllNamed(movies), f)
    ensures exists g :: FirstOfSeries(movies, g) && movies[g].title == AllNamed(movies)[f].title
  {
    var after := AllNamed(movies);
    NamedMeans(movies, movies[f]);
    if movies[f].serie != "" {
      forall j | 0 <= j < f ensures movies[j].serie != movies[f].serie {
        assert after[j].serie != after[f].serie;
        NamedMeans(movies, movies[j]);
      }
      assert FirstOfSeries(movies, f);
    }
  }

  /** Searching again finds nothing more, although a movie that was given a name may now be the
      first of its series. */
  lemma SearchedOnce(movies: seq<Info>)
    ensures AllNamed(AllNamed(movies)) == AllNamed(movies)
  {
    var after := AllNamed(movies);
    forall i | 0 <= i < |movies| ensures Named(after, after[i]) == after[i] {
      NamedMeans(after, after[i]);
      NamedMeans(movies, movies[i]);
      if after[i].serie == "" && Named(after, after[i]).serie != "" {
        var f :| FirstOfSeries(after, f) && after[f].title == after[i].title;
        FirstsKeepTitles(movies, f);
        assert false;
      }
    }
  }

  /** The recordings and the list of series. */
  class SeriesFinder {
    var movies: seq<Info>
    var serienames: seq<int>

    constructor (movies: seq<Info>)
      ensures this.movies == movies
    {
      this.movies, serienames := movies, [];
    }

    /** Whether the list has a movie with this series name. */
    method Known(name: string) returns (found: bool)
      requires InRange(movies, serienames)
      ensures found <==> Listed(movies, serienames, name)
    {
      found := false;
      var t := 0;
      while t < |serienames| && !found
        invariant 0 <= t <= |serienames|
        invariant found <==> exists k :: 0 <= k < t && movies[serienames[k]].serie == name
      {
        if movies[serienames[t]].serie == name {
          found := true;
        }
        t := t + 1;
      }
    }

    method UpdateSerienames()
      modifies this`serienames
      ensures serienames == Firsts(movies, |movies|)
    {
      serienames := [];
      for i := 0 to |movies|
        invariant serienames == Firsts(movies, i)
      {
        FirstsInRange(movies, i);
        if movies[i].serie != "" {
          var found := Known(movies[i].serie);
          KnownIs(movies, i, serienames);
          if !found {
            serienames := serienames + [i];
          }
        }
      }
    }

    /** The name the list has for a title. */
    method FindName(title: string) returns (name: string)
      requires InRange(movies, serienames)
      ensures name == SeriesOf(movies, serienames, title)
    {
      name := "";
      for t := 0 to |serienames|
        invariant name == ""
        invariant SeriesOf(movies, serienames[t..], title) == SeriesOf(movies, serienames, title)
      {
        assert serienames[t..][1..] == serienames[t + 1..];
        if title == movies[serienames[t]].title {
          name := movies[serienames[t]].serie;
          return;
        }
      }
    }

    /** autoFindSerie: every movie without a series gets the one its title tells. */
    method AutoFindSerie()
      modifies this
      ensures movies == AllNamed(old(movies))
      ensures serienames == Firsts(old(movies), |old(movies)|)
    {
      UpdateSerienames();
      ghost var was := movies;
      FirstsAre(was, |was|);
      FirstsInRange(was, |was|);
      for i := 0 to |movies|
        invariant |movies| == |was| && serienames == Firsts(was, |was|)
        invariant forall k :: 0 <= k < i ==> movies[k] == Named(was, was[k])
        invariant forall k :: i <= k < |was| ==> movies[k] == was[k]
      {
        NamedMeans(was, was[i]);
        if movies[i].serie == "" {
          ListUnchanged(was, movies, serienames, movies[i].title, i);
          var name := FindName(movies[i].title);
          movies := movies[i := movies[i].(serie := name)];
        }
      }
      assert movies == AllNamed(was);
    }
  }

  lemma ListedBefore(movies: seq<Info>, i: nat, h: seq<int>)
    requires i < |movies| && h == Firsts(movies, i) && InRange(movies, h) && Listed(movies, h, movies[i].serie)
    ensures !FirstOfSeries(movies, i)
  {
    FirstsAre(movies, i);
    var k :| 0 <= k < |h| && movies[h[k]].serie == movies[i].serie;
    assert h[k] in h;
  }

  lemma BeforeListed(movies: seq<Info>, i: nat, h: seq<int>, j: nat)
    requires i < |movies| && h == Firsts(movies, i) && InRange(movies, h)
    requires movies[i].serie != "" && j < i && movies[j].serie == movies[i].serie
    ensures Listed(movies, h, movies[i].serie)
  {
    var f := FirstExists(movies, j);
    FirstsAre(movies, i);
    assert f in h;
    var k :| 0 <= k < |h| && h[k] == f;
  }

  lemma KnownIs(movies: seq<Info>, i: nat, h: seq<int>)
    requires i < |movies| && movies[i].serie != "" && h == Firsts(movies, i) && InRange(movies, h)
    ensures Listed(movies, h, movies[i].serie) <==> !FirstOfSeries(movies, i)
  {
    if Listed(movies, h, movies[i].serie) {
      ListedBefore(movies, i, h);
    }
    if j :| 0 <= j < i && movies[j].serie == movies[i].serie {
      BeforeListed(movies, i, h, j);
    }
  }

  /** While names are filled in, the movies of the list stay as they were. */
  lemma {:induction false} ListUnchanged(was: seq<Info>, movies: seq<Info>, h: seq<int>, title: string, i: nat)
    requires |movies| == |was| && forall k :: 0 <= k < |h| ==> 0 <= h[k] < |was| && was[h[k]].serie != ""
    requires forall k :: 0 <= k < i < |was| ==> movies[k] == Named(was, was[k])
    requires i < |was| && forall k :: i <= k < |was| ==> movies[k] == was[k]
    ensures SeriesOf(movies, h, title) == SeriesOf(was, h, title)
  {
    if h != [] {
      NamedMeans(was, was[h[0]]);
      assert movies[h[0]] == was[h[0]];
      ListUnchanged(was, movies, h[1..], title, i);
    }
  }
}
