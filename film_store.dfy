/**
 * The film store: fetching film records from the remote dataset by
 * reference, and SQL access to the `film` and `film_planet` tables.
 */
module FilmStore {
  import opened Wrappers
  import opened Tables
  import opened Remote

  /** A film as the remote dataset returns it; the fields the import does not read are left out. */
  datatype RemoteFilm = RemoteFilm(title: string, director: string, releaseDate: string)

  // ---------------------------------------------------------------------------
  // From a film reference to the request URL
  // ---------------------------------------------------------------------------

  /** The separator a film reference is split on: the base URL followed by `/films/`. */
  function FilmsPrefix(base: string): string
  {
    base + "/films/"
  }

  /** The position of the first occurrence of `sep` in `s`. */
  function IndexOf(s: string, sep: string): (r: Option<nat>)
    ensures r.Some? ==> OccursAt(s, sep, r.value)
    ensures r.Some? ==> forall j :: 0 <= j < r.value ==> !OccursAt(s, sep, j)
    ensures r.None? <==> forall j :: !OccursAt(s, sep, j)
    decreases |s|
  {
    if OccursAt(s, sep, 0) then Some(0)
    else if s == [] then None
    else
      OccursShift(s, sep);
      match IndexOf(s[1..], sep)
      case None => None
      case Some(i) => Some(i + 1)
  }

  /**
   * Element 1 of splitting `s` on `sep`: the text after the first occurrence
   * of `sep`, up to its next occurrence or the end. Without any occurrence
   * there is no element 1, and the source's indexing panics.
   */
  function SplitSecond(s: string, sep: string): (r: string)
    requires IndexOf(s, sep).Some?
    ensures r <= s[IndexOf(s, sep).value + |sep|..]
  {
    var k := IndexOf(s, sep).value;
    var rest := s[k + |sep|..];
    match IndexOf(rest, sep)
    case None => rest
    case Some(j) => rest[..j]
  }

  /** `s` without any of its trailing `/` characters. */
  function TrimSlashes(s: string): (r: string)
    ensures r <= s
    ensures r == [] || r[|r| - 1] != '/'
    ensures forall i :: |r| <= i < |s| ==> s[i] == '/'
  {
    if s == [] || s[|s| - 1] != '/' then s else TrimSlashes(s[..|s| - 1])
  }

  /** A reference the store can split: it contains the films prefix. */
  predicate WellFormedRef(base: string, ref: string)
  {
    IndexOf(ref, FilmsPrefix(base)).Some?
  }

  /** The URL the store requests for a film reference. */
  function FilmUrl(base: string, ref: string): (r: string)
    requires WellFormedRef(base, ref)
    ensures FilmsPrefix(base) <= r && |r| <= |FilmsPrefix(base)| + |ref|
  {
    FilmsPrefix(base) + TrimSlashes(SplitSecond(ref, FilmsPrefix(base)))
  }

  /** What follows the first occurrence of `sep` in `s`. */
  function AfterFirst(s: string, sep: string): string
    requires IndexOf(s, sep).Some?
  {
    s[IndexOf(s, sep).value + |sep|..]
  }

  /** A reference is what precedes the first occurrence of the separator, the separator, and what follows it. */
  lemma SplitAtFirst(s: string, sep: string)
    requires IndexOf(s, sep).Some?
    ensures s == s[..IndexOf(s, sep).value] + sep + AfterFirst(s, sep)
  {
    var k := IndexOf(s, sep).value;
    assert s[k..k + |sep|] == sep;
    assert s == s[..k] + s[k..k + |sep|] + AfterFirst(s, sep);
  }

  /**
   * The identifier is the start of what follows the first separator, and it
   * runs up to the end of the reference or to the next separator.
   */
  lemma SplitSecondEnds(s: string, sep: string)
    requires IndexOf(s, sep).Some?
    ensures SplitSecond(s, sep) <= AfterFirst(s, sep)
    ensures var tail := AfterFirst(s, sep)[|SplitSecond(s, sep)|..]; tail == [] || sep <= tail
  {
    var rest := AfterFirst(s, sep);
    match IndexOf(rest, sep) {
      case None =>
      case Some(j0) =>
        assert rest[j0..][..|sep|] == rest[j0..j0 + |sep|];
    }
  }

  /** The identifier holds no occurrence of a non-empty separator. */
  lemma SplitSecondHasNoSeparator(s: string, sep: string)
    requires |sep| > 0 && IndexOf(s, sep).Some?
    ensures forall j :: !OccursAt(SplitSecond(s, sep), sep, j)
  {
    var rest := AfterFirst(s, sep);
    match IndexOf(rest, sep) {
      case None =>
      case Some(j0) =>
        NoEarlierOccurrence(rest, sep, j0);
    }
  }

  /** A prefix of `rest` that ends before its first occurrence of `sep` holds no occurrence. */
  lemma NoEarlierOccurrence(rest: string, sep: string, j0: nat)
    requires |sep| > 0 && IndexOf(rest, sep) == Some(j0)
    ensures forall j :: !OccursAt(rest[..j0], sep, j)
  {
    var id := rest[..j0];
    forall j | OccursAt(id, sep, j) ensures false {
      assert j < j0;
      assert id[j..j + |sep|] == rest[j..j + |sep|];
      assert OccursAt(rest, sep, j);
    }
  }

  /** The request URL is the films prefix followed by the identifier, without trailing slashes. */
  lemma FilmUrlShape(base: string, ref: string)
    requires WellFormedRef(base, ref)
    ensures FilmsPrefix(base) <= FilmUrl(base, ref)
    ensures FilmUrl(base, ref)[|FilmsPrefix(base)|..] <= SplitSecond(ref, FilmsPrefix(base))
    ensures |FilmUrl(base, ref)| > |FilmsPrefix(base)| ==> FilmUrl(base, ref)[|FilmUrl(base, ref)| - 1] != '/'
  {
    var p := FilmsPrefix(base);
    var t := TrimSlashes(SplitSecond(ref, p));
    var u := FilmUrl(base, ref);
    assert u == p + t;
    assert u[|p|..] == t;
    if |u| > |p| {
      assert u[|u| - 1] == t[|t| - 1];
    }
  }

  // ---------------------------------------------------------------------------
  // Fetching films
  // ---------------------------------------------------------------------------

  /** The reply the remote dataset gives for a URL; an unknown URL is answered 404. */
  function ReplyFor(remote: map<string, Response<RemoteFilm>>, url: string): Response<RemoteFilm>
  {
    if url in remote then remote[url] else Reply(404, Garbled("not found"))
  }

  predicate AllWellFormed(base: string, refs: seq<string>)
  {
    forall i :: 0 <= i < |refs| ==> WellFormedRef(base, refs[i])
  }

  /**
   * What fetching the references yields: the decoded films of the 200
   * replies in reference order, or the first failure. Non-200 replies are
   * skipped silently.
   */
  function FetchFilms(base: string, refs: seq<string>, remote: map<string, Response<RemoteFilm>>): (r: Result<seq<RemoteFilm>>)
    requires AllWellFormed(base, refs)
    ensures r.Ok? ==> |r.value| <= |refs|
    ensures r.Err? ==> r.error.RemoteError?
  {
    if refs == [] then Ok([])
    else
      var rest := FetchFilms(base, refs[1..], remote);
      match ReplyFor(remote, FilmUrl(base, refs[0]))
      case Failed(e) => Err(RemoteError(e))
      case Reply(status, body) =>
        if status != StatusOK then rest
        else match body
          case Garbled(e) => Err(RemoteError(e))
          case Parsed(film) =>
            match rest
            case Err(e) => Err(e)
            case Ok(films) => Ok([film] + films)
  }

  /** Every fetched film is the decoded body of a 200 reply to one of the references. */
  lemma {:induction false} FetchedFilmsAnswerRefs(base: string, refs: seq<string>, remote: map<string, Response<RemoteFilm>>)
    requires AllWellFormed(base, refs)
    requires FetchFilms(base, refs, remote).Ok?
    ensures forall f :: f in FetchFilms(base, refs, remote).value ==>
      exists i :: 0 <= i < |refs| && ReplyFor(remote, FilmUrl(base, refs[i])) == Reply(StatusOK, Parsed(f))
  {
    if refs != [] {
      FetchedFilmsAnswerRefs(base, refs[1..], remote);
      forall f | f in FetchFilms(base, refs, remote).value
        ensures exists i :: 0 <= i < |refs| && ReplyFor(remote, FilmUrl(base, refs[i])) == Reply(StatusOK, Parsed(f))
      {
        if f !in FetchFilms(base, refs[1..], remote).value {
          assert ReplyFor(remote, FilmUrl(base, refs[0])) == Reply(StatusOK, Parsed(f));
        } else {
          var i :| 0 <= i < |refs[1..]| && ReplyFor(remote, FilmUrl(base, refs[1..][i])) == Reply(StatusOK, Parsed(f));
          assert refs[1..][i] == refs[i + 1];
        }
      }
    }
  }

  /** The replies of the remote dataset to the references, in reference order. */
  function RepliesFor(base: string, refs: seq<string>, remote: map<string, Response<RemoteFilm>>): (r: seq<Response<RemoteFilm>>)
    requires AllWellFormed(base, refs)
    ensures |r| == |refs|
    ensures forall i :: 0 <= i < |refs| ==> r[i] == ReplyFor(remote, FilmUrl(base, refs[i]))
  {
    if refs == [] then []
    else [ReplyFor(remote, FilmUrl(base, refs[0]))] + RepliesFor(base, refs[1..], remote)
  }

  /** A reply that ends the fetch: a failed request, or a 200 whose body does not decode. */
  predicate Breaks(reply: Response<RemoteFilm>)
  {
    reply.Failed? || (reply.status == StatusOK && reply.body.Garbled?)
  }

  /** The error a reply that ends the fetch is reported as. */
  function BreakError(reply: Response<RemoteFilm>): Error
    requires Breaks(reply)
  {
    if reply.Failed? then RemoteError(reply.reason) else RemoteError(reply.body.reason)
  }

  /** The films decoded from the 200 replies, in order; every other reply is skipped. */
  function DecodedFilms(replies: seq<Response<RemoteFilm>>): (r: seq<RemoteFilm>)
    ensures |r| <= |replies|
  {
    if replies == [] then []
    else if replies[0].Reply? && replies[0].status == StatusOK && replies[0].body.Parsed? then
      [replies[0].body.value] + DecodedFilms(replies[1..])
    else DecodedFilms(replies[1..])
  }

  /** A film is decoded exactly when some reply is a 200 carrying it. */
  lemma {:induction false} DecodedFilmsMembers(replies: seq<Response<RemoteFilm>>)
    ensures forall f :: f in DecodedFilms(replies) <==> exists i :: 0 <= i < |replies| && replies[i] == Reply(StatusOK, Parsed(f))
  {
    if replies != [] {
      DecodedFilmsMembers(replies[1..]);
      forall f | f in DecodedFilms(replies)
        ensures exists i :: 0 <= i < |replies| && replies[i] == Reply(StatusOK, Parsed(f))
      {
        if f !in DecodedFilms(replies[1..]) {
          assert replies[0] == Reply(StatusOK, Parsed(f));
        } else {
          var i :| 0 <= i < |replies[1..]| && replies[1..][i] == Reply(StatusOK, Parsed(f));
          assert replies[i + 1] == Reply(StatusOK, Parsed(f));
        }
      }
      forall f, i | 0 <= i < |replies| && replies[i] == Reply(StatusOK, Parsed(f))
        ensures f in DecodedFilms(replies)
      {
        if i > 0 {
          assert replies[1..][i - 1] == Reply(StatusOK, Parsed(f));
        }
      }
    }
  }

  /**
   * Fetching is a filter-map of the replies: when no reply ends it, the
   * result is the decoded films of the 200 replies; otherwise it is the
   * error of the first reply that ends it.
   */
  lemma {:induction false} FetchFilmsIsFilterMap(base: string, refs: seq<string>, remote: map<string, Response<RemoteFilm>>)
    requires AllWellFormed(base, refs)
    ensures FirstWhere(RepliesFor(base, refs, remote), Breaks).None? ==>
              FetchFilms(base, refs, remote) == Ok(DecodedFilms(RepliesFor(base, refs, remote)))
    ensures FirstWhere(RepliesFor(base, refs, remote), Breaks).Some? ==>
              FetchFilms(base, refs, remote) ==
              Err(BreakError(RepliesFor(base, refs, remote)[FirstWhere(RepliesFor(base, refs, remote), Breaks).value]))
  {
    if refs != [] {
      var replies := RepliesFor(base, refs, remote);
      FetchFilmsIsFilterMap(base, refs[1..], remote);
      assert replies[1..] == RepliesFor(base, refs[1..], remote);
    }
  }

  /** `films` in front of a fetch's films; an error stays the error. */
  function PrependFilms(films: seq<RemoteFilm>, r: Result<seq<RemoteFilm>>): Result<seq<RemoteFilm>>
  {
    match r
    case Ok(rest) => Ok(films + rest)
    case Err(e) => Err(e)
  }

  /** Prepending twice is prepending the concatenation. */
  lemma PrependFilmsTwice(a: seq<RemoteFilm>, b: seq<RemoteFilm>, r: Result<seq<RemoteFilm>>)
    ensures PrependFilms(a, PrependFilms(b, r)) == PrependFilms(a + b, r)
  {
    if r.Ok? {
      assert a + (b + r.value) == (a + b) + r.value;
    }
  }

  /** Fetching from reference `i` on, stated through the reply to reference `i`. */
  lemma FetchFrom(base: string, refs: seq<string>, i: nat, remote: map<string, Response<RemoteFilm>>)
    requires AllWellFormed(base, refs) && i < |refs|
    ensures var reply := ReplyFor(remote, FilmUrl(base, refs[i]));
      var here := FetchFilms(base, refs[i..], remote);
      var next := FetchFilms(base, refs[i + 1..], remote);
      && (reply.Failed? ==> here == Err(RemoteError(reply.reason)))
      && (reply.Reply? && reply.status != StatusOK ==> here == next)
      && (reply.Reply? && reply.status == StatusOK && reply.body.Garbled? ==> here == Err(RemoteError(reply.body.reason)))
      && (reply.Reply? && reply.status == StatusOK && reply.body.Parsed? ==> here == PrependFilms([reply.body.value], next))
  {
    assert refs[i..][0] == refs[i] && refs[i..][1..] == refs[i + 1..];
  }

  /** Requests each reference's film in turn, keeping the 200 replies. */
  method GetFilms(base: string, refs: seq<string>, remote: map<string, Response<RemoteFilm>>) returns (r: Result<seq<RemoteFilm>>)
    requires AllWellFormed(base, refs)
    ensures r == FetchFilms(base, refs, remote)
  {
    var results: seq<RemoteFilm> := [];
    var i := 0;
    assert refs[i..] == refs;
    if FetchFilms(base, refs, remote).Ok? {
      assert results + FetchFilms(base, refs, remote).value == FetchFilms(base, refs, remote).value;
    }
    while i < |refs|
      invariant 0 <= i <= |refs|
      invariant FetchFilms(base, refs, remote) == PrependFilms(results, FetchFilms(base, refs[i..], remote))
    {
      FetchFrom(base, refs, i, remote);
      var reply := ReplyFor(remote, FilmUrl(base, refs[i]));
      if reply.Failed? {
        return Err(RemoteError(reply.reason));
      }
      if reply.status == StatusOK {
        if reply.body.Garbled? {
          return Err(RemoteError(reply.body.reason));
        }
        PrependFilmsTwice(results, [reply.body.value], FetchFilms(base, refs[i + 1..], remote));
        results := results + [reply.body.value];
      }
      i := i + 1;
    }
    assert refs[i..] == [];
    assert results + [] == results;
    r := Ok(results);
  }

  // ---------------------------------------------------------------------------
  // SQL access
  // ---------------------------------------------------------------------------

  /** The first film row with the given name; films have no deletion mark. No such film is not an error. */
  method GetOne(db: Database, name: string) returns (r: Result<Option<FilmRow>>)
    requires db.Valid()
    modifies db`budget, db`refusals, db`calls
    ensures db.Valid() && db.State() == old(db.State())
    ensures db.budget == AfterStatement(old(db.budget)) && db.calls == old(db.calls) + [FilmGetOne(name)]
    ensures db.refusals == old(db.refusals) + (if Exhausted(old(db.budget)) then 1 else 0)
    ensures r.Err? <==> Exhausted(old(db.budget))
    ensures r.Err? ==> r.error == StoreError
    ensures r.Ok? ==> (r.value.None? <==> FindFilm(db.films, name).None?)
    ensures r.Ok? && r.value.Some? ==> r.value.value == db.films[FindFilm(db.films, name).value]
  {
    db.Log(FilmGetOne(name));
    var ok := db.Statement();
    if !ok {
      return Err(StoreError);
    }
    match FindFilm(db.films, name)
    case None => r := Ok(None);
    case Some(i) => r := Ok(Some(db.films[i]));
  }

  /** Inserts one film row named after the film's title, with its director and release date, and returns its new id. */
  method SaveFilm(db: Database, film: RemoteFilm) returns (r: Result<int>)
    requires db.Valid()
    modifies db
    ensures db.Valid()
    ensures db.budget == AfterStatement(old(db.budget)) && db.calls == old(db.calls) + [FilmSave(film.title)]
    ensures db.refusals == old(db.refusals) + (if Exhausted(old(db.budget)) then 1 else 0)
    ensures db.planets == old(db.planets) && db.links == old(db.links) && db.nextPlanetId == old(db.nextPlanetId)
    ensures r.Err? <==> Exhausted(old(db.budget))
    ensures db.inserted == old(db.inserted) + (if r.Ok? then 1 else 0)
    ensures r.Err? ==> r.error == StoreError && db.films == old(db.films) && db.nextFilmId == old(db.nextFilmId)
    ensures r.Ok? ==> db.films == old(db.films) + [FilmRow(r.value, film.title, film.director, film.releaseDate)]
    ensures r.Ok? ==> forall i :: 0 <= i < |old(db.films)| ==> old(db.films)[i].id != r.value
  {
    db.Log(FilmSave(film.title));
    var ok := db.Statement();
    if !ok {
      return Err(StoreError);
    }
    var id := db.InsertFilm(film.title, film.director, film.releaseDate);
    r := Ok(id);
  }

  /** Inserts one link row between a planet and a film, not marked deleted. */
  method SaveFilmWithPlanet(db: Database, planetId: int, filmId: int) returns (err: Option<Error>)
    requires db.Valid()
    modifies db
    ensures db.Valid()
    ensures db.budget == AfterStatement(old(db.budget)) && db.calls == old(db.calls) + [FilmSaveWithPlanet(planetId, filmId)]
    ensures db.refusals == old(db.refusals) + (if Exhausted(old(db.budget)) then 1 else 0)
    ensures db.planets == old(db.planets) && db.films == old(db.films)
    ensures db.nextPlanetId == old(db.nextPlanetId) && db.nextFilmId == old(db.nextFilmId)
    ensures err.Some? <==> Exhausted(old(db.budget))
    ensures db.inserted == old(db.inserted) + (if err.None? then 1 else 0)
    ensures err.Some? ==> err.value == StoreError && db.links == old(db.links)
    ensures err.None? ==> db.links == old(db.links) + [LinkRow(planetId, filmId, false)]
  {
    db.Log(FilmSaveWithPlanet(planetId, filmId));
    var ok := db.Statement();
    if !ok {
      return Some(StoreError);
    }
    db.InsertLink(planetId, filmId);
    err := None;
  }

  /** The first link row between the planet and the film, whether or not it is marked deleted. */
  method GetFilmWithPlanet(db: Database, planetId: int, filmId: int) returns (r: Result<Option<LinkRow>>)
    requires db.Valid()
    modifies db`budget, db`refusals, db`calls
    ensures db.Valid() && db.State() == old(db.State())
    ensures db.budget == AfterStatement(old(db.budget)) && db.calls == old(db.calls) + [FilmGetWithPlanet(planetId, filmId)]
    ensures db.refusals == old(db.refusals) + (if Exhausted(old(db.budget)) then 1 else 0)
    ensures r.Err? <==> Exhausted(old(db.budget))
    ensures r.Err? ==> r.error == StoreError
    ensures r.Ok? ==> (r.value.None? <==> FindLink(db.links, planetId, filmId).None?)
    ensures r.Ok? && r.value.Some? ==> r.value.value == db.links[FindLink(db.links, planetId, filmId).value]
  {
    db.Log(FilmGetWithPlanet(planetId, filmId));
    var ok := db.Statement();
    if !ok {
      return Err(StoreError);
    }
    match FindLink(db.links, planetId, filmId)
    case None => r := Ok(None);
    case Some(i) => r := Ok(Some(db.links[i]));
  }

  /** `joined` in front of a join's rows; an error stays the error. */
  function PrependJoined(joined: seq<FilmPlanet>, r: Result<seq<FilmPlanet>>): Result<seq<FilmPlanet>>
  {
    match r
    case Ok(rest) => Ok(joined + rest)
    case Err(e) => Err(e)
  }

  /** One step of the join: the row at position `i` either fails the scan or is appended. */
  lemma JoinStep(rows: seq<LinkRow>, films: seq<FilmRow>, i: nat, joined: seq<FilmPlanet>)
    requires i < |rows|
    requires JoinFilms(rows, films) == PrependJoined(joined, JoinFilms(rows[i..], films))
    ensures FindFilmById(films, rows[i].filmId).None? ==> JoinFilms(rows, films) == Err(StoreError)
    ensures FindFilmById(films, rows[i].filmId).Some? ==>
      var l := rows[i];
      JoinFilms(rows, films) == PrependJoined(
        joined + [FilmPlanet(l.planetId, l.filmId, l.deleted, films[FindFilmById(films, l.filmId).value])],
        JoinFilms(rows[i + 1..], films))
  {
    assert rows[i..][0] == rows[i] && rows[i..][1..] == rows[i + 1..];
    var l := rows[i];
    if FindFilmById(films, l.filmId).Some? && JoinFilms(rows[i + 1..], films).Ok? {
      var row := FilmPlanet(l.planetId, l.filmId, l.deleted, films[FindFilmById(films, l.filmId).value]);
      var rest := JoinFilms(rows[i + 1..], films).value;
      assert (joined + [row]) + rest == joined + ([row] + rest);
    }
  }

  /**
   * Every link of the given planets joined with its film, in table order and
   * whatever the link's deletion mark. The result rows are scanned one by one;
   * a link whose film row is missing fails the scan and the whole call.
   */
  method GetFilmsByPlanetIds(db: Database, ids: seq<int>) returns (r: Result<seq<FilmPlanet>>)
    requires db.Valid()
    modifies db`budget, db`refusals, db`calls
    ensures db.Valid() && db.State() == old(db.State())
    ensures db.calls == old(db.calls) + [FilmGetByPlanetIds(ids)]
    ensures db.budget == if ids == [] then old(db.budget) else AfterStatement(old(db.budget))
    ensures db.refusals == old(db.refusals) + (if ids != [] && Exhausted(old(db.budget)) then 1 else 0)
    ensures ids == [] || Exhausted(old(db.budget)) ==> r == Err(StoreError)
    ensures !Exhausted(old(db.budget)) ==> r == FilmsByPlanetIds(db.State(), ids)
  {
    db.Log(FilmGetByPlanetIds(ids));
    if ids == [] {
      return Err(StoreError);
    }
    var ok := db.Statement();
    if !ok {
      return Err(StoreError);
    }
    r := ScanJoin(LinksOf(db.links, ids), db.films);
  }

  /** Scans the join's result rows one by one; a link whose film row is missing fails the scan. */
  method ScanJoin(rows: seq<LinkRow>, films: seq<FilmRow>) returns (r: Result<seq<FilmPlanet>>)
    ensures r == JoinFilms(rows, films)
  {
    var joined: seq<FilmPlanet> := [];
    var i := 0;
    assert rows[i..] == rows;
    if JoinFilms(rows, films).Ok? {
      assert joined + JoinFilms(rows, films).value == JoinFilms(rows, films).value;
    }
    while i < |rows|
      invariant 0 <= i <= |rows|
      invariant JoinFilms(rows, films) == PrependJoined(joined, JoinFilms(rows[i..], films))
    {
      var link := rows[i];
      JoinStep(rows, films, i, joined);
      match FindFilmById(films, link.filmId)
      case None =>
        return Err(StoreError);
      case Some(k) =>
        joined := joined + [FilmPlanet(link.planetId, link.filmId, link.deleted, films[k])];
      i := i + 1;
    }
    assert rows[i..] == [];
    assert joined + [] == joined;
    r := Ok(joined);
  }
}
