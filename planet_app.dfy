/**
 * The planet application: the import that reconciles the remote planets and
 * films with the tables, and the read/delete facade over the stores.
 */
module PlanetApp {
  import opened Wrappers
  import opened Tables
  import opened Remote
  import PS = PlanetStore
  import FS = FilmStore

  // ---------------------------------------------------------------------------
  // What the import promises, stated over table snapshots
  // ---------------------------------------------------------------------------

  /** `now` only adds rows at the end of each of the tables of `was`. */
  predicate Grown(was: Snapshot, now: Snapshot)
  {
    was.planets <= now.planets && was.films <= now.films && was.links <= now.links
  }

  /** The planet rows added after `was` are active, and none repeats the name of an active row before it. */
  predicate NoNewPlanetDuplicates(was: seq<PlanetRow>, now: seq<PlanetRow>)
  {
    was <= now &&
    (forall j :: |was| <= j < |now| ==> !now[j].deleted) &&
    (forall i, j :: 0 <= i < j < |now| && |was| <= j && !now[i].deleted ==> now[i].name != now[j].name)
  }

  /** The film rows added after `was` repeat no name of a row before them. */
  predicate NoNewFilmDuplicates(was: seq<FilmRow>, now: seq<FilmRow>)
  {
    was <= now &&
    (forall i, j :: 0 <= i < j < |now| && |was| <= j ==> now[i].name != now[j].name)
  }

  /** The link rows added after `was` are not deleted, and none repeats the pair of a row before it, deleted or not. */
  predicate NoNewLinkDuplicates(was: seq<LinkRow>, now: seq<LinkRow>)
  {
    was <= now &&
    (forall j :: |was| <= j < |now| ==> !now[j].deleted) &&
    (forall i, j :: 0 <= i < j < |now| && |was| <= j ==> !LinkOf(now[i], now[j].planetId, now[j].filmId))
  }

  /** A film row with this title exists and the first such row is linked to the planet. */
  predicate FilmLinked(t: Snapshot, planetId: int, title: string)
  {
    FindFilm(t.films, title).Some? &&
    FindLink(t.links, planetId, t.films[FindFilm(t.films, title).value].id).Some?
  }

  predicate FilmsLinked(t: Snapshot, planetId: int, films: seq<FS.RemoteFilm>)
  {
    forall f :: f in films ==> FilmLinked(t, planetId, f.title)
  }

  /**
   * A remote planet is imported when an active row carries its name and each
   * film its references resolve to is linked to the first such row.
   */
  predicate PlanetImported(t: Snapshot, base: string, remote: map<string, Response<FS.RemoteFilm>>, p: PS.RemotePlanet)
  {
    FS.AllWellFormed(base, p.films) &&
    FindActivePlanet(t.planets, p.name).Some? &&
    FS.FetchFilms(base, p.films, remote).Ok? &&
    FilmsLinked(t, t.planets[FindActivePlanet(t.planets, p.name).value].id, FS.FetchFilms(base, p.films, remote).value)
  }

  predicate AllImported(t: Snapshot, base: string, remote: map<string, Response<FS.RemoteFilm>>, ps: seq<PS.RemotePlanet>)
  {
    forall p :: p in ps ==> PlanetImported(t, base, remote, p)
  }

  /** Every remote planet's film references can be split by the store. */
  predicate PlanetsWellFormed(base: string, ps: seq<PS.RemotePlanet>)
  {
    forall p :: p in ps ==> FS.AllWellFormed(base, p.films)
  }

  /** The remote planets of the pages, page by page and in page order. */
  function Flatten(pages: seq<PS.PlanetPage>): seq<PS.RemotePlanet>
  {
    if pages == [] then [] else Flatten(pages[..|pages| - 1]) + pages[|pages| - 1].results
  }

  /** The nested loops visit nothing but planets of the pages. */
  lemma {:induction false} FlattenFromPages(pages: seq<PS.PlanetPage>, x: PS.RemotePlanet)
    requires x in Flatten(pages)
    ensures exists k :: 0 <= k < |pages| && x in pages[k].results
  {
    var last := |pages| - 1;
    assert Flatten(pages) == Flatten(pages[..last]) + pages[last].results;
    if x !in pages[last].results {
      FlattenFromPages(pages[..last], x);
      var k :| 0 <= k < last && x in pages[..last][k].results;
      assert x in pages[k].results;
    }
  }

  /** The references of every planet the crawl would return can be split. */
  predicate RefsWellFormed(base: string, replies: seq<Response<PS.PlanetPage>>)
  {
    PS.Crawl(replies).Ok? ==> PlanetsWellFormed(base, Flatten(PS.Crawl(replies).value))
  }

  /** The id of the first active planet row with the name, if any. */
  function PlanetIdFor(rows: seq<PlanetRow>, name: string): Option<int>
  {
    match FindActivePlanet(rows, name)
    case None => None
    case Some(i) => Some(rows[i].id)
  }

  /** The id of the first film row with the title, if any. */
  function FilmIdFor(rows: seq<FilmRow>, title: string): Option<int>
  {
    match FindFilm(rows, title)
    case None => None
    case Some(i) => Some(rows[i].id)
  }

  /** The row the import writes for a remote planet: its name, climate and terrain, active. */
  predicate PlanetRowFor(row: PlanetRow, p: PS.RemotePlanet)
  {
    row.name == p.name && row.climate == p.climate && row.terrain == p.terrain && !row.deleted
  }

  /** The row the import writes for a remote film: its title as the name, its director and release date. */
  predicate FilmRowFor(row: FilmRow, f: FS.RemoteFilm)
  {
    row.name == f.title && row.director == f.director && row.releaseDate == f.releaseDate
  }

  /** The film row is the row of one of the films. */
  predicate FilmRowOfSome(row: FilmRow, films: seq<FS.RemoteFilm>)
  {
    exists f :: f in films && FilmRowFor(row, f)
  }

  /** The link points at the first film row titled after one of the films. */
  predicate LinkToSome(link: LinkRow, rows: seq<FilmRow>, films: seq<FS.RemoteFilm>)
  {
    exists f :: f in films && FilmIdFor(rows, f.title) == Some(link.filmId)
  }

  /** Every film row added after `was` is the row of one of the films. */
  predicate FilmRowsFrom(was: seq<FilmRow>, now: seq<FilmRow>, films: seq<FS.RemoteFilm>)
  {
    forall j :: |was| <= j < |now| ==> FilmRowOfSome(now[j], films)
  }

  /** Every link row added after `was` points at the first film row titled after one of the films. */
  predicate LinksToFilms(was: seq<LinkRow>, now: Snapshot, films: seq<FS.RemoteFilm>)
  {
    forall j :: |was| <= j < |now.links| ==> LinkToSome(now.links[j], now.films, films)
  }

  /** `f` is one of the films the references of `p` resolve to. */
  predicate Fetched(base: string, remote: map<string, Response<FS.RemoteFilm>>, p: PS.RemotePlanet, f: FS.RemoteFilm)
  {
    FS.AllWellFormed(base, p.films) && FS.FetchFilms(base, p.films, remote).Ok? && f in FS.FetchFilms(base, p.films, remote).value
  }

  /** The planet row is the row of one of the remote planets. */
  predicate PlanetFromSome(row: PlanetRow, ps: seq<PS.RemotePlanet>)
  {
    exists p :: p in ps && PlanetRowFor(row, p)
  }

  /** The film row is the row of a film fetched for one of the remote planets. */
  ghost predicate FilmFromSome(row: FilmRow, base: string, remote: map<string, Response<FS.RemoteFilm>>, ps: seq<PS.RemotePlanet>)
  {
    exists p, f :: p in ps && Fetched(base, remote, p, f) && FilmRowFor(row, f)
  }

  /**
   * The link joins the active planet row named after one of the remote
   * planets to the film row titled after one of that planet's fetched films.
   */
  ghost predicate LinkFromSome(link: LinkRow, t: Snapshot, base: string, remote: map<string, Response<FS.RemoteFilm>>, ps: seq<PS.RemotePlanet>)
  {
    exists p, f :: p in ps && Fetched(base, remote, p, f) &&
      PlanetIdFor(t.planets, p.name) == Some(link.planetId) && FilmIdFor(t.films, f.title) == Some(link.filmId)
  }

  /** Every row added after `was` comes from the remote planets `ps` and their fetched films. */
  ghost predicate RowsFrom(was: Snapshot, now: Snapshot, base: string, remote: map<string, Response<FS.RemoteFilm>>, ps: seq<PS.RemotePlanet>)
  {
    (forall j :: |was.planets| <= j < |now.planets| ==> PlanetFromSome(now.planets[j], ps)) &&
    (forall j :: |was.films| <= j < |now.films| ==> FilmFromSome(now.films[j], base, remote, ps)) &&
    (forall j :: |was.links| <= j < |now.links| ==> LinkFromSome(now.links[j], now, base, remote, ps))
  }

  /** Every planet's film references resolve without a failure. */
  predicate FetchesSucceed(base: string, remote: map<string, Response<FS.RemoteFilm>>, ps: seq<PS.RemotePlanet>)
  {
    forall p :: p in ps ==> FS.AllWellFormed(base, p.films) && FS.FetchFilms(base, p.films, remote).Ok?
  }

  /** `e` is the failure of resolving the film references of one of the planets. */
  predicate FetchFailed(e: Error, base: string, remote: map<string, Response<FS.RemoteFilm>>, ps: seq<PS.RemotePlanet>)
  {
    exists p :: p in ps && FS.AllWellFormed(base, p.films) && FS.FetchFilms(base, p.films, remote) == Err(e)
  }

  // ---------------------------------------------------------------------------
  // Lemmas: growth keeps what was established
  // ---------------------------------------------------------------------------

  lemma FindFilmGrows(rows: seq<FilmRow>, more: seq<FilmRow>, name: string)
    requires rows <= more && FindFilm(rows, name).Some?
    ensures FindFilm(more, name) == FindFilm(rows, name)
  {
    var i := FindFilm(rows, name).value;
    assert more[i] == rows[i];
    assert forall j :: 0 <= j < i ==> more[j] == rows[j];
  }

  lemma FindActivePlanetGrows(rows: seq<PlanetRow>, more: seq<PlanetRow>, name: string)
    requires rows <= more && FindActivePlanet(rows, name).Some?
    ensures FindActivePlanet(more, name) == FindActivePlanet(rows, name)
  {
    var i := FindActivePlanet(rows, name).value;
    assert more[i] == rows[i];
    assert forall j :: 0 <= j < i ==> more[j] == rows[j];
  }

  lemma FindLinkGrows(rows: seq<LinkRow>, more: seq<LinkRow>, planetId: int, filmId: int)
    requires rows <= more && FindLink(rows, planetId, filmId).Some?
    ensures FindLink(more, planetId, filmId).Some?
  {
    var i := FindLink(rows, planetId, filmId).value;
    assert more[i] == rows[i];
  }

  /** Appending rows keeps every film linked that was linked. */
  lemma {:induction false} FilmsLinkedGrow(t: Snapshot, u: Snapshot, planetId: int, films: seq<FS.RemoteFilm>)
    requires Grown(t, u) && FilmsLinked(t, planetId, films)
    ensures FilmsLinked(u, planetId, films)
  {
    forall f | f in films ensures FilmLinked(u, planetId, f.title) {
      FindFilmGrows(t.films, u.films, f.title);
      var k := FindFilm(t.films, f.title).value;
      assert u.films[k] == t.films[k];
      FindLinkGrows(t.links, u.links, planetId, t.films[k].id);
    }
  }

  lemma FilmsLinkedSnoc(t: Snapshot, planetId: int, films: seq<FS.RemoteFilm>, film: FS.RemoteFilm)
    requires FilmsLinked(t, planetId, films) && FilmLinked(t, planetId, film.title)
    ensures FilmsLinked(t, planetId, films + [film])
  {
  }

  /** Appending rows keeps every planet imported that was imported. */
  lemma {:induction false} AllImportedGrow(t: Snapshot, u: Snapshot, base: string, remote: map<string, Response<FS.RemoteFilm>>, ps: seq<PS.RemotePlanet>)
    requires Grown(t, u) && AllImported(t, base, remote, ps)
    ensures AllImported(u, base, remote, ps)
  {
    forall p | p in ps ensures PlanetImported(u, base, remote, p) {
      FindActivePlanetGrows(t.planets, u.planets, p.name);
      var k := FindActivePlanet(t.planets, p.name).value;
      assert u.planets[k] == t.planets[k];
      FilmsLinkedGrow(t, u, t.planets[k].id, FS.FetchFilms(base, p.films, remote).value);
    }
  }

  lemma {:induction false} NoNewPlanetDuplicatesTrans(a: seq<PlanetRow>, b: seq<PlanetRow>, c: seq<PlanetRow>)
    requires NoNewPlanetDuplicates(a, b) && NoNewPlanetDuplicates(b, c)
    ensures NoNewPlanetDuplicates(a, c)
  {
    forall i, j | 0 <= i < j < |c| && |a| <= j && !c[i].deleted
      ensures c[i].name != c[j].name
    {
      if j < |b| {
        assert c[i] == b[i] && c[j] == b[j];
      }
    }
    forall j | |a| <= j < |c| ensures !c[j].deleted {
      if j < |b| {
        assert c[j] == b[j];
      }
    }
  }

  lemma {:induction false} NoNewFilmDuplicatesTrans(a: seq<FilmRow>, b: seq<FilmRow>, c: seq<FilmRow>)
    requires NoNewFilmDuplicates(a, b) && NoNewFilmDuplicates(b, c)
    ensures NoNewFilmDuplicates(a, c)
  {
    forall i, j | 0 <= i < j < |c| && |a| <= j
      ensures c[i].name != c[j].name
    {
      if j < |b| {
        assert c[i] == b[i] && c[j] == b[j];
      }
    }
  }

  lemma {:induction false} NoNewLinkDuplicatesTrans(a: seq<LinkRow>, b: seq<LinkRow>, c: seq<LinkRow>)
    requires NoNewLinkDuplicates(a, b) && NoNewLinkDuplicates(b, c)
    ensures NoNewLinkDuplicates(a, c)
  {
    forall i, j | 0 <= i < j < |c| && |a| <= j
      ensures !LinkOf(c[i], c[j].planetId, c[j].filmId)
    {
      if j < |b| {
        assert c[i] == b[i] && c[j] == b[j];
      }
    }
    forall j | |a| <= j < |c| ensures !c[j].deleted {
      if j < |b| {
        assert c[j] == b[j];
      }
    }
  }

  lemma PlanetIdForGrows(rows: seq<PlanetRow>, more: seq<PlanetRow>, name: string)
    requires rows <= more && PlanetIdFor(rows, name).Some?
    ensures PlanetIdFor(more, name) == PlanetIdFor(rows, name)
  {
    FindActivePlanetGrows(rows, more, name);
    assert more[FindActivePlanet(rows, name).value] == rows[FindActivePlanet(rows, name).value];
  }

  lemma FilmIdForGrows(rows: seq<FilmRow>, more: seq<FilmRow>, title: string)
    requires rows <= more && FilmIdFor(rows, title).Some?
    ensures FilmIdFor(more, title) == FilmIdFor(rows, title)
  {
    FindFilmGrows(rows, more, title);
    assert more[FindFilm(rows, title).value] == rows[FindFilm(rows, title).value];
  }

  /** One step of the film loop keeps every new film row and link coming from the films. */
  lemma {:induction false} LinkFilmStep(start: Snapshot, before: Snapshot, after: Snapshot, films: seq<FS.RemoteFilm>, film: FS.RemoteFilm)
    requires film in films && Grown(start, before) && Grown(before, after)
    requires FilmRowsFrom(start.films, before.films, films) && LinksToFilms(start.links, before, films)
    requires forall j :: |before.films| <= j < |after.films| ==> FilmRowFor(after.films[j], film)
    requires forall j :: |before.links| <= j < |after.links| ==> FilmIdFor(after.films, film.title) == Some(after.links[j].filmId)
    ensures FilmRowsFrom(start.films, after.films, films) && LinksToFilms(start.links, after, films)
  {
    forall j | |start.films| <= j < |after.films| ensures FilmRowOfSome(after.films[j], films) {
      if j < |before.films| {
        assert after.films[j] == before.films[j];
      } else {
        assert FilmRowFor(after.films[j], film);
      }
    }
    forall j | |start.links| <= j < |after.links| ensures LinkToSome(after.links[j], after.films, films) {
      if j < |before.links| {
        assert after.links[j] == before.links[j];
        var f :| f in films && FilmIdFor(before.films, f.title) == Some(before.links[j].filmId);
        FilmIdForGrows(before.films, after.films, f.title);
      } else {
        assert FilmIdFor(after.films, film.title) == Some(after.links[j].filmId);
      }
    }
  }

  /**
   * The rows one import step writes for a planet: its own planet row when
   * none was active, the rows of its fetched films, and links from its row to
   * those films' rows.
   */
  lemma {:induction false} ImportPlanetRows(before: Snapshot, middle: Snapshot, final: Snapshot, base: string,
                                            remote: map<string, Response<FS.RemoteFilm>>, planet: PS.RemotePlanet, planetId: int)
    requires FS.AllWellFormed(base, planet.films)
    requires middle.films == before.films && middle.links == before.links && before.planets <= middle.planets
    requires forall j :: |before.planets| <= j < |middle.planets| ==> PlanetRowFor(middle.planets[j], planet)
    requires PlanetIdFor(middle.planets, planet.name) == Some(planetId)
    requires final.planets == middle.planets && Grown(middle, final)
    requires forall j :: |middle.links| <= j < |final.links| ==> final.links[j].planetId == planetId
    requires FS.FetchFilms(base, planet.films, remote).Err? ==> final == middle
    requires FS.FetchFilms(base, planet.films, remote).Ok? ==>
               FilmRowsFrom(middle.films, final.films, FS.FetchFilms(base, planet.films, remote).value) &&
               LinksToFilms(middle.links, final, FS.FetchFilms(base, planet.films, remote).value)
    ensures RowsFrom(before, final, base, remote, [planet])
  {
    forall j | |before.planets| <= j < |final.planets| ensures PlanetFromSome(final.planets[j], [planet]) {
      assert PlanetRowFor(final.planets[j], planet);
    }
    forall j | |before.films| <= j < |final.films| ensures FilmFromSome(final.films[j], base, remote, [planet]) {
      assert FilmRowOfSome(final.films[j], FS.FetchFilms(base, planet.films, remote).value);
      var f :| f in FS.FetchFilms(base, planet.films, remote).value && FilmRowFor(final.films[j], f);
      assert Fetched(base, remote, planet, f);
    }
    forall j | |before.links| <= j < |final.links| ensures LinkFromSome(final.links[j], final, base, remote, [planet]) {
      assert LinkToSome(final.links[j], final.films, FS.FetchFilms(base, planet.films, remote).value);
      var f :| f in FS.FetchFilms(base, planet.films, remote).value && FilmIdFor(final.films, f.title) == Some(final.links[j].filmId);
      assert Fetched(base, remote, planet, f);
    }
  }

  /** Rows that come from `ps` up to `b` and from planets among `ps` after it come from `ps` throughout. */
  lemma {:induction false} RowsFromTrans(a: Snapshot, b: Snapshot, c: Snapshot, base: string,
                                         remote: map<string, Response<FS.RemoteFilm>>, ps: seq<PS.RemotePlanet>, qs: seq<PS.RemotePlanet>)
    requires Grown(a, b) && Grown(b, c) && forall q :: q in qs ==> q in ps
    requires RowsFrom(a, b, base, remote, ps) && RowsFrom(b, c, base, remote, qs)
    ensures RowsFrom(a, c, base, remote, ps)
  {
    forall j | |a.planets| <= j < |c.planets| ensures PlanetFromSome(c.planets[j], ps) {
      if j < |b.planets| {
        assert c.planets[j] == b.planets[j];
      } else {
        assert PlanetFromSome(c.planets[j], qs);
        var p :| p in qs && PlanetRowFor(c.planets[j], p);
      }
    }
    forall j | |a.films| <= j < |c.films| ensures FilmFromSome(c.films[j], base, remote, ps) {
      if j < |b.films| {
        assert c.films[j] == b.films[j];
      } else {
        assert FilmFromSome(c.films[j], base, remote, qs);
        var p, f :| p in qs && Fetched(base, remote, p, f) && FilmRowFor(c.films[j], f);
      }
    }
    forall j | |a.links| <= j < |c.links| ensures LinkFromSome(c.links[j], c, base, remote, ps) {
      if j < |b.links| {
        var link := b.links[j];
        assert c.links[j] == link;
        var p, f :| p in ps && Fetched(base, remote, p, f) &&
                    PlanetIdFor(b.planets, p.name) == Some(link.planetId) && FilmIdFor(b.films, f.title) == Some(link.filmId);
        PlanetIdForGrows(b.planets, c.planets, p.name);
        FilmIdForGrows(b.films, c.films, f.title);
      } else {
        assert LinkFromSome(c.links[j], c, base, remote, qs);
        var p, f :| p in qs && Fetched(base, remote, p, f) &&
                    PlanetIdFor(c.planets, p.name) == Some(c.links[j].planetId) && FilmIdFor(c.films, f.title) == Some(c.links[j].filmId);
      }
    }
  }

  // ---------------------------------------------------------------------------
  // The import
  // ---------------------------------------------------------------------------

  /**
   * Resolves the film references of one planet and, for each film in turn,
   * reuses the film row with its title or inserts one, then inserts a link
   * to the planet unless a link for the pair already exists. The first error
   * is returned as it is and ends the call; rows written before it stay.
   */
  method SaveFilms(db: Database, base: string, refs: seq<string>, planetId: int, remote: map<string, Response<FS.RemoteFilm>>)
    returns (err: Option<Error>)
    requires db.Valid() && FS.AllWellFormed(base, refs)
    modifies db
    ensures db.Valid()
    ensures db.planets == old(db.planets) && Grown(old(db.State()), db.State())
    ensures NoNewFilmDuplicates(old(db.films), db.films)
    ensures NoNewLinkDuplicates(old(db.links), db.links)
    ensures forall j :: |old(db.links)| <= j < |db.links| ==> db.links[j].planetId == planetId
    ensures FS.FetchFilms(base, refs, remote).Err? ==>
              err == Some(FS.FetchFilms(base, refs, remote).error) && db.State() == old(db.State())
    ensures err.None? ==>
              FS.FetchFilms(base, refs, remote).Ok? &&
              FilmsLinked(db.State(), planetId, FS.FetchFilms(base, refs, remote).value)
    ensures FS.FetchFilms(base, refs, remote).Ok? &&
            FilmsLinked(old(db.State()), planetId, FS.FetchFilms(base, refs, remote).value) ==>
            db.State() == old(db.State())
    ensures FS.FetchFilms(base, refs, remote).Ok? ==>
              FilmRowsFrom(old(db.films), db.films, FS.FetchFilms(base, refs, remote).value) &&
              LinksToFilms(old(db.links), db.State(), FS.FetchFilms(base, refs, remote).value)
    ensures old(db.budget) == None ==> db.budget == None
    ensures old(db.budget) == None && FS.FetchFilms(base, refs, remote).Ok? ==> err.None?
    ensures FS.FetchFilms(base, refs, remote).Ok? && err.Some? ==> err.value == StoreError && Exhausted(db.budget)
    ensures db.refusals == old(db.refusals) + (if err == Some(StoreError) then 1 else 0)
    ensures db.refusals == old(db.refusals) && FS.FetchFilms(base, refs, remote).Ok? ==> err.None?
  {
    var fetched := FS.GetFilms(base, refs, remote);
    if fetched.Err? {
      return Some(fetched.error);
    }
    err := LinkFilms(db, fetched.value, planetId);
  }

  /**
   * What the film loop keeps between a starting snapshot and now: the planet
   * table is untouched, rows are only appended, no film title or link pair is
   * repeated, and every new link belongs to the planet.
   */
  predicate FilmsGrown(start: Snapshot, now: Snapshot, planetId: int)
  {
    now.planets == start.planets && Grown(start, now) &&
    NoNewFilmDuplicates(start.films, now.films) &&
    NoNewLinkDuplicates(start.links, now.links) &&
    forall j :: |start.links| <= j < |now.links| ==> now.links[j].planetId == planetId
  }

  /** What the film loop keeps since `start`, for the films `films`. */
  predicate FilmLoopKept(start: Snapshot, now: Snapshot, planetId: int, films: seq<FS.RemoteFilm>)
  {
    FilmsGrown(start, now, planetId) &&
    FilmRowsFrom(start.films, now.films, films) && LinksToFilms(start.links, now, films) &&
    (FilmsLinked(start, planetId, films) ==> now == start)
  }

  /** One step of the film loop, as `LinkFilm` promises it, keeps what the loop keeps since `start`. */
  lemma FilmLoopStep(start: Snapshot, before: Snapshot, after: Snapshot, planetId: int, films: seq<FS.RemoteFilm>, film: FS.RemoteFilm)
    requires film in films && FilmLoopKept(start, before, planetId, films)
    requires FilmsGrown(start, after, planetId) && Grown(before, after)
    requires FilmLinked(before, planetId, film.title) ==> after == before
    requires forall j :: |before.films| <= j < |after.films| ==> FilmRowFor(after.films[j], film)
    requires forall j :: |before.links| <= j < |after.links| ==> FilmIdFor(after.films, film.title) == Some(after.links[j].filmId)
    ensures FilmLoopKept(start, after, planetId, films)
  {
    LinkFilmStep(start, before, after, films, film);
    if FilmsLinked(start, planetId, films) {
      assert FilmLinked(before, planetId, film.title);
    }
  }

  /** The film loop of `SaveFilms`: links each resolved film to the planet in turn, stopping at the first error. */
  method LinkFilms(db: Database, films: seq<FS.RemoteFilm>, planetId: int) returns (err: Option<Error>)
    requires db.Valid()
    modifies db
    ensures db.Valid() && FilmsGrown(old(db.State()), db.State(), planetId)
    ensures err.None? ==> FilmsLinked(db.State(), planetId, films)
    ensures FilmsLinked(old(db.State()), planetId, films) ==> db.State() == old(db.State())
    ensures FilmRowsFrom(old(db.films), db.films, films) && LinksToFilms(old(db.links), db.State(), films)
    ensures old(db.budget) == None ==> db.budget == None && err.None?
    ensures err.Some? ==> err.value == StoreError && Exhausted(db.budget)
    ensures db.refusals == old(db.refusals) + (if err.None? then 0 else 1)
  {
    ghost var start := db.State();
    for i := 0 to |films|
      invariant db.Valid() && FilmLoopKept(start, db.State(), planetId, films)
      invariant FilmsLinked(db.State(), planetId, films[..i])
      invariant old(db.budget) == None ==> db.budget == None
      invariant db.refusals == old(db.refusals)
    {
      err := LinkNext(db, films, i, planetId, start);
      if err.Some? {
        return;
      }
    }
    assert films[..|films|] == films;
    err := None;
  }

  /** The body of the film loop: links film `i` and keeps what the loop has established since `start`. */
  method LinkNext(db: Database, films: seq<FS.RemoteFilm>, i: nat, planetId: int, ghost start: Snapshot)
    returns (err: Option<Error>)
    requires db.Valid() && i < |films| && FilmLoopKept(start, db.State(), planetId, films)
    requires FilmsLinked(db.State(), planetId, films[..i])
    modifies db
    ensures db.Valid() && FilmLoopKept(start, db.State(), planetId, films)
    ensures err.None? ==> FilmsLinked(db.State(), planetId, films[..i + 1])
    ensures old(db.budget) == None ==> db.budget == None && err.None?
    ensures err.Some? ==> err.value == StoreError && Exhausted(db.budget)
    ensures db.refusals == old(db.refusals) + (if err.None? then 0 else 1)
  {
    ghost var before := db.State();
    var film := films[i];
    assert film in films;
    err := LinkFilm(db, film, planetId, start);
    FilmLoopStep(start, before, db.State(), planetId, films, film);
    if err.None? {
      FilmsLinkedNext(before, db.State(), planetId, films, i);
    }
  }

  /** Linking film `i` after the films before it links the films up to it. */
  lemma FilmsLinkedNext(before: Snapshot, after: Snapshot, planetId: int, films: seq<FS.RemoteFilm>, i: nat)
    requires i < |films| && Grown(before, after)
    requires FilmsLinked(before, planetId, films[..i]) && FilmLinked(after, planetId, films[i].title)
    ensures FilmsLinked(after, planetId, films[..i + 1])
  {
    FilmsLinkedGrow(before, after, planetId, films[..i]);
    assert films[..i + 1] == films[..i] + [films[i]];
    FilmsLinkedSnoc(after, planetId, films[..i], films[i]);
  }

  /**
   * One step of the film loop: reuses the film row with the film's title or
   * inserts one, then links it to the planet unless a link for the pair
   * exists, deleted or not.
   */
  method LinkFilm(db: Database, film: FS.RemoteFilm, planetId: int, ghost start: Snapshot) returns (err: Option<Error>)
    requires db.Valid() && FilmsGrown(start, db.State(), planetId)
    modifies db
    ensures db.Valid() && FilmsGrown(start, db.State(), planetId) && Grown(old(db.State()), db.State())
    ensures err.None? ==> FilmLinked(db.State(), planetId, film.title)
    ensures FilmLinked(old(db.State()), planetId, film.title) ==> db.State() == old(db.State())
    ensures forall j :: |old(db.films)| <= j < |db.films| ==> FilmRowFor(db.films[j], film)
    ensures forall j :: |old(db.links)| <= j < |db.links| ==> FilmIdFor(db.films, film.title) == Some(db.links[j].filmId)
    ensures old(db.budget) == None ==> db.budget == None && err.None?
    ensures err.Some? ==> err.value == StoreError && Exhausted(db.budget)
    ensures db.refusals == old(db.refusals) + (if err.None? then 0 else 1)
  {
    var filmId := EnsureFilm(db, film, start.films);
    if filmId.Err? {
      return Some(filmId.error);
    }
    ghost var middle := db.State();
    err := EnsureLink(db, planetId, filmId.value, start.links);
  }

  /** Reuses the film row with the film's title, or inserts one; the result is the row's id. */
  method EnsureFilm(db: Database, film: FS.RemoteFilm, ghost start: seq<FilmRow>) returns (r: Result<int>)
    requires db.Valid() && NoNewFilmDuplicates(start, db.films)
    modifies db
    ensures db.Valid() && NoNewFilmDuplicates(start, db.films)
    ensures db.planets == old(db.planets) && db.links == old(db.links) && old(db.films) <= db.films
    ensures r.Ok? ==> FindFilm(db.films, film.title).Some? && db.films[FindFilm(db.films, film.title).value].id == r.value
    ensures FindFilm(old(db.films), film.title).Some? ==> db.films == old(db.films)
    ensures forall j :: |old(db.films)| <= j < |db.films| ==> FilmRowFor(db.films[j], film)
    ensures old(db.budget) == None ==> db.budget == None && r.Ok?
    ensures r.Err? ==> r.error == StoreError && Exhausted(db.budget)
    ensures db.refusals == old(db.refusals) + (if r.Ok? then 0 else 1)
    ensures Exhausted(old(db.budget)) ==>
              r == Err(StoreError) && db.films == old(db.films) && db.calls == old(db.calls) + [FilmGetOne(film.title)]
    ensures !Exhausted(old(db.budget)) && FindFilm(old(db.films), film.title).Some? ==>
              r == Ok(old(db.films)[FindFilm(old(db.films), film.title).value].id) &&
              db.calls == old(db.calls) + [FilmGetOne(film.title)]
    ensures !Exhausted(old(db.budget)) && FindFilm(old(db.films), film.title).None? ==>
              db.calls == old(db.calls) + [FilmGetOne(film.title), FilmSave(film.title)] &&
              (r.Ok? <==> !Exhausted(AfterStatement(old(db.budget)))) &&
              (r.Ok? ==> db.films == old(db.films) + [FilmRow(r.value, film.title, film.director, film.releaseDate)]) &&
              (r.Err? ==> r.error == StoreError && db.films == old(db.films))
  {
    var found := FS.GetOne(db, film.title);
    if found.Err? {
      return Err(found.error);
    }
    if found.value.Some? {
      return Ok(found.value.value.id);
    }
    ghost var before := db.films;
    r := FS.SaveFilm(db, film);
    if r.Ok? {
      assert FindFilm(db.films, film.title) == Some(|before|) by {
        assert db.films[|before|].name == film.title;
      }
      assert NoNewFilmDuplicates(before, db.films);
      NoNewFilmDuplicatesTrans(start, before, db.films);
    }
  }

  /** Inserts a link between the planet and the film unless one exists for the pair, deleted or not. */
  method EnsureLink(db: Database, planetId: int, filmId: int, ghost start: seq<LinkRow>) returns (err: Option<Error>)
    requires db.Valid() && NoNewLinkDuplicates(start, db.links)
    requires forall j :: |start| <= j < |db.links| ==> db.links[j].planetId == planetId
    modifies db
    ensures db.Valid() && NoNewLinkDuplicates(start, db.links)
    ensures forall j :: |start| <= j < |db.links| ==> db.links[j].planetId == planetId
    ensures db.planets == old(db.planets) && db.films == old(db.films) && old(db.links) <= db.links
    ensures err.None? ==> FindLink(db.links, planetId, filmId).Some?
    ensures FindLink(old(db.links), planetId, filmId).Some? ==> db.links == old(db.links)
    ensures old(db.budget) == None ==> db.budget == None && err.None?
    ensures err.Some? ==> err.value == StoreError && Exhausted(db.budget)
    ensures db.refusals == old(db.refusals) + (if err.None? then 0 else 1)
    ensures Exhausted(old(db.budget)) ==>
              err == Some(StoreError) && db.links == old(db.links) && db.calls == old(db.calls) + [FilmGetWithPlanet(planetId, filmId)]
    ensures !Exhausted(old(db.budget)) && FindLink(old(db.links), planetId, filmId).Some? ==>
              err.None? && db.calls == old(db.calls) + [FilmGetWithPlanet(planetId, filmId)]
    ensures !Exhausted(old(db.budget)) && FindLink(old(db.links), planetId, filmId).None? ==>
              db.calls == old(db.calls) + [FilmGetWithPlanet(planetId, filmId), FilmSaveWithPlanet(planetId, filmId)] &&
              (err.None? <==> !Exhausted(AfterStatement(old(db.budget)))) &&
              db.links == (if err.None? then old(db.links) + [LinkRow(planetId, filmId, false)] else old(db.links)) &&
              (err.Some? ==> err.value == StoreError)
  {
    var link := FS.GetFilmWithPlanet(db, planetId, filmId);
    if link.Err? {
      return Some(link.error);
    }
    if link.value.Some? {
      return None;
    }
    ghost var before := db.links;
    err := FS.SaveFilmWithPlanet(db, planetId, filmId);
    if err.None? {
      assert LinkOf(db.links[|before|], planetId, filmId);
      assert NoNewLinkDuplicates(before, db.links);
      NoNewLinkDuplicatesTrans(start, before, db.links);
    }
  }

  /**
   * Fetches every remote planet page, then for each planet in page order
   * reuses the active planet row with its name or inserts one, and saves the
   * planet's films against that row. The first error is returned as it is
   * and ends the import; rows written before it stay.
   */
  method CreatePlanetsAndFilms(db: Database, base: string, replies: seq<Response<PS.PlanetPage>>, remote: map<string, Response<FS.RemoteFilm>>)
    returns (err: Option<Error>)
    requires db.Valid() && RefsWellFormed(base, replies)
    modifies db
    ensures db.Valid()
    ensures Grown(old(db.State()), db.State())
    ensures NoNewPlanetDuplicates(old(db.planets), db.planets)
    ensures NoNewFilmDuplicates(old(db.films), db.films)
    ensures NoNewLinkDuplicates(old(db.links), db.links)
    ensures PS.Crawl(replies).Err? ==> err == Some(PS.Crawl(replies).error) && db.State() == old(db.State())
    ensures err.None? ==> PS.Crawl(replies).Ok? && AllImported(db.State(), base, remote, Flatten(PS.Crawl(replies).value))
    ensures PS.Crawl(replies).Ok? && AllImported(old(db.State()), base, remote, Flatten(PS.Crawl(replies).value)) ==>
      db.State() == old(db.State())
    ensures PS.Crawl(replies).Ok? ==> RowsFrom(old(db.State()), db.State(), base, remote, Flatten(PS.Crawl(replies).value))
    ensures old(db.budget) == None && PS.Crawl(replies).Ok? && FetchesSucceed(base, remote, Flatten(PS.Crawl(replies).value)) ==>
      err.None?
    ensures err.Some? && PS.Crawl(replies).Ok? ==>
      (err.value == StoreError && Exhausted(db.budget)) || FetchFailed(err.value, base, remote, Flatten(PS.Crawl(replies).value))
    ensures db.refusals == old(db.refusals) + (if err == Some(StoreError) then 1 else 0)
    ensures db.refusals == old(db.refusals) && PS.Crawl(replies).Ok? && FetchesSucceed(base, remote, Flatten(PS.Crawl(replies).value)) ==>
      err.None?
    ensures RowCount(db.State()) - RowCount(old(db.State())) == db.inserted - old(db.inserted)
    ensures err.Some? && PS.Crawl(replies).Ok? ==>
      exists k :: 0 <= k < |Flatten(PS.Crawl(replies).value)| &&
        StoppedAt(db.State(), err.value, base, remote, Flatten(PS.Crawl(replies).value)[..k], Flatten(PS.Crawl(replies).value)[k])
  {
    var crawled, _ := PS.GetPlanets(replies);
    if crawled.Err? {
      return Some(crawled.error);
    }
    err := ImportPages(db, base, crawled.value, remote);
  }

  /** The nested loops of the import: every planet of every page, in order, stopping at the first error. */
  method ImportPages(db: Database, base: string, pages: seq<PS.PlanetPage>, remote: map<string, Response<FS.RemoteFilm>>)
    returns (err: Option<Error>)
    requires db.Valid() && PlanetsWellFormed(base, Flatten(pages))
    modifies db
    ensures db.Valid()
    ensures Grown(old(db.State()), db.State())
    ensures NoNewPlanetDuplicates(old(db.planets), db.planets)
    ensures NoNewFilmDuplicates(old(db.films), db.films)
    ensures NoNewLinkDuplicates(old(db.links), db.links)
    ensures err.None? ==> AllImported(db.State(), base, remote, Flatten(pages))
    ensures AllImported(old(db.State()), base, remote, Flatten(pages)) ==> db.State() == old(db.State())
    ensures RowsFrom(old(db.State()), db.State(), base, remote, Flatten(pages))
    ensures old(db.budget) == None ==> db.budget == None
    ensures old(db.budget) == None && FetchesSucceed(base, remote, Flatten(pages)) ==> err.None?
    ensures err.Some? ==>
              (err.value == StoreError && Exhausted(db.budget)) || FetchFailed(err.value, base, remote, Flatten(pages))
    ensures db.refusals == old(db.refusals) + (if err == Some(StoreError) then 1 else 0)
    ensures db.refusals == old(db.refusals) && FetchesSucceed(base, remote, Flatten(pages)) ==> err.None?
    ensures RowCount(db.State()) - RowCount(old(db.State())) == db.inserted - old(db.inserted)
    ensures err.Some? ==> exists k :: 0 <= k < |Flatten(pages)| && StoppedAt(db.State(), err.value, base, remote, Flatten(pages)[..k], Flatten(pages)[k])
  {
    ghost var all := Flatten(pages);
    ghost var start := db.State();
    for i := 0 to |pages|
      invariant db.Valid() && ImportKept(start, db.State(), base, remote, all)
      invariant AllImported(db.State(), base, remote, Flatten(pages[..i]))
      invariant old(db.budget) == None ==> db.budget == None
      invariant db.refusals == old(db.refusals)
    {
      forall j | 0 <= j < |pages[i].results| ensures pages[i].results[j] in all {
        FlattenHas(pages, i, j);
      }
      err := ImportResults(db, base, pages[i].results, remote, start, all, Flatten(pages[..i]));
      if err.Some? {
        var k: nat :| k < |pages[i].results| && StoppedAt(db.State(), err.value, base, remote, Flatten(pages[..i]) + pages[i].results[..k], pages[i].results[k]);
        var n := StoppedInPage(db.State(), err.value, base, remote, pages, i, k);
        return;
      }
      assert pages[..i + 1][..i] == pages[..i];
    }
    assert pages[..|pages|] == pages;
    err := None;
  }

  /** What the import keeps from its start to now, for the crawled planets `all`. */
  ghost predicate ImportKept(start: Snapshot, now: Snapshot, base: string, remote: map<string, Response<FS.RemoteFilm>>, all: seq<PS.RemotePlanet>)
  {
    Grown(start, now) &&
    NoNewPlanetDuplicates(start.planets, now.planets) &&
    NoNewFilmDuplicates(start.films, now.films) &&
    NoNewLinkDuplicates(start.links, now.links) &&
    RowsFrom(start, now, base, remote, all) &&
    (AllImported(start, base, remote, all) ==> now == start)
  }

  /**
   * The import stopped with `e` at planet `p`: the planets `before` it stay
   * imported, and unless `e` is a store error, `p` has its active row and
   * fetching its films failed with `e`.
   */
  predicate StoppedAt(t: Snapshot, e: Error, base: string, remote: map<string, Response<FS.RemoteFilm>>,
                      before: seq<PS.RemotePlanet>, p: PS.RemotePlanet)
  {
    AllImported(t, base, remote, before) &&
    (e == StoreError ||
     (FindActivePlanet(t.planets, p.name).Some? && FS.AllWellFormed(base, p.films) &&
      FS.FetchFilms(base, p.films, remote) == Err(e)))
  }

  /** The inner loop of the import: the planets of one page, in order, stopping at the first error. */
  method ImportResults(db: Database, base: string, results: seq<PS.RemotePlanet>, remote: map<string, Response<FS.RemoteFilm>>,
                       ghost start: Snapshot, ghost all: seq<PS.RemotePlanet>, ghost done: seq<PS.RemotePlanet>)
    returns (err: Option<Error>)
    requires db.Valid() && ImportKept(start, db.State(), base, remote, all) && PlanetsWellFormed(base, all)
    requires forall j :: 0 <= j < |results| ==> results[j] in all
    requires AllImported(db.State(), base, remote, done)
    modifies db
    ensures db.Valid() && ImportKept(start, db.State(), base, remote, all)
    ensures err.None? ==> AllImported(db.State(), base, remote, done + results)
    ensures old(db.budget) == None ==> db.budget == None
    ensures old(db.budget) == None && FetchesSucceed(base, remote, all) ==> err.None?
    ensures err.Some? ==> (err.value == StoreError && Exhausted(db.budget)) || FetchFailed(err.value, base, remote, all)
    ensures db.refusals == old(db.refusals) + (if err == Some(StoreError) then 1 else 0)
    ensures db.refusals == old(db.refusals) && FetchesSucceed(base, remote, all) ==> err.None?
    ensures RowCount(db.State()) - RowCount(old(db.State())) == db.inserted - old(db.inserted)
    ensures err.Some? ==> exists k :: 0 <= k < |results| && StoppedAt(db.State(), err.value, base, remote, done + results[..k], results[k])
  {
    for j := 0 to |results|
      invariant db.Valid() && ImportKept(start, db.State(), base, remote, all)
      invariant AllImported(db.State(), base, remote, done + results[..j])
      invariant old(db.budget) == None ==> db.budget == None
      invariant db.refusals == old(db.refusals)
    {
      var planet := results[j];
      assert planet in all;
      err := ImportStep(db, base, planet, remote, start, all, done + results[..j]);
      if err.Some? {
        if FS.FetchFilms(base, planet.films, remote) == Err(err.value) {
          assert FetchFailed(err.value, base, remote, all);
        }
        assert StoppedAt(db.State(), err.value, base, remote, done + results[..j], results[j]);
        return;
      }
      assert results[..j + 1] == results[..j] + [planet];
      assert done + results[..j + 1] == (done + results[..j]) + [planet];
    }
    assert results[..|results|] == results;
    err := None;
  }

  /**
   * Two imports over the same remote data with nothing else in between: when
   * the first succeeds, the second leaves every table as the first left it,
   * whether or not it succeeds itself.
   */
  method ImportTwice(db: Database, base: string, replies: seq<Response<PS.PlanetPage>>, remote: map<string, Response<FS.RemoteFilm>>)
    returns (first: Option<Error>, second: Option<Error>, ghost afterFirst: Snapshot)
    requires db.Valid() && RefsWellFormed(base, replies)
    modifies db
    ensures first.None? ==> db.State() == afterFirst
    ensures first.None? ==> PS.Crawl(replies).Ok? && AllImported(db.State(), base, remote, Flatten(PS.Crawl(replies).value))
  {
    first := CreatePlanetsAndFilms(db, base, replies, remote);
    afterFirst := db.State();
    second := CreatePlanetsAndFilms(db, base, replies, remote);
  }

  /**
   * The body of the import loop for one remote planet: imports it and keeps
   * what the loop has established since `start` for the planets `done`.
   */
  method ImportStep(db: Database, base: string, planet: PS.RemotePlanet, remote: map<string, Response<FS.RemoteFilm>>,
                    ghost start: Snapshot, ghost all: seq<PS.RemotePlanet>, ghost done: seq<PS.RemotePlanet>)
    returns (err: Option<Error>)
    requires db.Valid() && FS.AllWellFormed(base, planet.films) && planet in all
    requires ImportKept(start, db.State(), base, remote, all)
    requires AllImported(db.State(), base, remote, done)
    modifies db
    ensures db.Valid() && ImportKept(start, db.State(), base, remote, all)
    ensures AllImported(db.State(), base, remote, done)
    ensures err.None? ==> AllImported(db.State(), base, remote, done + [planet])
    ensures old(db.budget) == None ==> db.budget == None
    ensures old(db.budget) == None && FS.FetchFilms(base, planet.films, remote).Ok? ==> err.None?
    ensures err.Some? ==>
              (err.value == StoreError && Exhausted(db.budget)) || FS.FetchFilms(base, planet.films, remote) == Err(err.value)
    ensures db.refusals == old(db.refusals) + (if err == Some(StoreError) then 1 else 0)
    ensures db.refusals == old(db.refusals) && FS.FetchFilms(base, planet.films, remote).Ok? ==> err.None?
    ensures err.Some? && err.value != StoreError ==>
              FindActivePlanet(db.planets, planet.name).Some? && FS.FetchFilms(base, planet.films, remote) == Err(err.value)
  {
    ghost var before := db.State();
    if AllImported(start, base, remote, all) {
      assert PlanetImported(before, base, remote, planet);
    }
    err := ImportPlanet(db, base, planet, remote);
    NoNewPlanetDuplicatesTrans(start.planets, before.planets, db.planets);
    NoNewFilmDuplicatesTrans(start.films, before.films, db.films);
    NoNewLinkDuplicatesTrans(start.links, before.links, db.links);
    AllImportedGrow(before, db.State(), base, remote, done);
    RowsFromTrans(start, before, db.State(), base, remote, all, [planet]);
  }

  /**
   * Imports one remote planet: reuses the active planet row with its name or
   * inserts one, then saves its films against that row.
   */
  method ImportPlanet(db: Database, base: string, planet: PS.RemotePlanet, remote: map<string, Response<FS.RemoteFilm>>)
    returns (err: Option<Error>)
    requires db.Valid() && FS.AllWellFormed(base, planet.films)
    modifies db
    ensures db.Valid() && Grown(old(db.State()), db.State())
    ensures NoNewPlanetDuplicates(old(db.planets), db.planets)
    ensures NoNewFilmDuplicates(old(db.films), db.films)
    ensures NoNewLinkDuplicates(old(db.links), db.links)
    ensures RowsFrom(old(db.State()), db.State(), base, remote, [planet])
    ensures err.None? ==> PlanetImported(db.State(), base, remote, planet)
    ensures PlanetImported(old(db.State()), base, remote, planet) ==> db.State() == old(db.State())
    ensures old(db.budget) == None ==> db.budget == None
    ensures old(db.budget) == None && FS.FetchFilms(base, planet.films, remote).Ok? ==> err.None?
    ensures err.Some? ==>
              (err.value == StoreError && Exhausted(db.budget)) || FS.FetchFilms(base, planet.films, remote) == Err(err.value)
    ensures db.refusals == old(db.refusals) + (if err == Some(StoreError) then 1 else 0)
    ensures db.refusals == old(db.refusals) && FS.FetchFilms(base, planet.films, remote).Ok? ==> err.None?
    ensures err.Some? && err.value != StoreError ==>
              FindActivePlanet(db.planets, planet.name).Some? && FS.FetchFilms(base, planet.films, remote) == Err(err.value)
  {
    ghost var before := db.State();
    var planetId := EnsurePlanet(db, planet, before.planets);
    if planetId.Err? {
      assert db.State() == before;
      return Some(planetId.error);
    }
    ghost var middle := db.State();
    err := SaveFilms(db, base, planet.films, planetId.value, remote);
    ImportPlanetRows(before, middle, db.State(), base, remote, planet, planetId.value);
    if err.None? {
      assert PlanetImported(db.State(), base, remote, planet);
    }
  }

  /** Reuses the active planet row with the planet's name, or inserts one; the result is the row's id. */
  method EnsurePlanet(db: Database, planet: PS.RemotePlanet, ghost start: seq<PlanetRow>) returns (r: Result<int>)
    requires db.Valid() && NoNewPlanetDuplicates(start, db.planets)
    modifies db
    ensures db.Valid() && NoNewPlanetDuplicates(start, db.planets)
    ensures db.films == old(db.films) && db.links == old(db.links) && old(db.planets) <= db.planets
    ensures r.Ok? ==>
              FindActivePlanet(db.planets, planet.name).Some? &&
              db.planets[FindActivePlanet(db.planets, planet.name).value].id == r.value
    ensures FindActivePlanet(old(db.planets), planet.name).Some? ==> db.planets == old(db.planets)
    ensures forall j :: |old(db.planets)| <= j < |db.planets| ==> PlanetRowFor(db.planets[j], planet)
    ensures old(db.budget) == None ==> db.budget == None && r.Ok?
    ensures r.Err? ==> r.error == StoreError && Exhausted(db.budget)
    ensures db.refusals == old(db.refusals) + (if r.Ok? then 0 else 1)
    ensures Exhausted(old(db.budget)) ==>
              r == Err(StoreError) && db.planets == old(db.planets) && db.calls == old(db.calls) + [PlanetGetOne(planet.name)]
    ensures !Exhausted(old(db.budget)) && FindActivePlanet(old(db.planets), planet.name).Some? ==>
              r == Ok(old(db.planets)[FindActivePlanet(old(db.planets), planet.name).value].id) &&
              db.calls == old(db.calls) + [PlanetGetOne(planet.name)]
    ensures !Exhausted(old(db.budget)) && FindActivePlanet(old(db.planets), planet.name).None? ==>
              db.calls == old(db.calls) + [PlanetGetOne(planet.name), PlanetSave(planet.name)] &&
              (r.Ok? <==> !Exhausted(AfterStatement(old(db.budget)))) &&
              (r.Ok? ==> db.planets == old(db.planets) + [PlanetRow(r.value, planet.name, planet.climate, planet.terrain, false)]) &&
              (r.Err? ==> r.error == StoreError && db.planets == old(db.planets))
  {
    var found := PS.GetOne(db, planet.name);
    if found.Err? {
      return Err(found.error);
    }
    if found.value.Some? {
      return Ok(found.value.value.id);
    }
    ghost var before := db.planets;
    r := PS.SavePlanet(db, planet);
    if r.Ok? {
      assert FindActivePlanet(db.planets, planet.name) == Some(|before|) by {
        assert ActiveNamed(db.planets[|before|], planet.name);
      }
      assert NoNewPlanetDuplicates(before, db.planets);
      NoNewPlanetDuplicatesTrans(start, before, db.planets);
    }
  }

  /** Every planet of every page is among the flattened planets. */
  lemma {:induction false} FlattenHas(pages: seq<PS.PlanetPage>, i: nat, j: nat)
    requires i < |pages| && j < |pages[i].results|
    ensures pages[i].results[j] in Flatten(pages)
  {
    var last := |pages| - 1;
    assert Flatten(pages) == Flatten(pages[..last]) + pages[last].results;
    if i < last {
      FlattenHas(pages[..last], i, j);
    }
  }

  /** The planets of the first `n` pages are a prefix of the planets of all pages. */
  lemma {:induction false} FlattenPrefix(pages: seq<PS.PlanetPage>, n: nat)
    requires n <= |pages|
    ensures Flatten(pages[..n]) <= Flatten(pages)
  {
    if n < |pages| {
      var last := |pages| - 1;
      assert pages[..last][..n] == pages[..n];
      FlattenPrefix(pages[..last], n);
    } else {
      assert pages[..n] == pages;
    }
  }

  /** Planet `k` of page `i` sits after the planets of the pages before it. */
  lemma FlattenAt(pages: seq<PS.PlanetPage>, i: nat, k: nat)
    requires i < |pages| && k < |pages[i].results|
    ensures |Flatten(pages[..i])| + k < |Flatten(pages)|
    ensures Flatten(pages)[|Flatten(pages[..i])| + k] == pages[i].results[k]
    ensures Flatten(pages)[..|Flatten(pages[..i])| + k] == Flatten(pages[..i]) + pages[i].results[..k]
  {
    var before := Flatten(pages[..i]);
    var results := pages[i].results;
    FlattenPrefix(pages, i + 1);
    assert pages[..i + 1][..i] == pages[..i];
    assert Flatten(pages[..i + 1]) == before + results;
    var all := Flatten(pages);
    var n := |before| + k;
    assert all[n] == (before + results)[n];
    assert all[..n] == (before + results)[..n];
    assert (before + results)[..n] == before + results[..k];
  }

  /** A stop stays a stop when the planets before it and the planet are named as elements of another list. */
  lemma StoppedMoves(t: Snapshot, e: Error, base: string, remote: map<string, Response<FS.RemoteFilm>>,
                     before: seq<PS.RemotePlanet>, p: PS.RemotePlanet, all: seq<PS.RemotePlanet>, n: nat)
    requires n < |all| && all[..n] == before && all[n] == p && StoppedAt(t, e, base, remote, before, p)
    ensures StoppedAt(t, e, base, remote, all[..n], all[n])
  {
  }

  /** A stop at planet `k` of page `i` is a stop at planet `n` of the flattened pages. */
  lemma StoppedInPage(t: Snapshot, e: Error, base: string, remote: map<string, Response<FS.RemoteFilm>>,
                      pages: seq<PS.PlanetPage>, i: nat, k: nat) returns (n: nat)
    requires i < |pages| && k < |pages[i].results|
    requires StoppedAt(t, e, base, remote, Flatten(pages[..i]) + pages[i].results[..k], pages[i].results[k])
    ensures n < |Flatten(pages)| && StoppedAt(t, e, base, remote, Flatten(pages)[..n], Flatten(pages)[n])
  {
    n := |Flatten(pages[..i])| + k;
    FlattenAt(pages, i, k);
    StoppedMoves(t, e, base, remote, Flatten(pages[..i]) + pages[i].results[..k], pages[i].results[k], Flatten(pages), n);
  }

  // ---------------------------------------------------------------------------
  // The facade
  // ---------------------------------------------------------------------------

  /** A planet row together with the films the facade attached to it. */
  datatype PlanetDB = PlanetDB(row: PlanetRow, films: seq<FilmRow>)

  /** The films of the joined rows that belong to the planet, in row order. */
  function FilmsFor(joined: seq<FilmPlanet>, id: int): (r: seq<FilmRow>)
    ensures |r| <= |joined|
    ensures forall f :: f in r <==> exists k :: 0 <= k < |joined| && joined[k].planetId == id && joined[k].film == f
  {
    if joined == [] then []
    else
      var last := joined[|joined| - 1];
      var front := joined[..|joined| - 1];
      assert forall k :: 0 <= k < |front| ==> front[k] == joined[k];
      FilmsFor(front, id) + (if last.planetId == id then [last.film] else [])
  }

  /** The films of all the joined rows, in row order. */
  function FilmsOf(joined: seq<FilmPlanet>): (r: seq<FilmRow>)
    ensures |r| == |joined| && forall k :: 0 <= k < |joined| ==> r[k] == joined[k].film
  {
    seq(|joined|, k requires 0 <= k < |joined| => joined[k].film)
  }

  /** The ids of the planets, in order. */
  function Ids(ps: seq<PlanetRow>): (r: seq<int>)
    ensures |r| == |ps| && forall k :: 0 <= k < |ps| ==> r[k] == ps[k].id
  {
    seq(|ps|, k requires 0 <= k < |ps| => ps[k].id)
  }

  /** When every joined row belongs to the planet, grouping by planet keeps them all. */
  lemma {:induction false} FilmsForAllOfOne(joined: seq<FilmPlanet>, id: int)
    requires forall k :: 0 <= k < |joined| ==> joined[k].planetId == id
    ensures FilmsFor(joined, id) == FilmsOf(joined)
  {
    if joined != [] {
      var front := joined[..|joined| - 1];
      FilmsForAllOfOne(front, id);
      assert FilmsOf(joined) == FilmsOf(front) + [joined[|joined| - 1].film];
    }
  }

  /** Every row of the by-planet query belongs to one of the planets asked for. */
  lemma JoinedBelong(t: Snapshot, ids: seq<int>)
    requires FilmsByPlanetIds(t, ids).Ok?
    ensures forall k :: 0 <= k < |FilmsByPlanetIds(t, ids).value| ==> FilmsByPlanetIds(t, ids).value[k].planetId in ids
  {
    var links := LinksOf(t.links, ids);
    forall k | 0 <= k < |links| ensures links[k].planetId in ids {
      assert links[k] in links;
    }
  }

  /**
   * Every film the facade attaches to a planet asked for is a film row that a
   * link row of that planet points to, deleted or not.
   */
  lemma {:induction false} AttachedFilmsAreLinked(t: Snapshot, ids: seq<int>, id: int)
    requires FilmsByPlanetIds(t, ids).Ok? && id in ids
    ensures forall f :: f in FilmsFor(FilmsByPlanetIds(t, ids).value, id) ==>
      f in t.films && exists l :: l in t.links && l.planetId == id && l.filmId == f.id
  {
    var links := LinksOf(t.links, ids);
    var joined := FilmsByPlanetIds(t, ids).value;
    assert joined == JoinFilms(links, t.films).value;
    forall f | f in FilmsFor(joined, id)
      ensures f in t.films && exists l :: l in t.links && l.planetId == id && l.filmId == f.id
    {
      var k :| 0 <= k < |joined| && joined[k].planetId == id && joined[k].film == f;
      assert links[k] in links;
      assert links[k] in t.links && links[k].planetId == id && links[k].filmId == f.id;
    }
  }

  /**
   * Every link row of a planet asked for, deleted or not, brings its film to
   * the films the facade attaches to that planet.
   */
  lemma {:induction false} LinkedFilmsAreAttached(t: Snapshot, ids: seq<int>, id: int)
    requires FilmsByPlanetIds(t, ids).Ok? && id in ids
    ensures forall l :: l in t.links && l.planetId == id ==>
      exists f :: f in FilmsFor(FilmsByPlanetIds(t, ids).value, id) && f.id == l.filmId
  {
    var links := LinksOf(t.links, ids);
    var joined := FilmsByPlanetIds(t, ids).value;
    assert joined == JoinFilms(links, t.films).value;
    forall l | l in t.links && l.planetId == id
      ensures exists f :: f in FilmsFor(joined, id) && f.id == l.filmId
    {
      assert l in links;
      var k :| 0 <= k < |links| && links[k] == l;
      assert joined[k].planetId == id;
      assert joined[k].film in FilmsFor(joined, id);
    }
  }

  /**
   * The active planet with the id, with the films of every link row of the
   * planet attached in the order the by-planet query returns them.
   */
  method GetOneByID(db: Database, id: int) returns (r: Result<PlanetDB>)
    requires db.Valid()
    modifies db`budget, db`refusals, db`calls
    ensures db.Valid() && db.State() == old(db.State())
    ensures Exhausted(old(db.budget)) ==> r == Err(StoreError) && db.calls == old(db.calls) + [PlanetGetOneById(id)]
    ensures !Exhausted(old(db.budget)) && FindPlanetById(db.planets, id).None? ==>
              r == Err(PlanetNotFound) && db.calls == old(db.calls) + [PlanetGetOneById(id)]
    ensures !Exhausted(old(db.budget)) && FindPlanetById(db.planets, id).Some? ==>
              db.calls == old(db.calls) + [PlanetGetOneById(id), FilmGetByPlanetIds([id])] &&
              (r.Ok? <==> !Exhausted(AfterStatement(old(db.budget))) && FilmsByPlanetIds(db.State(), [id]).Ok?)
    ensures r.Err? && r.error != PlanetNotFound ==> r.error == StoreError
    ensures r.Ok? ==>
              r.value.row in db.planets && r.value.row.id == id && !r.value.row.deleted &&
              r.value.films == FilmsFor(FilmsByPlanetIds(db.State(), [id]).value, id)
  {
    ghost var budget0 := db.budget;
    var found := PS.GetOneById(db, id);
    if found.Err? {
      return Err(found.error);
    }
    assert !Exhausted(budget0) && FindPlanetById(db.planets, id).Some?;
    r := PlanetWithFilms(db, found.value);
  }

  /** The second half of `GetOneByID`: one by-planet film query for the planet, its rows' films appended in order. */
  method PlanetWithFilms(db: Database, planet: PlanetRow) returns (r: Result<PlanetDB>)
    requires db.Valid()
    modifies db`budget, db`refusals, db`calls
    ensures db.Valid() && db.State() == old(db.State())
    ensures db.budget == AfterStatement(old(db.budget)) && db.calls == old(db.calls) + [FilmGetByPlanetIds([planet.id])]
    ensures r.Ok? <==> !Exhausted(old(db.budget)) && FilmsByPlanetIds(db.State(), [planet.id]).Ok?
    ensures r.Err? ==> r.error == StoreError
    ensures r.Ok? ==> r.value == PlanetDB(planet, FilmsFor(FilmsByPlanetIds(db.State(), [planet.id]).value, planet.id))
  {
    var joined := FS.GetFilmsByPlanetIds(db, [planet.id]);
    if joined.Err? {
      return Err(joined.error);
    }
    var films := AppendFilms(joined.value);
    JoinedBelong(db.State(), [planet.id]);
    FilmsForAllOfOne(joined.value, planet.id);
    r := Ok(PlanetDB(planet, films));
  }

  /**
   * One page of active planets matching the name, each with the films of its
   * link rows attached; an empty page is `PlanetNotFound` and asks nothing of
   * the film store.
   */
  method GetAllPlanets(db: Database, page: int, limit: int, name: string) returns (r: Result<seq<PlanetDB>>)
    requires db.Valid()
    modifies db`budget, db`refusals, db`calls
    ensures db.Valid() && db.State() == old(db.State())
    ensures Exhausted(old(db.budget)) ==> r == Err(StoreError) && db.calls == old(db.calls) + [PlanetGetAll(page, limit, name)]
    ensures !Exhausted(old(db.budget)) && ListPlanets(db.planets, page, limit, name).Err? ==>
              r == Err(StoreError) && db.calls == old(db.calls) + [PlanetGetAll(page, limit, name)]
    ensures !Exhausted(old(db.budget)) && ListPlanets(db.planets, page, limit, name) == Ok([]) ==>
              r == Err(PlanetNotFound) && db.calls == old(db.calls) + [PlanetGetAll(page, limit, name)]
    ensures !Exhausted(old(db.budget)) && ListPlanets(db.planets, page, limit, name).Ok? && ListPlanets(db.planets, page, limit, name).value != [] ==>
              var ps := ListPlanets(db.planets, page, limit, name).value;
              db.calls == old(db.calls) + [PlanetGetAll(page, limit, name), FilmGetByPlanetIds(Ids(ps))] &&
              (r.Ok? <==> !Exhausted(AfterStatement(old(db.budget))) && FilmsByPlanetIds(db.State(), Ids(ps)).Ok?)
    ensures r.Err? && r.error != PlanetNotFound ==> r.error == StoreError
    ensures r.Ok? ==>
              ListPlanets(db.planets, page, limit, name).Ok? &&
              var ps := ListPlanets(db.planets, page, limit, name).value;
              ps != [] && |r.value| == |ps| && FilmsByPlanetIds(db.State(), Ids(ps)).Ok? &&
              forall k :: 0 <= k < |ps| ==>
                r.value[k] == PlanetDB(ps[k], FilmsFor(FilmsByPlanetIds(db.State(), Ids(ps)).value, ps[k].id))
  {
    var planets := PS.GetAll(db, page, limit, name);
    if planets.Err? {
      return Err(planets.error);
    }
    var ps := planets.value;
    if |ps| == 0 {
      return Err(PlanetNotFound);
    }
    r := PlanetsWithFilms(db, ps);
  }

  /** The second half of `GetAllPlanets`: one film query for all the planets' ids, then the films grouped onto the planets. */
  method PlanetsWithFilms(db: Database, ps: seq<PlanetRow>) returns (r: Result<seq<PlanetDB>>)
    requires db.Valid()
    modifies db`budget, db`refusals, db`calls
    ensures db.Valid() && db.State() == old(db.State())
    ensures db.budget == (if ps == [] then old(db.budget) else AfterStatement(old(db.budget)))
    ensures db.calls == old(db.calls) + [FilmGetByPlanetIds(Ids(ps))]
    ensures r.Ok? <==> !Exhausted(old(db.budget)) && FilmsByPlanetIds(db.State(), Ids(ps)).Ok?
    ensures r.Err? ==> r.error == StoreError
    ensures r.Ok? ==>
              |r.value| == |ps| &&
              forall k :: 0 <= k < |ps| ==>
                r.value[k] == PlanetDB(ps[k], FilmsFor(FilmsByPlanetIds(db.State(), Ids(ps)).value, ps[k].id))
  {
    var ids := PlanetIds(ps);
    var films := FS.GetFilmsByPlanetIds(db, ids);
    if films.Err? {
      return Err(films.error);
    }
    var result := AttachFilms(ps, films.value);
    r := Ok(result);
  }

  /** The films of the joined rows appended one by one. */
  method AppendFilms(joined: seq<FilmPlanet>) returns (films: seq<FilmRow>)
    ensures films == FilmsOf(joined)
  {
    films := [];
    for k := 0 to |joined|
      invariant |films| == k && forall m :: 0 <= m < k ==> films[m] == joined[m].film
    {
      films := films + [joined[k].film];
    }
  }

  /** The ids of the planets collected one by one. */
  method PlanetIds(ps: seq<PlanetRow>) returns (ids: seq<int>)
    ensures ids == Ids(ps)
  {
    ids := [];
    for k := 0 to |ps|
      invariant |ids| == k && forall m :: 0 <= m < k ==> ids[m] == ps[m].id
    {
      ids := ids + [ps[k].id];
    }
  }

  /** Each planet gets, in row order, the film of every joined row whose planet id is its id. */
  method AttachFilms(ps: seq<PlanetRow>, joined: seq<FilmPlanet>) returns (result: seq<PlanetDB>)
    ensures |result| == |ps|
    ensures forall k :: 0 <= k < |ps| ==> result[k] == PlanetDB(ps[k], FilmsFor(joined, ps[k].id))
  {
    result := seq(|ps|, k requires 0 <= k < |ps| => PlanetDB(ps[k], []));
    for a := 0 to |ps|
      invariant |result| == |ps|
      invariant forall k :: 0 <= k < a ==> result[k] == PlanetDB(ps[k], FilmsFor(joined, ps[k].id))
      invariant forall k :: a <= k < |ps| ==> result[k] == PlanetDB(ps[k], [])
    {
      for b := 0 to |joined|
        invariant |result| == |ps|
        invariant result[a] == PlanetDB(ps[a], FilmsFor(joined[..b], ps[a].id))
        invariant forall k :: 0 <= k < a ==> result[k] == PlanetDB(ps[k], FilmsFor(joined, ps[k].id))
        invariant forall k :: a < k < |ps| ==> result[k] == PlanetDB(ps[k], [])
      {
        assert joined[..b + 1][..b] == joined[..b];
        if ps[a].id == joined[b].planetId {
          result := result[a := result[a].(films := result[a].films + [joined[b].film])];
        }
      }
      assert joined[..|joined|] == joined;
    }
  }

  /**
   * Looks the planet up by id and, when it is active, soft-deletes it and
   * then its link rows; film rows stay.
   */
  method Delete(db: Database, id: int) returns (err: Option<Error>)
    requires db.Valid()
    modifies db
    ensures db.Valid()
    ensures db.films == old(db.films)
    ensures Exhausted(old(db.budget)) ==>
              err == Some(StoreError) && db.State() == old(db.State()) && db.calls == old(db.calls) + [PlanetGetOneById(id)]
    ensures !Exhausted(old(db.budget)) && FindPlanetById(old(db.planets), id).None? ==>
              err == Some(PlanetNotFound) && db.State() == old(db.State()) && db.calls == old(db.calls) + [PlanetGetOneById(id)]
    ensures !Exhausted(old(db.budget)) && FindPlanetById(old(db.planets), id).Some? ==>
              db.calls == old(db.calls) + [PlanetGetOneById(id), PlanetDelete(id)] &&
              db.planets == (if Exhausted(AfterStatement(old(db.budget))) then old(db.planets) else MarkPlanetDeleted(old(db.planets), id)) &&
              db.links == (if err.None? then MarkLinksDeleted(old(db.links), id) else old(db.links))
    ensures err.None? <==>
              FindPlanetById(old(db.planets), id).Some? && !Exhausted(old(db.budget)) &&
              !Exhausted(AfterStatement(old(db.budget))) && !Exhausted(AfterStatement(AfterStatement(old(db.budget))))
    ensures err.Some? && err.value != PlanetNotFound ==> err.value == StoreError
  {
    var found := PS.GetOneById(db, id);
    if found.Err? {
      return Some(found.error);
    }
    err := PS.Delete(db, found.value.id);
  }
}
