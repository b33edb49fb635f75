/**
 * The three SQL tables `planet`, `film` and `film_planet`, held in memory.
 *
 * Rows are kept in insertion order, which is the order a query without
 * ORDER BY returns them in this model. A soft-deleted row keeps its place and
 * carries `deleted == true` (a non-null `deleted_at`). The pure functions
 * here give the meaning of the SELECT and UPDATE statements the stores run;
 * the class `Database` holds the tables, the AUTO_INCREMENT counters, a
 * failure budget for SQL statements and a ghost log of the store calls made.
 */
module Tables {
  import opened Wrappers

  datatype PlanetRow = PlanetRow(id: int, name: string, climate: string, terrain: string, deleted: bool)
  datatype FilmRow = FilmRow(id: int, name: string, director: string, releaseDate: string)
  datatype LinkRow = LinkRow(planetId: int, filmId: int, deleted: bool)

  /** One row of the join of `film_planet` with `film`. */
  datatype FilmPlanet = FilmPlanet(planetId: int, filmId: int, deleted: bool, film: FilmRow)

  /** The contents of the three tables at one moment. */
  datatype Snapshot = Snapshot(planets: seq<PlanetRow>, films: seq<FilmRow>, links: seq<LinkRow>)

  /** How many rows the three tables hold together, deleted ones included. */
  function RowCount(t: Snapshot): nat
  {
    |t.planets| + |t.films| + |t.links|
  }

  /** The store calls, as a test double records them. */
  datatype Call =
    | PlanetGetOne(name: string)
    | PlanetGetOneById(id: int)
    | PlanetGetAll(page: int, limit: int, filter: string)
    | PlanetSave(name: string)
    | PlanetDelete(id: int)
    | FilmGetOne(title: string)
    | FilmSave(title: string)
    | FilmGetWithPlanet(planetId: int, filmId: int)
    | FilmSaveWithPlanet(planetId: int, filmId: int)
    | FilmGetByPlanetIds(ids: seq<int>)

  // ---------------------------------------------------------------------------
  // Generic sequence helpers
  // ---------------------------------------------------------------------------

  /** The index of the first element satisfying `p`, if any. */
  function FirstWhere<T>(s: seq<T>, p: T -> bool): (r: Option<nat>)
    ensures r.Some? ==> r.value < |s| && p(s[r.value])
    ensures r.Some? ==> forall j :: 0 <= j < r.value ==> !p(s[j])
    ensures r.None? <==> forall j :: 0 <= j < |s| ==> !p(s[j])
  {
    if s == [] then None
    else if p(s[0]) then Some(0)
    else match FirstWhere(s[1..], p)
      case None => None
      case Some(i) => Some(i + 1)
  }

  /** The elements of `s` satisfying `p`, in order. */
  function Filter<T>(s: seq<T>, p: T -> bool): (r: seq<T>)
    ensures |r| <= |s|
    ensures forall i :: 0 <= i < |r| ==> r[i] in s && p(r[i])
    ensures forall i :: 0 <= i < |s| && p(s[i]) ==> s[i] in r
  {
    if s == [] then []
    else (if p(s[0]) then [s[0]] else []) + Filter(s[1..], p)
  }

  /** `sep` occurs in `s` starting at position `j`. */
  predicate OccursAt(s: string, sep: string, j: int)
  {
    0 <= j && j + |sep| <= |s| && s[j..j + |sep|] == sep
  }

  /** Occurrences in the tail of `s` are the occurrences in `s` after its first position. */
  lemma OccursShift(s: string, sep: string)
    requires s != []
    ensures forall j :: 0 <= j ==> (OccursAt(s[1..], sep, j) <==> OccursAt(s, sep, j + 1))
    ensures forall j :: 1 <= j ==> (OccursAt(s, sep, j) <==> OccursAt(s[1..], sep, j - 1))
  {
    forall j | 0 <= j ensures OccursAt(s[1..], sep, j) <==> OccursAt(s, sep, j + 1) {
      if 0 <= j && j + |sep| <= |s| - 1 {
        assert s[1..][j..j + |sep|] == s[j + 1..j + 1 + |sep|];
      }
    }
  }

  /** `s` has `sub` as a contiguous part. */
  predicate Contains(s: string, sub: string): (r: bool)
    decreases |s|
    ensures r <==> exists i :: OccursAt(s, sub, i)
  {
    if OccursAt(s, sub, 0) then true
    else if s == [] then false
    else
      OccursShift(s, sub);
      var r := Contains(s[1..], sub);
      assert r ==> exists i :: OccursAt(s, sub, i) by {
        if r {
          var i :| OccursAt(s[1..], sub, i);
          assert OccursAt(s, sub, i + 1);
        }
      }
      r
  }

  // ---------------------------------------------------------------------------
  // Row predicates: the WHERE clauses
  // ---------------------------------------------------------------------------

  predicate ActiveNamed(row: PlanetRow, name: string) { !row.deleted && row.name == name }
  predicate ActiveWithId(row: PlanetRow, id: int) { !row.deleted && row.id == id }
  /** `deleted_at IS NULL`, plus `name LIKE '%filter%'` when the filter is not empty. */
  predicate Listed(row: PlanetRow, filter: string): (r: bool)
    ensures r ==> !row.deleted
    ensures |filter| == 0 ==> (r <==> !row.deleted)
  {
    !row.deleted && (|filter| == 0 || Contains(row.name, filter))
  }
  predicate FilmNamed(row: FilmRow, name: string) { row.name == name }
  predicate FilmWithId(row: FilmRow, id: int) { row.id == id }
  /** `planet_id = ? and film_id = ?`: the deletion mark is not looked at. */
  predicate LinkOf(row: LinkRow, planetId: int, filmId: int) { row.planetId == planetId && row.filmId == filmId }
  predicate LinkIn(row: LinkRow, ids: seq<int>) { row.planetId in ids }

  // ---------------------------------------------------------------------------
  // Queries
  // ---------------------------------------------------------------------------

  /** `SELECT * FROM planet WHERE deleted_at IS NULL and name = ?`, first row. */
  function FindActivePlanet(rows: seq<PlanetRow>, name: string): (r: Option<nat>)
    ensures r.Some? ==> r.value < |rows| && ActiveNamed(rows[r.value], name)
    ensures r.Some? ==> forall j :: 0 <= j < r.value ==> !ActiveNamed(rows[j], name)
    ensures r.None? <==> forall j :: 0 <= j < |rows| ==> !ActiveNamed(rows[j], name)
  {
    FirstWhere(rows, row => ActiveNamed(row, name))
  }

  /** `SELECT * FROM planet WHERE deleted_at IS NULL and id = ?`, first row. */
  function FindPlanetById(rows: seq<PlanetRow>, id: int): (r: Option<nat>)
    ensures r.Some? ==> r.value < |rows| && ActiveWithId(rows[r.value], id)
    ensures r.Some? ==> forall j :: 0 <= j < r.value ==> !ActiveWithId(rows[j], id)
    ensures r.None? <==> forall j :: 0 <= j < |rows| ==> !ActiveWithId(rows[j], id)
  {
    FirstWhere(rows, row => ActiveWithId(row, id))
  }

  /** `SELECT * FROM film WHERE name = ?`, first row. */
  function FindFilm(rows: seq<FilmRow>, name: string): (r: Option<nat>)
    ensures r.Some? ==> r.value < |rows| && rows[r.value].name == name
    ensures r.Some? ==> forall j :: 0 <= j < r.value ==> rows[j].name != name
    ensures r.None? <==> forall j :: 0 <= j < |rows| ==> rows[j].name != name
  {
    FirstWhere(rows, row => FilmNamed(row, name))
  }

  /** The film row a link's `film_id` joins with. */
  function FindFilmById(rows: seq<FilmRow>, id: int): (r: Option<nat>)
    ensures r.Some? ==> r.value < |rows| && rows[r.value].id == id
    ensures r.None? <==> forall j :: 0 <= j < |rows| ==> rows[j].id != id
  {
    FirstWhere(rows, row => FilmWithId(row, id))
  }

  /** `SELECT * FROM film_planet WHERE planet_id = ? and film_id = ?`, first row. */
  function FindLink(rows: seq<LinkRow>, planetId: int, filmId: int): (r: Option<nat>)
    ensures r.Some? ==> r.value < |rows| && LinkOf(rows[r.value], planetId, filmId)
    ensures r.None? <==> forall j :: 0 <= j < |rows| ==> !LinkOf(rows[j], planetId, filmId)
  {
    FirstWhere(rows, row => LinkOf(row, planetId, filmId))
  }

  /** The active planet rows the listing query matches, in table order. */
  function Matching(rows: seq<PlanetRow>, filter: string): (r: seq<PlanetRow>)
    ensures forall row :: row in r <==> row in rows && Listed(row, filter)
  {
    Filter(rows, row => Listed(row, filter))
  }

  /** `LIMIT limit OFFSET offset` applied to a result set. */
  function Window<T>(s: seq<T>, offset: nat, limit: nat): (r: seq<T>)
    ensures |r| <= limit
    ensures |r| == if offset >= |s| then 0 else if |s| - offset < limit then |s| - offset else limit
    ensures offset <= |s| ==> r == s[offset..offset + |r|]
  {
    if offset >= |s| then []
    else if |s| - offset < limit then s[offset..]
    else s[offset..offset + limit]
  }

  /**
   * `SELECT * FROM planet WHERE deleted_at IS NULL [AND name LIKE '%filter%'] LIMIT ? OFFSET ?`.
   * MySQL refuses a negative LIMIT or OFFSET, which the store reports as an error.
   */
  function ListPlanets(rows: seq<PlanetRow>, offset: int, limit: int, filter: string): (r: Result<seq<PlanetRow>>)
    ensures r.Err? <==> offset < 0 || limit < 0
    ensures r.Err? ==> r.error == StoreError
  {
    if offset < 0 || limit < 0 then Err(StoreError)
    else Ok(Window(Matching(rows, filter), offset, limit))
  }

  /** The links of the given planets, in table order, whatever their deletion mark. */
  function LinksOf(rows: seq<LinkRow>, ids: seq<int>): (r: seq<LinkRow>)
    ensures forall l :: l in r <==> l in rows && l.planetId in ids
  {
    Filter(rows, l => LinkIn(l, ids))
  }

  /**
   * The rows of `film_planet LEFT JOIN film ON film_id = film.id` for the given
   * links. A link whose film is missing yields NULL film columns, which the
   * store's Scan into integers refuses: the whole call fails.
   */
  function JoinFilms(links: seq<LinkRow>, films: seq<FilmRow>): (r: Result<seq<FilmPlanet>>)
    ensures r.Ok? <==> forall i :: 0 <= i < |links| ==> FindFilmById(films, links[i].filmId).Some?
    ensures r.Err? ==> r.error == StoreError
    ensures r.Ok? ==> |r.value| == |links|
    ensures r.Ok? ==> forall i :: 0 <= i < |links| ==>
      r.value[i].planetId == links[i].planetId && r.value[i].filmId == links[i].filmId &&
      r.value[i].deleted == links[i].deleted && r.value[i].film.id == links[i].filmId &&
      r.value[i].film in films
  {
    if links == [] then Ok([])
    else match FindFilmById(films, links[0].filmId)
      case None => Err(StoreError)
      case Some(k) =>
        var l := links[0];
        match JoinFilms(links[1..], films)
          case Err(e) => Err(e)
          case Ok(rest) => Ok([FilmPlanet(l.planetId, l.filmId, l.deleted, films[k])] + rest)
  }

  /**
   * The query of `GetFilmsByPlanetIDs`: `... WHERE film_planet.planet_id IN (?)`.
   * Expanding `IN (?)` over an empty list of ids is an error.
   */
  function FilmsByPlanetIds(s: Snapshot, ids: seq<int>): (r: Result<seq<FilmPlanet>>)
    ensures ids == [] ==> r == Err(StoreError)
  {
    if ids == [] then Err(StoreError) else JoinFilms(LinksOf(s.links, ids), s.films)
  }

  // ---------------------------------------------------------------------------
  // Updates
  // ---------------------------------------------------------------------------

  /** `UPDATE planet SET deleted_at = now WHERE id = ?`. */
  function MarkPlanetDeleted(rows: seq<PlanetRow>, id: int): (r: seq<PlanetRow>)
    ensures |r| == |rows|
    ensures forall i :: 0 <= i < |rows| ==>
      r[i].(deleted := false) == rows[i].(deleted := false) && (r[i].deleted <==> rows[i].deleted || rows[i].id == id)
  {
    seq(|rows|, i requires 0 <= i < |rows| => if rows[i].id == id then rows[i].(deleted := true) else rows[i])
  }

  /**
   * `UPDATE film_planet SET deleted_at = now WHERE planet_id = ?`: a statement of its own,
   * run after the planet's UPDATE (store/planet/planet.go:212 and :225).
   */
  function MarkLinksDeleted(rows: seq<LinkRow>, planetId: int): (r: seq<LinkRow>)
    ensures |r| == |rows|
    ensures forall i :: 0 <= i < |rows| ==>
      r[i].(deleted := false) == rows[i].(deleted := false) && (r[i].deleted <==> rows[i].deleted || rows[i].planetId == planetId)
  {
    seq(|rows|, i requires 0 <= i < |rows| => if rows[i].planetId == planetId then rows[i].(deleted := true) else rows[i])
  }

  // ---------------------------------------------------------------------------
  // The database
  // ---------------------------------------------------------------------------

  /** Row ids strictly increase in table order and stay below the next AUTO_INCREMENT value. */
  ghost predicate PlanetIdsOrdered(rows: seq<PlanetRow>, next: int)
  {
    (forall i, j :: 0 <= i < j < |rows| ==> rows[i].id < rows[j].id) &&
    (forall i :: 0 <= i < |rows| ==> 1 <= rows[i].id < next)
  }

  ghost predicate FilmIdsOrdered(rows: seq<FilmRow>, next: int)
  {
    (forall i, j :: 0 <= i < j < |rows| ==> rows[i].id < rows[j].id) &&
    (forall i :: 0 <= i < |rows| ==> 1 <= rows[i].id < next)
  }

  /** Whether the next SQL statement fails under a statement budget. */
  predicate Exhausted(budget: Option<nat>) { budget == Some(0) }

  /** The budget left after one SQL statement. */
  function AfterStatement(budget: Option<nat>): Option<nat>
  {
    if budget.Some? && budget.value > 0 then Some(budget.value - 1) else budget
  }

  class Database {
    var planets: seq<PlanetRow>
    var films: seq<FilmRow>
    var links: seq<LinkRow>
    var nextPlanetId: int
    var nextFilmId: int
    /**
     * How many more SQL statements succeed: `None` means every statement
     * succeeds; `Some(0)` means every further statement fails.
     */
    var budget: Option<nat>
    /** How many statements were refused so far. */
    ghost var refusals: nat
    /** Every store call made, in order. */
    ghost var calls: seq<Call>
    /** How many rows the INSERT statements wrote so far. */
    ghost var inserted: nat

    ghost predicate Valid()
      reads this
    {
      1 <= nextPlanetId && 1 <= nextFilmId &&
      PlanetIdsOrdered(planets, nextPlanetId) && FilmIdsOrdered(films, nextFilmId) &&
      // no row is ever removed: the tables hold exactly the rows the INSERTs wrote
      RowCount(State()) == inserted
    }

    function State(): Snapshot
      reads this
    {
      Snapshot(planets, films, links)
    }

    constructor (budget: Option<nat>)
      ensures Valid()
      ensures State() == Snapshot([], [], []) && this.budget == budget && refusals == 0 && calls == [] && inserted == 0
    {
      planets, films, links := [], [], [];
      nextPlanetId, nextFilmId := 1, 1;
      this.budget := budget;
      refusals := 0;
      calls := [];
      inserted := 0;
    }

    /** Runs one SQL statement against the budget: it succeeds unless the budget is spent. */
    method Statement() returns (ok: bool)
      modifies this`budget, this`refusals
      ensures ok <==> !Exhausted(old(budget))
      ensures budget == AfterStatement(old(budget))
      ensures refusals == old(refusals) + (if ok then 0 else 1)
    {
      ok := budget != Some(0);
      if budget.Some? && ok {
        budget := Some(budget.value - 1);
      }
      if !ok {
        refusals := refusals + 1;
      }
    }

    method Log(call: Call)
      modifies this`calls
      ensures calls == old(calls) + [call]
    {
      calls := calls + [call];
    }

    /** `INSERT INTO planet(name, climate, terrain)`; the new row is active. */
    method InsertPlanet(name: string, climate: string, terrain: string) returns (id: int)
      requires Valid()
      modifies this`planets, this`nextPlanetId, this`inserted
      ensures Valid() && inserted == old(inserted) + 1
      ensures id == old(nextPlanetId) && nextPlanetId == id + 1
      ensures planets == old(planets) + [PlanetRow(id, name, climate, terrain, false)]
      ensures forall i :: 0 <= i < |old(planets)| ==> planets[i].id != id
    {
      id := nextPlanetId;
      planets := planets + [PlanetRow(id, name, climate, terrain, false)];
      nextPlanetId := nextPlanetId + 1;
      inserted := inserted + 1;
    }

    /** `INSERT INTO film(name, director, release_date)`. */
    method InsertFilm(name: string, director: string, releaseDate: string) returns (id: int)
      requires Valid()
      modifies this`films, this`nextFilmId, this`inserted
      ensures Valid() && inserted == old(inserted) + 1
      ensures id == old(nextFilmId) && nextFilmId == id + 1
      ensures films == old(films) + [FilmRow(id, name, director, releaseDate)]
      ensures forall i :: 0 <= i < |old(films)| ==> films[i].id != id
    {
      id := nextFilmId;
      films := films + [FilmRow(id, name, director, releaseDate)];
      nextFilmId := nextFilmId + 1;
      inserted := inserted + 1;
    }

    /** `INSERT INTO film_planet(planet_id, film_id)`; the new link is not deleted. */
    method InsertLink(planetId: int, filmId: int)
      requires Valid()
      modifies this`links, this`inserted
      ensures Valid() && inserted == old(inserted) + 1
      ensures links == old(links) + [LinkRow(planetId, filmId, false)]
    {
      links := links + [LinkRow(planetId, filmId, false)];
      inserted := inserted + 1;
    }

    method SoftDeletePlanet(id: int)
      requires Valid()
      modifies this`planets
      ensures Valid()
      ensures planets == MarkPlanetDeleted(old(planets), id)
    {
      planets := MarkPlanetDeleted(planets, id);
    }

    method SoftDeleteLinks(planetId: int)
      requires Valid()
      modifies this`links
      ensures Valid()
      ensures links == MarkLinksDeleted(old(links), planetId)
    {
      links := MarkLinksDeleted(links, planetId);
    }
  }

  // ---------------------------------------------------------------------------
  // Properties of the queries and updates
  // ---------------------------------------------------------------------------

  /** Two searches that agree element by element find the same index. */
  lemma {:induction false} FirstWhereAgree<T, U>(s: seq<T>, p: T -> bool, t: seq<U>, q: U -> bool)
    requires |s| == |t|
    requires forall j :: 0 <= j < |s| ==> p(s[j]) == q(t[j])
    ensures FirstWhere(s, p) == FirstWhere(t, q)
  {
    if s != [] {
      assert p(s[0]) == q(t[0]);
      FirstWhereAgree(s[1..], p, t[1..], q);
    }
  }

  /**
   * Soft-deleting a planet hides it from the lookup by id and from every
   * listing, leaves the visibility of every other id unchanged, and keeps the
   * row in the table.
   */
  lemma {:induction false} DeletedPlanetInvisible(rows: seq<PlanetRow>, id: int, other: int, offset: int, limit: int, filter: string)
    requires other != id
    ensures |MarkPlanetDeleted(rows, id)| == |rows|
    ensures FindPlanetById(MarkPlanetDeleted(rows, id), id).None?
    ensures FindPlanetById(MarkPlanetDeleted(rows, id), other) == FindPlanetById(rows, other)
    ensures ListPlanets(MarkPlanetDeleted(rows, id), offset, limit, filter).Ok? ==>
      forall row :: row in ListPlanets(MarkPlanetDeleted(rows, id), offset, limit, filter).value ==> row.id != id
  {
    var r := MarkPlanetDeleted(rows, id);
    FirstWhereAgree(r, row => ActiveWithId(row, other), rows, row => ActiveWithId(row, other));
    var m := Matching(r, filter);
    if offset >= 0 && limit >= 0 {
      var w := Window(m, offset, limit);
      forall row | row in w ensures row.id != id {
        assert row in m;
        var j :| 0 <= j < |r| && r[j] == row;
      }
    }
  }

  /**
   * Cascading the soft-delete to a planet's links does not make any link
   * disappear from the link lookup, since that lookup ignores `deleted_at`.
   */
  lemma {:induction false} DeletedLinkStillFound(rows: seq<LinkRow>, id: int, planetId: int, filmId: int)
    ensures FindLink(MarkLinksDeleted(rows, id), planetId, filmId) == FindLink(rows, planetId, filmId)
    ensures forall i :: 0 <= i < |rows| && rows[i].planetId == id ==> MarkLinksDeleted(rows, id)[i].deleted
  {
    var r := MarkLinksDeleted(rows, id);
    FirstWhereAgree(r, row => LinkOf(row, planetId, filmId), rows, row => LinkOf(row, planetId, filmId));
  }

  /** The listing returns active rows that match the filter, at most `limit` of them, in table order from `offset`. */
  lemma {:induction false} ListingShape(rows: seq<PlanetRow>, offset: int, limit: int, filter: string)
    requires 0 <= offset && 0 <= limit
    ensures var r := ListPlanets(rows, offset, limit, filter).value;
      |r| <= limit &&
      (forall row :: row in r ==> row in rows && !row.deleted && (|filter| > 0 ==> Contains(row.name, filter))) &&
      (offset <= |Matching(rows, filter)| ==> r == Matching(rows, filter)[offset..offset + |r|])
  {
    var m := Matching(rows, filter);
    var r := Window(m, offset, limit);
    forall row | row in r ensures row in m {
      var j :| 0 <= j < |r| && r[j] == row;
      assert r[j] == m[offset + j];
    }
  }

  /**
   * The listing's `page` argument is a row offset, not a page number: with a
   * limit of two or more, the listings for `page` and `page + 1` share all
   * but one row.
   */
  lemma {:induction false} PageIsRowOffset(rows: seq<PlanetRow>, page: nat, limit: nat, filter: string)
    requires 2 <= limit && page + limit + 1 <= |Matching(rows, filter)|
    ensures |ListPlanets(rows, page, limit, filter).value| == limit
    ensures |ListPlanets(rows, page + 1, limit, filter).value| == limit
    ensures ListPlanets(rows, page + 1, limit, filter).value[..limit - 1] == ListPlanets(rows, page, limit, filter).value[1..]
  {
    var m := Matching(rows, filter);
    var here := ListPlanets(rows, page, limit, filter).value;
    var next := ListPlanets(rows, page + 1, limit, filter).value;
    assert here == m[page..page + limit];
    assert next == m[page + 1..page + 1 + limit];
  }
}
