/**
 * The planet store: SQL access to the `planet` table (and the cascade onto
 * `film_planet` when a planet is deleted), and the crawl over the remote
 * dataset's paginated planet collection.
 */
module PlanetStore {
  import opened Wrappers
  import opened Tables
  import opened Remote

  /** A planet as the remote dataset returns it; the fields the import does not read are left out. */
  datatype RemotePlanet = RemotePlanet(name: string, climate: string, terrain: string, films: seq<string>)

  /** One page of the remote planet collection; `next` is the cursor to the following page. */
  datatype PlanetPage = PlanetPage(count: int, next: Option<string>, results: seq<RemotePlanet>)

  // ---------------------------------------------------------------------------
  // SQL access
  // ---------------------------------------------------------------------------

  /** The first active planet with the given name; no such planet is not an error. */
  method GetOne(db: Database, name: string) returns (r: Result<Option<PlanetRow>>)
    requires db.Valid()
    modifies db`budget, db`refusals, db`calls
    ensures db.Valid() && db.State() == old(db.State())
    ensures db.budget == AfterStatement(old(db.budget)) && db.calls == old(db.calls) + [PlanetGetOne(name)]
    ensures db.refusals == old(db.refusals) + (if Exhausted(old(db.budget)) then 1 else 0)
    ensures r.Err? <==> Exhausted(old(db.budget))
    ensures r.Err? ==> r.error == StoreError
    ensures r.Ok? ==> (r.value.None? <==> FindActivePlanet(db.planets, name).None?)
    ensures r.Ok? && r.value.Some? ==> r.value.value == db.planets[FindActivePlanet(db.planets, name).value]
  {
    db.Log(PlanetGetOne(name));
    var ok := db.Statement();
    if !ok {
      return Err(StoreError);
    }
    match FindActivePlanet(db.planets, name)
    case None => r := Ok(None);
    case Some(i) => r := Ok(Some(db.planets[i]));
  }

  /** The active planet with the given id, or `PlanetNotFound`. */
  method GetOneById(db: Database, id: int) returns (r: Result<PlanetRow>)
    requires db.Valid()
    modifies db`budget, db`refusals, db`calls
    ensures db.Valid() && db.State() == old(db.State())
    ensures db.budget == AfterStatement(old(db.budget)) && db.calls == old(db.calls) + [PlanetGetOneById(id)]
    ensures db.refusals == old(db.refusals) + (if Exhausted(old(db.budget)) then 1 else 0)
    ensures Exhausted(old(db.budget)) ==> r == Err(StoreError)
    ensures !Exhausted(old(db.budget)) ==> (r.Err? <==> FindPlanetById(db.planets, id).None?)
    ensures r.Err? && !Exhausted(old(db.budget)) ==> r.error == PlanetNotFound
    ensures r.Ok? ==> r.value in db.planets && r.value.id == id && !r.value.deleted
  {
    db.Log(PlanetGetOneById(id));
    var ok := db.Statement();
    if !ok {
      return Err(StoreError);
    }
    match FindPlanetById(db.planets, id)
    case None => r := Err(PlanetNotFound);
    case Some(i) => r := Ok(db.planets[i]);
  }

  /** The listing: active planets, filtered by name when a filter is given, `LIMIT limit OFFSET page`. */
  method GetAll(db: Database, page: int, limit: int, name: string) returns (r: Result<seq<PlanetRow>>)
    requires db.Valid()
    modifies db`budget, db`refusals, db`calls
    ensures db.Valid() && db.State() == old(db.State())
    ensures db.budget == AfterStatement(old(db.budget)) && db.calls == old(db.calls) + [PlanetGetAll(page, limit, name)]
    ensures db.refusals == old(db.refusals) + (if Exhausted(old(db.budget)) then 1 else 0)
    ensures Exhausted(old(db.budget)) ==> r == Err(StoreError)
    ensures !Exhausted(old(db.budget)) ==> r == ListPlanets(db.planets, page, limit, name)
  {
    db.Log(PlanetGetAll(page, limit, name));
    var ok := db.Statement();
    if !ok {
      return Err(StoreError);
    }
    r := ListPlanets(db.planets, page, limit, name);
  }

  /** Inserts one active planet row with the remote planet's name, climate and terrain and returns its new id. */
  method SavePlanet(db: Database, planet: RemotePlanet) returns (r: Result<int>)
    requires db.Valid()
    modifies db
    ensures db.Valid()
    ensures db.budget == AfterStatement(old(db.budget)) && db.calls == old(db.calls) + [PlanetSave(planet.name)]
    ensures db.refusals == old(db.refusals) + (if Exhausted(old(db.budget)) then 1 else 0)
    ensures db.films == old(db.films) && db.links == old(db.links) && db.nextFilmId == old(db.nextFilmId)
    ensures r.Err? <==> Exhausted(old(db.budget))
    ensures db.inserted == old(db.inserted) + (if r.Ok? then 1 else 0)
    ensures r.Err? ==> r.error == StoreError && db.planets == old(db.planets) && db.nextPlanetId == old(db.nextPlanetId)
    ensures r.Ok? ==> db.planets == old(db.planets) + [PlanetRow(r.value, planet.name, planet.climate, planet.terrain, false)]
    ensures r.Ok? ==> forall i :: 0 <= i < |old(db.planets)| ==> old(db.planets)[i].id != r.value
  {
    db.Log(PlanetSave(planet.name));
    var ok := db.Statement();
    if !ok {
      return Err(StoreError);
    }
    var id := db.InsertPlanet(planet.name, planet.climate, planet.terrain);
    r := Ok(id);
  }

  /**
   * Marks the planet with the given id deleted, then marks its links deleted.
   * The two UPDATEs are separate statements: when the second fails the planet
   * stays deleted and its links do not. Film rows are never touched, and an
   * id that matches no row is not an error.
   */
  method Delete(db: Database, id: int) returns (err: Option<Error>)
    requires db.Valid()
    modifies db
    ensures db.Valid()
    ensures db.budget == AfterStatement(AfterStatement(old(db.budget))) || (Exhausted(old(db.budget)) && db.budget == old(db.budget))
    ensures db.calls == old(db.calls) + [PlanetDelete(id)] && db.inserted == old(db.inserted)
    ensures db.refusals == old(db.refusals) + (if err.None? then 0 else 1)
    ensures db.films == old(db.films) && db.nextPlanetId == old(db.nextPlanetId) && db.nextFilmId == old(db.nextFilmId)
    ensures err.None? <==> !Exhausted(old(db.budget)) && !Exhausted(AfterStatement(old(db.budget)))
    ensures err.Some? ==> err.value == StoreError
    ensures db.planets == if Exhausted(old(db.budget)) then old(db.planets) else MarkPlanetDeleted(old(db.planets), id)
    ensures db.links == if err.None? then MarkLinksDeleted(old(db.links), id) else old(db.links)
  {
    db.Log(PlanetDelete(id));
    var ok := db.Statement();
    if !ok {
      return Some(StoreError);
    }
    db.SoftDeletePlanet(id);
    ok := db.Statement();
    if !ok {
      return Some(StoreError);
    }
    db.SoftDeleteLinks(id);
    err := None;
  }

  // ---------------------------------------------------------------------------
  // The crawl over the remote planet pages
  // ---------------------------------------------------------------------------

  /** A reply that moves the page cursor on: a decoded 200 page with a `next` cursor. */
  predicate Advances(reply: Response<PlanetPage>)
  {
    reply.Reply? && reply.status == StatusOK && reply.body.Parsed? && reply.body.value.next.Some?
  }

  /** A reply that ends the crawl: a failure, an undecodable 200 body, or a 200 page without `next`. */
  predicate Stops(reply: Response<PlanetPage>): (r: bool)
    ensures r ==> !Advances(reply)
    ensures !r ==> reply.Reply? && (reply.status != StatusOK || Advances(reply))
  {
    reply.Failed? || (reply.status == StatusOK && !Advances(reply))
  }

  /**
   * What the crawl returns when the remote dataset answers its successive
   * requests with `replies`: the decoded 200 pages in fetch order, or the first
   * error. A non-200 reply is skipped and the same page is asked for again.
   * Running out of replies stands for a crawl that has not finished.
   */
  function Crawl(replies: seq<Response<PlanetPage>>): (r: Result<seq<PlanetPage>>)
    ensures r.Ok? ==> |r.value| >= 1 && r.value[|r.value| - 1].next.None?
    ensures r.Ok? ==> forall i :: 0 <= i < |r.value| - 1 ==> r.value[i].next.Some?
    ensures r.Err? ==> r.error == ScriptExhausted || r.error.RemoteError?
  {
    if replies == [] then Err(ScriptExhausted)
    else match replies[0]
      case Failed(e) => Err(RemoteError(e))
      case Reply(status, body) =>
        if status != StatusOK then Crawl(replies[1..])
        else match body
          case Garbled(e) => Err(RemoteError(e))
          case Parsed(page) =>
            if page.next.None? then Ok([page])
            else match Crawl(replies[1..])
              case Err(e) => Err(e)
              case Ok(rest) => Ok([page] + rest)
  }

  /** The page numbers of the requests the crawl makes, starting from page `page`. */
  function RequestLog(replies: seq<Response<PlanetPage>>, page: nat): (r: seq<nat>)
    ensures |r| <= |replies|
    ensures replies != [] ==> r != [] && r[0] == page
  {
    if replies == [] then []
    else if Stops(replies[0]) then [page]
    else [page] + RequestLog(replies[1..], if Advances(replies[0]) then page + 1 else page)
  }

  /** `pages` in front of a crawl's pages; an error stays the error. */
  function Prepend(pages: seq<PlanetPage>, r: Result<seq<PlanetPage>>): Result<seq<PlanetPage>>
  {
    match r
    case Ok(rest) => Ok(pages + rest)
    case Err(e) => Err(e)
  }

  /**
   * Fetches every page of the remote planet collection, following the cursor.
   * `requested` is the page number of each request made: page 1 is requested
   * without a page query, later pages with `?page=n`.
   */
  method GetPlanets(replies: seq<Response<PlanetPage>>) returns (r: Result<seq<PlanetPage>>, requested: seq<nat>)
    ensures r == Crawl(replies)
    ensures requested == RequestLog(replies, 1)
  {
    var page: nat := 1;
    var pages: seq<PlanetPage> := [];
    var i := 0;
    requested := [];
    assert replies[i..] == replies;
    if Crawl(replies).Ok? {
      assert pages + Crawl(replies).value == Crawl(replies).value;
    }
    while i < |replies|
      invariant 0 <= i <= |replies|
      invariant Crawl(replies) == Prepend(pages, Crawl(replies[i..]))
      invariant RequestLog(replies, 1) == requested + RequestLog(replies[i..], page)
    {
      var reply := replies[i];
      if Stops(reply) {
        CrawlStops(replies, i, page, pages, requested);
      } else {
        CrawlContinues(replies, i, pages);
        LogContinues(replies, i, page, requested);
      }
      requested := requested + [page];
      if reply.Failed? {
        return Err(RemoteError(reply.reason)), requested;
      }
      if reply.status == StatusOK {
        if reply.body.Garbled? {
          return Err(RemoteError(reply.body.reason)), requested;
        }
        pages := pages + [reply.body.value];
        if reply.body.value.next.None? {
          return Ok(pages), requested;
        }
        page := page + 1;
      }
      i := i + 1;
    }
    r := Err(ScriptExhausted);
  }

  /** The outcome of a crawl that stops at `reply`, having collected `pages` before it. */
  function StopOutcome(pages: seq<PlanetPage>, reply: Response<PlanetPage>): Result<seq<PlanetPage>>
    requires Stops(reply)
  {
    if reply.Failed? then Err(RemoteError(reply.reason))
    else if reply.body.Garbled? then Err(RemoteError(reply.body.reason))
    else Ok(pages + [reply.body.value])
  }

  /** A crawl that reaches a stopping reply at position `i` ends there. */
  lemma CrawlStops(replies: seq<Response<PlanetPage>>, i: nat, page: nat, pages: seq<PlanetPage>, requested: seq<nat>)
    requires i < |replies| && Stops(replies[i])
    requires Crawl(replies) == Prepend(pages, Crawl(replies[i..]))
    requires RequestLog(replies, 1) == requested + RequestLog(replies[i..], page)
    ensures Crawl(replies) == StopOutcome(pages, replies[i])
    ensures RequestLog(replies, 1) == requested + [page]
  {
    assert replies[i..][0] == replies[i];
  }

  /** A crawl that passes a non-stopping reply at position `i` goes on with the next reply. */
  lemma CrawlContinues(replies: seq<Response<PlanetPage>>, i: nat, pages: seq<PlanetPage>)
    requires i < |replies| && !Stops(replies[i])
    requires Crawl(replies) == Prepend(pages, Crawl(replies[i..]))
    ensures Advances(replies[i]) ==>
      Crawl(replies) == Prepend(pages + [replies[i].body.value], Crawl(replies[i + 1..]))
    ensures !Advances(replies[i]) ==>
      replies[i].status != StatusOK && Crawl(replies) == Prepend(pages, Crawl(replies[i + 1..]))
  {
    var reply := replies[i];
    assert replies[i..][0] == reply;
    assert replies[i..][1..] == replies[i + 1..];
    if Advances(reply) && Crawl(replies[i + 1..]).Ok? {
      var rest := Crawl(replies[i + 1..]).value;
      assert (pages + [reply.body.value]) + rest == pages + ([reply.body.value] + rest);
    }
  }

  /** Past a non-stopping reply at position `i` the log records `page` and goes on from the next page or the same one. */
  lemma LogContinues(replies: seq<Response<PlanetPage>>, i: nat, page: nat, requested: seq<nat>)
    requires i < |replies| && !Stops(replies[i])
    requires RequestLog(replies, 1) == requested + RequestLog(replies[i..], page)
    ensures RequestLog(replies, 1) ==
      (requested + [page]) + RequestLog(replies[i + 1..], if Advances(replies[i]) then page + 1 else page)
  {
    var reply := replies[i];
    assert replies[i..][0] == reply;
    assert replies[i..][1..] == replies[i + 1..];
    var next := if Advances(reply) then page + 1 else page;
    assert RequestLog(replies[i..], page) == [page] + RequestLog(replies[i + 1..], next);
    assert requested + ([page] + RequestLog(replies[i + 1..], next)) == (requested + [page]) + RequestLog(replies[i + 1..], next);
  }

  /**
   * The request log starts at page 1 and moves on by one exactly after a reply
   * that advances the cursor; after any other reply the same page is asked for again.
   */
  lemma {:induction false} RequestLogSteps(replies: seq<Response<PlanetPage>>, page: nat)
    ensures var log := RequestLog(replies, page);
      (replies != [] ==> |log| >= 1 && log[0] == page) &&
      forall i :: 0 <= i < |log| - 1 ==> log[i + 1] == log[i] + (if Advances(replies[i]) then 1 else 0)
  {
    if replies != [] && !Stops(replies[0]) {
      var next := if Advances(replies[0]) then page + 1 else page;
      RequestLogSteps(replies[1..], next);
      var log := RequestLog(replies, page);
      var rest := RequestLog(replies[1..], next);
      assert log == [page] + rest;
      forall i | 0 <= i < |log| - 1
        ensures log[i + 1] == log[i] + (if Advances(replies[i]) then 1 else 0)
      {
        if i > 0 {
          assert log[i] == rest[i - 1] && log[i + 1] == rest[i] && replies[i] == replies[1..][i - 1];
        }
      }
    }
  }

  /** The decoded bodies of the 200 replies, in order. */
  function OkPages(replies: seq<Response<PlanetPage>>): seq<PlanetPage>
  {
    if replies == [] then []
    else
      var first := if replies[0].Reply? && replies[0].status == StatusOK && replies[0].body.Parsed?
        then [replies[0].body.value] else [];
      first + OkPages(replies[1..])
  }

  /**
   * A successful crawl returns exactly the decoded 200 pages among the replies
   * it consumed, one per request made, in fetch order: non-200 replies add nothing.
   */
  lemma {:induction false} CrawlKeepsFetchOrder(replies: seq<Response<PlanetPage>>, page: nat)
    requires Crawl(replies).Ok?
    ensures |RequestLog(replies, page)| <= |replies|
    ensures Crawl(replies).value == OkPages(replies[..|RequestLog(replies, page)|])
  {
    var n := |RequestLog(replies, page)|;
    if Stops(replies[0]) {
      assert replies[..1] == [replies[0]];
      assert OkPages(replies[..1][1..]) == [];
    } else {
      var next := if Advances(replies[0]) then page + 1 else page;
      CrawlKeepsFetchOrder(replies[1..], next);
      assert replies[..n][1..] == replies[1..][..n - 1];
    }
  }
}
