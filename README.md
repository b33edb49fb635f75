# Star Wars planets: import and facade, modelled in Dafny

The service keeps three tables, `planet`, `film` and `film_planet` (the
links), filled from a remote Star Wars dataset. Its core is the import:
`CreatePlanetsAndFilms` crawls every page of remote planets. For each planet
it reuses the active planet row with the planet's name or inserts one. Then
`SaveFilms` resolves the planet's film references. For each film it reuses the
film row with that title or inserts one, and it inserts a link unless one
already exists for the pair. On top of the tables sits a small facade:
`GetOneByID`, `GetAllPlanets` and the soft-deleting `Delete`.

The model has seven modules, one per concern of the Go source:

- `Wrappers`: `Option`, `Result` and the error kinds. `PlanetNotFound` is the
  sentinel, `StoreError` is any SQL failure, `RemoteError` is a transport or
  decode failure of the remote dataset, and `ScriptExhausted` is a crawl that
  has not finished.
- `Remote`: what the remote dataset answers to one HTTP request. A reply is
  either `Failed` (the request or the reading of its body failed) or a
  status code with a body, and the body either decodes (`Parsed`) or does not
  (`Garbled`). `StatusOK` is 200.
- `Generic`: the pagination helper, both as written (int64 wrap-around) and as
  intended.
- `Tables`: the rows, the WHERE/LIMIT/OFFSET/JOIN semantics of every query as
  pure functions, and the class `Database`. It holds the three tables as
  sequences, the AUTO_INCREMENT counters, a statement budget that makes any SQL
  statement fail once it is spent, a ghost count of the statements refused so
  far, a ghost log of the store calls made, and a ghost count of the rows the
  INSERT statements wrote. The class invariant says the tables hold exactly
  that many rows, so no written row is ever removed.
- `PlanetStore` and `FilmStore`: the store methods over `Database`, the crawl
  loop over a script of remote page replies, the reference-to-URL derivation,
  and the film fetch loop over a map from URL to reply.
- `PlanetApp`: the import and the facade.

The import is proved to insert no planet row whose name an active row already
has, no film row whose title a row already has, and no link whose pair a link
already has. Every new row comes from the crawled data: a planet row carries
a crawled planet's name, climate and terrain; a film row a fetched film's
title, director and release date; a link joins the row of a crawled planet to
the row of one of its fetched films. An error is either the crawl's own
failure, a film fetch failure of a crawled planet, or a store error. A store
error comes back exactly when a statement was refused; with no statement
refused and every fetch succeeding, the import succeeds. The import stops at
the first error and rolls nothing back. Every INSERT that ran before the error
left its row: the tables grow by exactly as many rows as INSERT statements
succeeded during the import. When a film fetch failed, the import names the
planet it stopped at: every planet before it stays imported, that planet's row
exists, and fetching its films fails with the error returned. For a store
error the contract does not say which planet the import stopped at. A successful import leaves every crawled
planet imported, with every film linked. An import over data that is
already imported changes no table, and this is why a second run inserts
nothing (`PlanetApp.ImportTwice`).

Four behaviours of the code that are easy to miss:

- The link lookup does not look at `deleted_at`, so a soft-deleted link still
  counts as existing and is never re-created. The by-planet film query returns
  deleted links too.
- A non-200 reply for a film is skipped silently. It is not a hard failure.
- A non-200 reply for a planet page is not an error either: the same page is
  requested again.
- The listing passes its `page` argument straight through as the SQL OFFSET.

## Model

| member | source | states |
|---|---|---|
| Generic.MakePaginationAsWritten | model/generic/generic.go:9-21 | the helper with Go's int64 wrap-around: the next page stays in int64 and a previous page, when present, is not negative |
| Generic.MakePagination | model/generic/generic.go:9-21 | the next page is always `page + 1`; the previous page is absent exactly when `page <= 0` and otherwise is `page - 1` |
| Generic.NeighboursTwoApart | model/generic/generic.go:10-14 | when both neighbours exist, next minus previous is 2 |
| Generic.PaginationScenarios | model/generic/generic.go:9-21 | page 0 gives (1, none) and page 5 gives (6, 4) |
| Generic.AsWrittenAgreesInside | model/generic/generic.go:9-21 | strictly inside the int64 range the code as written equals the intended helper |
| Generic.AsWrittenWrapsAtMinimum | model/generic/generic.go:13-18 | at the lowest int64 the code as written reports the largest int64 as previous page, where the intended helper reports none |
| Generic.AsWrittenWrapsAtMaximum | model/generic/generic.go:10-11 | at the largest int64 the next page wraps to the lowest int64 |
| Tables.FindActivePlanet | store/planet/planet.go:114-140 | the index of the first planet row that is not deleted and has the name; none exactly when no such row exists |
| Tables.FindPlanetById | store/planet/planet.go:143-169 | a planet row with the id that is not deleted; none exactly when no such row exists |
| Tables.FindFilm | store/film/film.go:123-148 | the index of the first film row with the name; none exactly when no row has it |
| Tables.FindFilmById | store/film/film.go:182-183 | a film row with the id of the join condition; none exactly when no row has it |
| Tables.FindLink | store/film/film.go:151-175 | a link row for the (planet, film) pair, deleted or not; none exactly when no row has the pair |
| Tables.Contains | store/planet/planet.go:173-177 | `name LIKE %filter%`: true exactly when the filter occurs at some position of the name |
| Tables.Listed | store/planet/planet.go:173-177 | a listed row is never deleted, and with an empty filter every row that is not deleted is listed |
| Tables.Matching | store/planet/planet.go:173-178 | a row is kept exactly when it is not deleted and, for a non-empty filter, its name contains the filter |
| Tables.Window | store/planet/planet.go:180-181 | LIMIT/OFFSET: at most `limit` rows, the rows from `offset` on, empty past the end |
| Tables.ListPlanets | store/planet/planet.go:172-208 | the listing is an error exactly when the offset or limit is negative |
| Tables.LinksOf | store/film/film.go:178-184 | a link is returned exactly when it is in the table and its planet is among the ids, whatever its deletion mark |
| Tables.JoinFilms | store/film/film.go:179-218 | the join succeeds exactly when every link's film exists; each result row carries its link's planet, film and mark and that film's row |
| Tables.FilmsByPlanetIds | store/film/film.go:178-188 | an empty id list is a store error |
| Tables.MarkPlanetDeleted | store/planet/planet.go:212 | the UPDATE keeps the number of rows and every field but the mark; a row ends up deleted exactly when it was deleted or has the id |
| Tables.MarkLinksDeleted | store/planet/planet.go:225 | the UPDATE keeps the number of link rows and every field but the mark; a link ends up deleted exactly when it was deleted or belongs to the planet |
| Tables.Database.InsertPlanet | store/planet/planet.go:95-112 | appends one active planet row with a fresh id, larger than every id before it, and counts one more row written |
| Tables.Database.InsertFilm | store/film/film.go:85-102 | appends one film row with a fresh id, larger than every id before it, and counts one more row written |
| Tables.Database.InsertLink | store/film/film.go:104-121 | appends one link row that is not deleted and counts one more row written |
| Tables.Database.SoftDeletePlanet | store/planet/planet.go:212-213 | marks deleted every planet row with the id and keeps the ids ordered |
| Tables.Database.SoftDeleteLinks | store/planet/planet.go:225 | marks deleted every link row of the planet |
| Tables.DeletedPlanetInvisible | store/planet/planet.go:211-237 | after the soft-delete the id is not found by id and no listing contains it; other ids are found as before, and the row stays |
| Tables.DeletedLinkStillFound | store/film/film.go:151-152 | cascading the delete to the links leaves every link lookup as it was, since that lookup ignores the deletion mark |
| Tables.ListingShape | store/planet/planet.go:172-208 | a listing holds at most `limit` active rows that match the filter, in table order, starting at row `offset` of the matching rows |
| Tables.PageIsRowOffset | store/planet/planet.go:180-181 | with a limit of two or more, the listings for `page` and `page + 1` share all but one row |
| PlanetStore.GetOne | store/planet/planet.go:114-141 | no row is not an error; otherwise the first active row with the name; a failed statement is a store error and nothing changes |
| PlanetStore.GetOneById | store/planet/planet.go:143-170 | the active row with the id, or `PlanetNotFound` exactly when there is none; a failed statement is a store error |
| PlanetStore.GetAll | store/planet/planet.go:172-209 | the result is the listing with `page` as the offset; a failed statement is a store error |
| PlanetStore.SavePlanet | store/planet/planet.go:95-112 | appends exactly one active row with the name, climate and terrain and returns its fresh id, counting one row written; on failure nothing changes and no row is counted |
| PlanetStore.Delete | store/planet/planet.go:211-238 | marks the planet deleted, then its links; films are untouched and no row is written; no matching row is not an error; a failure of the second statement leaves the planet deleted and the links not |
| PlanetStore.Crawl | store/planet/planet.go:43-93 | a successful crawl ends with a page without `next`, and every earlier page has one |
| PlanetStore.Stops | store/planet/planet.go:75-88 | a reply that stops the loop never advances the page; a reply that does not stop it is a reply that either advances (a 200 page with `next`) or is not a 200 and is retried |
| PlanetStore.RequestLog | store/planet/planet.go:44-88 | one request per consumed reply at most, and the first request is for the starting page |
| PlanetStore.GetPlanets | store/planet/planet.go:43-93 | the loop returns the crawl's outcome and requests exactly the page numbers of the request log |
| PlanetStore.RequestLogSteps | store/planet/planet.go:44-89 | the first request is for page 1; the page advances by one exactly after a 200 page with `next`, and otherwise the same page is requested again |
| PlanetStore.CrawlKeepsFetchOrder | store/planet/planet.go:75-89 | the pages returned are exactly the decoded 200 replies among those consumed, in fetch order |
| FilmStore.IndexOf | store/film/film.go:46 | the first position where the separator occurs; none exactly when it never occurs |
| FilmStore.SplitSecond | store/film/film.go:46 | `strings.Split(ref, prefix)[1]`: a prefix of the text after the first occurrence of the films prefix |
| FilmStore.FilmUrl | store/film/film.go:46-49 | the request URL starts with the films prefix and is no longer than the prefix and the reference together |
| FilmStore.TrimSlashes | store/film/film.go:49 | a prefix of the text that does not end in `/`, and only `/` characters were removed |
| FilmStore.SplitAtFirst | store/film/film.go:46 | a reference is its text before the first separator, the separator, and what follows it |
| FilmStore.SplitSecondEnds | store/film/film.go:46 | the identifier is a prefix of what follows the first separator and ends at the end or at the next separator |
| FilmStore.SplitSecondHasNoSeparator | store/film/film.go:46 | the identifier holds no occurrence of the separator |
| FilmStore.FilmUrlShape | store/film/film.go:46-49 | the URL is the films prefix followed by a prefix of the identifier that does not end in `/` |
| FilmStore.FetchFilms | store/film/film.go:43-83 | never more films than references; every failure is a remote error |
| FilmStore.FetchedFilmsAnswerRefs | store/film/film.go:70-79 | every fetched film is the decoded 200 reply to one of the references |
| FilmStore.RepliesFor | store/film/film.go:45-57 | one reply per reference, in reference order, each the reply to that reference's URL |
| FilmStore.DecodedFilmsMembers | store/film/film.go:70-79 | a film is among the decoded films exactly when some reply is a 200 carrying it |
| FilmStore.FetchFilmsIsFilterMap | store/film/film.go:43-83 | when no reply fails and no 200 reply is garbled, fetching yields the films of the decoded 200 replies in reference order, skipping the other replies; otherwise it is the error of the first reply that failed or was garbled |
| FilmStore.GetFilms | store/film/film.go:43-83 | the loop returns exactly what fetching the references yields |
| FilmStore.GetOne | store/film/film.go:123-149 | no row is not an error; otherwise the first film row with the name; a failed statement is a store error |
| FilmStore.SaveFilm | store/film/film.go:85-102 | appends exactly one film row named after the title, with director and release date, and returns its fresh id, counting one row written; on failure no row is counted |
| FilmStore.SaveFilmWithPlanet | store/film/film.go:104-121 | appends exactly one link row for the pair, not deleted, counting one row written; on failure nothing changes and no row is counted |
| FilmStore.GetFilmWithPlanet | store/film/film.go:151-176 | the first link for the pair whatever its deletion mark, or none exactly when there is none |
| FilmStore.GetFilmsByPlanetIds | store/film/film.go:178-221 | an empty id list is a store error with no statement run; otherwise the loop returns the join of the links of the given planets, deleted or not, with their films, and a failed statement is a store error |
| FilmStore.ScanJoin | store/film/film.go:198-220 | the row-by-row scan returns exactly the join, failing on a link whose film row is missing |
| PlanetApp.EnsurePlanet | app/planet/planet.go:41-58 | an existing active row is reused with only a lookup made; otherwise exactly one row `(id, name, climate, terrain, not deleted)` of the remote planet is inserted and its id used; no new row repeats the name of an active row; it fails exactly when a statement is refused, and then with a store error |
| PlanetApp.EnsureFilm | app/planet/planet.go:79-94 | an existing film row is reused with only a lookup made; otherwise exactly one row `(id, title, director, release date)` of the fetched film is inserted and its id used; no new row repeats a title; it fails exactly when a statement is refused, and then with a store error |
| PlanetApp.EnsureLink | app/planet/planet.go:96-108 | a link is inserted only when the lookup finds none for the pair; on success the pair is linked; no new link repeats a pair; it fails exactly when a statement is refused, and then with a store error |
| PlanetApp.LinkFilm | app/planet/planet.go:78-109 | on success the film is linked to the planet; a film already linked leaves every table unchanged; a new film row is the fetched film's row and a new link points to the film row with its title; it fails exactly when one of its statements is refused, and then with a store error |
| PlanetApp.LinkFilms | app/planet/planet.go:78-109 | on success every film is linked to the planet; if all were linked before, no table changes; no duplicate film or link is added and the planet table is untouched; every new film row is the row of one of the films and every new link joins the planet to one of them; it fails exactly when a statement is refused, and then with a store error after exactly one refusal |
| PlanetApp.SaveFilms | app/planet/planet.go:71-112 | a fetch error is returned and nothing changes; on success every fetched film is linked to the planet; if all were linked before, no table changes; no duplicate film or link is inserted; new film rows and links come from the fetched films; a store error comes back exactly when a statement was refused, so after a successful fetch with no statement refused it succeeds |
| PlanetApp.ImportPlanet | app/planet/planet.go:41-64 | one planet of the loop: on success it is imported; if it was imported before, no table changes; rows are only added, with no duplicate planet, film or link; every new planet row is this planet's row, every new film row is a film fetched for it and every new link joins it to such a film; a store error comes back exactly when a statement was refused; any other error is the error of its film fetch, and then its active row exists; with no statement refused and a successful fetch it succeeds |
| PlanetApp.ImportStep | app/planet/planet.go:40-64 | the body of the inner loop keeps what the import promises since its start (rows only added, no duplicates, new rows from the crawled planets and their fetched films, tables unchanged when all were imported), keeps the planets before it imported and adds this one on success; errors and success as for one planet |
| PlanetApp.ImportResults | app/planet/planet.go:40-64 | the inner loop over one page: on success every planet of the page is imported after those imported before; the tables grow by exactly as many rows as INSERTs succeeded, so no written row is rolled back; on a fetch error it stopped at some planet with every planet before it still imported, that planet has its row and its fetch failed with the error; a store error exactly when a statement was refused; with no statement refused and successful fetches it succeeds |
| PlanetApp.ImportPages | app/planet/planet.go:39-66 | rows are only added, with no duplicate planet, film or link; every new planet row is the row of a crawled planet, every new film row a film fetched for one, and every new link joins such a planet to such a film; on success every planet of every page is imported; if all were imported before, no table changes; the tables grow by exactly as many rows as INSERTs succeeded, so no written row is rolled back; on a fetch error the import stopped at some crawled planet, every planet before it stays imported, and that planet has its row and its fetch failed with the error; a store error exactly when a statement was refused; with no statement refused and successful fetches it succeeds |
| PlanetApp.CreatePlanetsAndFilms | app/planet/planet.go:32-69 | a crawl error is returned and nothing changes; rows are only added, with no duplicate planet, film or link, and every new row comes from a crawled planet or a film fetched for one; on success every crawled planet is imported; if all were imported before, no table changes; the tables grow by exactly as many rows as INSERTs succeeded, so no written row is rolled back; after a successful crawl a fetch error means the import stopped at some crawled planet, with every planet before it still imported, that planet's row present and its fetch failed with the error; a store error exactly when a statement was refused; with no statement refused and successful fetches it succeeds |
| PlanetApp.ImportTwice | app/planet/planet.go:32-69 | after a successful import a second import over the same data leaves every table as it was |
| PlanetApp.FilmsLinkedGrow | app/planet/planet.go:78-109 | appending rows keeps every film linked that was linked |
| PlanetApp.AllImportedGrow | app/planet/planet.go:39-66 | appending rows keeps every planet imported that was imported |
| PlanetApp.NoNewPlanetDuplicatesTrans | app/planet/planet.go:41-58 | two steps that each add no duplicate planet together add none |
| PlanetApp.NoNewFilmDuplicatesTrans | app/planet/planet.go:79-94 | two steps that each add no duplicate film together add none |
| PlanetApp.NoNewLinkDuplicatesTrans | app/planet/planet.go:96-108 | two steps that each add no duplicate link together add none |
| PlanetApp.LinkNext | app/planet/planet.go:78-108 | one pass of the film loop: keeps what the loop promises since its start, adds film `i` to the linked films on success, and fails exactly when a statement is refused, then with a store error |
| PlanetApp.FilmLoopStep | app/planet/planet.go:78-108 | rows added for one film of the list keep what the film loop promises since its start |
| PlanetApp.FilmsLinkedNext | app/planet/planet.go:78-109 | the first `i` films linked and film `i` linked make the first `i + 1` linked |
| PlanetApp.LinkFilmStep | app/planet/planet.go:78-109 | rows added for one film of the list keep every new film row and link traceable to a film of the list |
| PlanetApp.ImportPlanetRows | app/planet/planet.go:41-64 | the planet row and the rows that saving its films adds are all rows of that planet and of films fetched for it |
| PlanetApp.RowsFromTrans | app/planet/planet.go:39-66 | two steps whose new rows come from crawled planets and their films together add only such rows |
| PlanetApp.FlattenHas | app/planet/planet.go:39-40 | every planet of every page is visited by the nested loops |
| PlanetApp.FlattenFromPages | app/planet/planet.go:39-40 | the nested loops visit nothing but planets of the pages |
| PlanetApp.FlattenPrefix | app/planet/planet.go:39-40 | the planets of the first pages are visited first |
| PlanetApp.FlattenAt | app/planet/planet.go:39-40 | planet `k` of page `i` is visited after all planets of the earlier pages and the first `k` of its page, and just those |
| PlanetApp.StoppedInPage | app/planet/planet.go:39-65 | a stop of the inner loop at a planet of a page is a stop of the nested loops at that same planet |
| PlanetApp.FilmsFor | app/planet/planet.go:156-162 | a film is attached to a planet exactly when some joined row of that planet carries it |
| PlanetApp.FilmsForAllOfOne | app/planet/planet.go:121-129 | when every joined row belongs to the planet, grouping by planet keeps every film, in order |
| PlanetApp.JoinedBelong | store/film/film.go:178-184 | every row of the by-planet query belongs to one of the planets asked for |
| PlanetApp.AttachedFilmsAreLinked | app/planet/planet.go:150-162 | every film attached to a planet is a film row that a link row of that planet points to, deleted or not |
| PlanetApp.LinkedFilmsAreAttached | app/planet/planet.go:150-162 | every link row of a planet, deleted or not, brings its film to that planet's films |
| PlanetApp.AppendFilms | app/planet/planet.go:127-129 | the films of all joined rows, in row order |
| PlanetApp.PlanetIds | app/planet/planet.go:145-148 | the ids of the listed planets, in order |
| PlanetApp.AttachFilms | app/planet/planet.go:156-162 | the planets keep their order and number, and each gets the films of the joined rows with its id, in row order |
| PlanetApp.GetOneByID | app/planet/planet.go:114-132 | lookup failure is returned with no film query; otherwise the active planet with every film of its links attached |
| PlanetApp.PlanetWithFilms | app/planet/planet.go:121-131 | one film query for the planet; on success the planet with the films of its joined rows; otherwise a store error |
| PlanetApp.GetAllPlanets | app/planet/planet.go:134-165 | an empty listing is `PlanetNotFound` and queries no films; otherwise the listed planets in order, each with the films of its links |
| PlanetApp.PlanetsWithFilms | app/planet/planet.go:145-164 | one film query for all the ids; on success the planets in order and number, each with the films of its joined rows; otherwise a store error |
| PlanetApp.Delete | app/planet/planet.go:167-180 | a failed lookup is returned and nothing is deleted; otherwise the store delete runs on that id; success exactly when the planet was active and all three statements ran |

## Left out

- HTTP, JSON decoding and the remote dataset are not modelled. The planet pages are a script of replies. The film replies are a map from request URL to reply, and a URL missing from the map is answered 404.
- The crawl can repeat a page forever on non-200 replies. The script of replies bounds it, and running out of replies is the error `ScriptExhausted`, which the code never returns.
- SQL text, the MySQL driver, `Scan` and `LastInsertId` are not modelled. A statement that fails is modelled by a statement budget. A failure after a row was written (for example in `LastInsertId`) is not modelled.
- The string-interpolated INSERT and UPDATE statements are treated as inserting the values unchanged; quoting and injection are not modelled.
- `LIKE` is plain substring containment. Wildcards inside the filter and the collation's case rules are not modelled.
- The lookups by name (`name = ?` in store/planet/planet.go:115 and store/film/film.go:124) compare names exactly. MySQL's default collation compares them without regard to case and trailing spaces, so the real store can reuse a row whose name differs from the planet's or film's in case; this is not modelled.
- Negative LIMIT or OFFSET is modelled as a store error. An empty id list for `sqlx.In` is a store error. A link whose film is missing is a store error, because the LEFT JOIN then scans NULLs into integers.
- The row order of the JOIN result is modelled as link table order.
- Timestamps (`created_at`, `deleted_at`) are a deleted flag. The string form of the release date is kept as text.
- Logging, `context` cancellation, the HTTP handlers, server start-up and dependency wiring are not modelled.
- Remote fields the import does not read (the planet count, URLs, population and the like) are not modelled.
- PlanetApp.CreatePlanetsAndFilms: requires that every film reference of every crawled planet contains the films prefix. The code panics on such a reference when it reaches it, so the requirement is stronger than what the code needs for a run that fails earlier.
- PlanetApp.CreatePlanetsAndFilms: the contract does not say that no store call follows a failing one, although the code returns at once. For a store error it does not name the planet the import stopped at, nor which planets stay imported or which rows were written; it says only that every row an INSERT wrote stays, by their count.
- PlanetApp.ImportPages: for a store error the contract does not name the planet the loops stopped at or which planets stay imported; it says only that the rows the INSERTs wrote stay, by their count.
- PlanetApp.ImportResults: for a store error the contract does not name the planet the loop stopped at or which planets stay imported; it says only that the rows the INSERTs wrote stay, by their count.
- PlanetApp.SaveFilms: the contract does not state which film's statement was refused or which store calls preceded the refusal.
- Generic.MakePagination: requires `page < MaxInt64`. The int64 wrap-around is modelled separately in `Generic.MakePaginationAsWritten`.

## Findings

| source | as written | input that shows it | evidently intended | confidence | as-written member | corrected member |
|---|---|---|---|---|---|---|
| model/generic/generic.go:13-18 | `page - 1` is computed in int64 and the previous page is dropped only when that wrapped value is negative | page = -9223372036854775808: previous = 9223372036854775807 | no previous page for any page of 0 or less | low: no caller in the code passes such a page; not executed | Generic.AsWrittenWrapsAtMinimum | Generic.MakePagination |
