# Fyyur booking directory, modelled in Dafny

Fyyur is a Flask/SQLAlchemy directory of venues, artists and the shows that
book an artist at a venue. This project models the rules in `app.py` that
sit underneath the routing:

- the booking rule of `create_show_submission`. An artist with a complete
  availability window can only be booked inside it. A missing artist, an
  unreadable start or an unknown venue refuses the booking too.
- the past/upcoming split of an artist's or a venue's shows
  (`get_past_upcoming_shows`) and the display record each show becomes.
- the upcoming-show counter `calculate_upcoming_past_shows`, including the
  defect in its past branch (see Findings).
- the filter clause of `search_venues` / `search_artists` and their
  `{count, data}` responses, with the sample searches the handlers' comments
  promise.
- genre lists stored with `",".join` and read back with `split(',')`.
- the artist and venue edits: the artist edit writes only non-empty fields,
  the venue edit writes every field.
- the `venues` listing grouped by (state, city).
- venue deletion, which cascades to the venue's shows.

The database is the class `Directory.Store`. It holds the three tables as
sequences in their natural order, plus the next value of each id sequence.
`Store.Valid()` holds the guarantees the database gives: unique primary
keys, and every show's artist and venue exist. Each write handler is a
method that either takes full effect or leaves every table as it was; this
models commit and rollback. Read handlers are methods that change nothing.
Each handler is proved against a specification function, such as
`Shows.Query`, `Shows.ProjectAll`, `Search.MatchingVenues`,
`Edits.UpdateArtistRows` or `Directory.AreaKeys`. The properties are proved
about those functions.

Other modelling choices:

- Timestamps are integers. The clock is the parameter `now`, read once per
  call.
- Nullable columns are `Option<string>`.
- `ILIKE '%t%'` is a case-insensitive substring test over ASCII letters.

Modules:

- `Text`: Python's `split`, `join`, `strip`, `lower` and substring search.
- `Records`: the rows.
- `Shows`, `Availability`, `Genres`, `Search`, `Edits`: the rules.
- `Directory`: the store and its handlers.
- `Samples`: the sample searches.

## Model

| member | source | states |
|---|---|---|
| Text.Split | app.py:287 | `split(',')` yields at least one piece, and no piece holds the separator |
| Text.JoinSplit | app.py:318 | joining the pieces of any text with the separator gives back the text |
| Text.SplitJoin | app.py:358 | splitting the join of one or more separator-free pieces gives back exactly those pieces |
| Text.Strip | app.py:289-290 | `strip()` returns a piece of its input with no white space at either end, everything cut away before and after it is white space, and it is empty only when the input is all white space |
| Text.Lower | app.py:291 | lower-casing keeps the length and lower-cases each character in place |
| Text.Contains | app.py:291 | the substring test holds exactly when the piece occurs at some offset |
| Records.FindVenue | app.py:314 | `filter_by(id=...).first()` finds a venue exactly when one has that id, and the venue found has it |
| Records.FindArtist | app.py:671 | the artist lookup finds an artist exactly when one has that id, and the artist found has it |
| Shows.Related | app.py:63 | `venue.venue_shows` / `artist.artist_shows` hold exactly the table's shows with that venue or artist |
| Shows.Query | app.py:446-449 | each query holds exactly the filtered shows on its side of `now`: `start < now` for past, `start >= now` for upcoming |
| Shows.PartitionIsExact | app.py:446-449 | every filtered show is in exactly one list, a show at `now` is upcoming, and `past_shows_count + upcoming_shows_count` is the number of the entity's shows (app.py:334-335, 504-507) |
| Shows.Project | app.py:457-481 | a record keeps the show's start time, is an artist record exactly on the artist perspective, and carries the id, name and image link of the show's own artist or venue row |
| Shows.ProjectAllAt | app.py:457-481 | the i-th record the loop builds is the projection of the i-th show |
| Shows.ProjectedQuery | app.py:446-481 | every record of a projected list keeps its show's side of `now` and the perspective's record kind |
| Shows.MomentsCoverAll | app.py:269 | the counts before, at and after `now` add up to the number of shows |
| Shows.CountsMatchPartition | app.py:269 | the count before `now` is the length of the past list, and the counts at and after `now` add up to the upcoming list |
| Shows.CountAfterIsStrictQuery | app.py:269 | `sum([1 for show in shows if show.start_time > now])` over an entity's shows is the number of its shows starting strictly after `now` |
| Shows.CalculateUpcomingPastShows | app.py:260-273 | the counter as written never exceeds the number of shows; its upcoming branch is the number of the entity's shows starting strictly after `now`, by `Shows.UpcomingCountIsStrict` |
| Shows.PastBranchCountsUpcoming | app.py:268-273 | as written, the past branch returns the upcoming count for every input, so one show before `now` gives 0 where the past list has 1 |
| Shows.UpcomingCountIsStrict | app.py:260-270 | the upcoming branch returns the number of the entity's shows starting strictly after `now`, and the corrected counter's upcoming branch returns the same |
| Shows.CountersAgreeWithPartition | app.py:260-273 | the corrected past count equals the past list's length, and the upcoming count is the upcoming list's length less the shows at exactly `now` |
| Shows.BoundaryDisagreement | app.py:269 | in any table, a show of the entity starting exactly at `now` is in the upcoming list (app.py:449), and the counter as written counts fewer upcoming shows than that list holds |
| Availability.Admits | app.py:673-676 | a window with either bound missing admits every start, and an empty window none; with both bounds set it admits exactly the closed interval, by `Availability.WindowIsInterval` and `Availability.WindowDecides` |
| Availability.WindowIsInterval | app.py:673-676 | the admitted starts form a closed interval: both ends admitted when it is not empty, nothing when it is, everything between two admitted starts |
| Availability.CheckBooking | app.py:662-693 | accepted exactly when the artist exists, the start parses, the venue exists and the artist's window admits the start; refused as unknown artist exactly when the artist is missing; a readable start outside a complete window is refused with that window whatever the venue, and that refusal carries the artist's own bounds; refused as unknown venue exactly when every earlier check passes and the venue is missing |
| Availability.WindowDecides | app.py:673-683 | with both bounds set, a readable booking at an existing venue is accepted exactly when `from <= start <= to`, and is otherwise refused with that window |
| Availability.NoWindowAdmitsAll | app.py:673 | with either bound missing, every readable start at an existing venue is accepted |
| Genres.Encode | app.py:358 | the stored text of a non-empty list of comma-free names splits at commas back into that list; the same join is at app.py:532, 573 and 606 |
| Genres.DecodeForArtistPage | app.py:493 | no genres exactly when the column is NULL or empty; otherwise comma-free names that join back to the stored text |
| Genres.DecodeForVenuePage | app.py:316-318 | no genres exactly when the column is NULL; otherwise comma-free names that join back to the stored text, as in both edit forms (app.py:523, 561) |
| Genres.RoundTrip | app.py:358 | storing a non-empty list of comma-free names and reading it on the venue page gives the list back; on the artist page too, unless the list is one empty name |
| Genres.StoredTextRoundTrip | app.py:318 | the venue page's list joins back to whatever text is stored (app.py:573) |
| Genres.EmptyListReadsDifferently | app.py:493 | the empty list is stored as "", which the artist page reads as no genre and the venue page and both edit forms (app.py:318, 523, 561) as one empty genre |
| Search.ChooseClause | app.py:282-293 | the city/state clause is chosen exactly when the term is empty and the text splits into two pieces at commas, and its city and state have no white space at either end; otherwise the name clause carries the term as given |
| Search.TermSearchesNames | app.py:292-293 | with a non-empty term, a venue or artist matches exactly when its name contains the term, ignoring case |
| Search.CityStateSearchesBoth | app.py:285-291 | with no term and a text that splits into two pieces, a row matches exactly when its city contains the first piece and its state the second, both stripped, ignoring case (app.py:416-422) |
| Search.FallbackMatchesEveryName | app.py:292-293 | with no term and no two-piece text, every row with a non-NULL name matches (app.py:423-424) |
| Search.MatchingVenues | app.py:294 | the result holds exactly the venues the clause matches |
| Search.MatchingArtists | app.py:425 | the result holds exactly the artists the clause matches |
| Search.VenueEntry | app.py:250-254 | a venue's entry carries its id and name, and its upcoming count is the number of its shows starting strictly after `now` |
| Search.ArtistEntry | app.py:427-431 | an artist's entry carries its id and name, and its upcoming count is the number of its shows starting strictly after `now` |
| Search.VenueEntries | app.py:297-300 | one entry per venue, in order, with its id, name and upcoming count |
| Search.ArtistEntries | app.py:427-431 | one entry per artist, in order, with its id, name and upcoming count |
| Samples.SearchVenuesForHop | app.py:279 | on the sample venues, "Hop" returns The Musical Hop and nothing else |
| Samples.SearchVenuesForMusic | app.py:280 | on the sample venues, "Music" returns The Musical Hop and Park Square Live Music & Coffee |
| Samples.SearchArtistsForA | app.py:411 | on the sample artists, "A" returns all three |
| Samples.SearchArtistsForBand | app.py:412 | on the sample artists, "band" returns The Wild Sax Band and nothing else |
| Samples.CityStateSample | app.py:287-291 | "San Francisco, CA" searches city "San Francisco" and state "CA" |
| Edits.UpdateArtist | app.py:539 | the update sets exactly the named columns to their new values, and keeps the id, the window and every other column |
| Edits.UpdateVenue | app.py:576 | the update sets exactly the named columns, and keeps the id and every other column |
| Edits.CollectValidKeys | app.py:535-538 | the `valid_keys` loop keeps exactly the submitted fields whose value is not empty |
| Edits.ArtistEditKeepsEmptyFields | app.py:535-539 | after an artist edit, a column holds the submitted value when that value is non-empty, and otherwise keeps its old value |
| Edits.VenueEditWritesEmptyFields | app.py:576 | a venue edit that submits an empty value writes the empty string |
| Edits.UpdateArtistRows | app.py:539 | `UPDATE ... WHERE id = ?` changes the row with that id and leaves every other row as it was |
| Edits.UpdateVenueRows | app.py:576 | the venue update changes the row with that id and leaves every other row as it was |
| Edits.UpdateArtistRowsKeepsIds | app.py:539 | the update keeps the set of ids and their uniqueness, and an id no row has changes nothing |
| Edits.UpdateVenueRowsKeepsIds | app.py:576 | the update keeps the set of ids and their uniqueness, and an id no row has changes nothing |
| Directory.NewVenue | app.py:350-368 | the inserted venue carries the form's name, city, state and joined genres, with `seeking_talent` false and no website |
| Directory.NewArtist | app.py:598-623 | the inserted artist has both window bounds or neither, and has them exactly when the form gives both |
| Directory.WithoutVenue | app.py:384 | the delete keeps exactly the venues with another id, and keeps ids unique |
| Directory.ShowsElsewhere | app.py:93-94 | the cascade keeps exactly the shows at other venues, and keeps ids unique |
| Directory.CascadeRemovesVenueShows | app.py:63 | the remaining shows and the venue's shows add up to the whole table |
| Directory.DeleteMissingVenueKeepsVenues | app.py:384 | deleting an id no venue has leaves the venue table as it was |
| Directory.DeleteMissingVenueKeepsShows | app.py:94 | with the foreign keys holding, deleting an id no venue has removes no show |
| Directory.VenuesIn | app.py:248 | the query holds exactly the venues with that state and city |
| Directory.AreaKeys | app.py:247 | the grouping query yields every (state, city) pair some venue has, each once |
| Directory.VenueListedInItsArea | app.py:247-256 | every venue is listed in the group of its own state and city |
| Directory.AreaListingVenue | app.py:247-256 | a group that lists a venue has that venue's state and city |
| Directory.EachVenueInOneArea | app.py:247-256 | every venue is listed in exactly one group, the one of its own state and city |
| Directory.KeysMakeGroups | app.py:247-256 | one group per distinct pair, each listing the venues of its pair, makes a listing grouped by area |
| Directory.Store.constructor | app.py:100 | the store starts with empty tables, and its guarantees hold |
| Directory.Store.CreateVenue | app.py:348-375 | a form with genres appends one venue under the next id and keeps the guarantees; a form without genres changes nothing |
| Directory.Store.CreateArtist | app.py:596-631 | a form with genres appends one artist under the next id; a form without genres changes nothing |
| Directory.Store.CreateShow | app.py:663-693 | an accepted booking appends one show under the next id; a refused one changes no table; a booking the venue's foreign key refuses still uses up the next show id, since a rolled-back sequence value is not reused; the outcome is `CheckBooking` on the tables before the call |
| Directory.Store.DeleteVenue | app.py:380-393 | the venue and its shows go, nothing else changes, the guarantees hold, and an id no venue has changes nothing |
| Directory.Store.EditArtist | app.py:528-549 | the artist table becomes the update with the non-empty submitted fields; a form without genres changes nothing |
| Directory.Store.EditVenue | app.py:569-586 | the venue table becomes the update with every submitted field; a form without genres changes nothing |
| Directory.Store.ProjectEach | app.py:457-481 | the projection loop builds the projection of the query, record by record |
| Directory.Store.PastUpcomingShows | app.py:438-482 | the two lists are the projected past and upcoming queries, their lengths add up to the entity's show count, and every record lies on its side of `now` with the perspective's record kind |
| Directory.Store.VenueEntriesOf | app.py:250-254 | the entry loop builds one entry per venue, in order |
| Directory.Store.SearchVenues | app.py:278-305 | the response lists the entries of exactly the matching venues, and `count` is the number of entries |
| Directory.Store.ArtistEntriesOf | app.py:427-431 | the result loop builds one entry per artist found, in order |
| Directory.Store.SearchArtists | app.py:409-436 | the response lists the entries of exactly the matching artists, and `count` is the number of entries |
| Directory.Store.GroupVenues | app.py:243-257 | one group per distinct (state, city) pair in the grouping query's order, each listing in table order the entries of the venues with that pair |

## Left out

- Flask routing, templates, `flash`, `redirect` and the decoding of
  `request.form`. Handlers take the decoded fields as parameters.
- The SQLAlchemy session, `CREATE DATABASE` and `db.create_all`. Each write
  is one atomic transition: it either takes full effect or none.
- The clock `datetime.now(pytz.utc)`. The source reads it twice per
  partition and once per show in the counter. The model reads a single
  `now`, and timezones are not modelled.
- `strptime` / `strftime`. The start time arrives already parsed;
  `None` stands for text that does not parse.
- Availability.CheckBooking: an unreadable start is refused even when the
  artist has no window. In the source, that text goes unparsed to the
  database, whose own date parser decides.
- Ids arrive as numbers. A non-numeric `artist_id` or `venue_id`, which the
  database would refuse, is not modelled.
- Text.Contains: `%` and `_` in a search term are read literally. `ILIKE`
  would treat them as wildcards.
- Text.Lower and Text.Strip: only ASCII is modelled. Case folding covers
  the ASCII letters only, and white space covers the ASCII white space only.
- Directory.AreaKeys: the order of groups in the listing is the order in
  which each (state, city) pair first appears. The database's own
  `GROUP BY` order is unspecified.
- `format_datetime`, the logging set-up and the seed loader
  `insert_dummy_values` are not modelled. Only the sample names and
  city/state text appear, in `Samples`.
- `created_at` and the home page's recent-ten ordering are not modelled.
  The default is evaluated once per process, so the ordering carries no
  behaviour.
- `seeking_venue` is a plain boolean that create leaves false. In the
  source, a trailing comma makes it a tuple rather than a column.
- Directory.Store.EditVenue and Directory.Store.EditArtist: only the text
  columns an edit form submits are modelled. Boolean or date fields, and
  form keys that are not columns (which make the update fail), are not.
- Directory.Store.CreateVenue and Directory.Store.CreateArtist: only a
  missing genre list is modelled as a failure. Other missing form keys are
  not.
- Directory.Store.CreateVenue, Directory.Store.CreateArtist,
  Directory.Store.EditArtist and Directory.Store.EditVenue always write.
  The declared column widths are not modelled: `String(120)` and
  `String(500)` (app.py:51-61, 72-80), which also bound the joined genre
  text (app.py:60, 75). A longer value makes PostgreSQL refuse the write,
  and the handler rolls back. A create refused this way would also use up
  an id, which is not modelled either.
- Directory.Store.CreateArtist: the window arrives already parsed, as
  `Directory.ArtistForm`'s `Option<Timestamp>` fields. An
  `available_from` or `available_to` text that the database cannot parse
  makes the insert fail and the handler roll back (app.py:610-621). That
  failure is not modelled.
- Directory.Store.DeleteVenue models the delete together with the cascade
  that the relationships and foreign keys declare (app.py:63, 93-94). It
  does not model how SQLAlchemy's bulk `delete()` interacts with the
  ORM-level cascade.
- `get_past_upcoming_shows` takes a perspective string. The model has two
  perspectives; any string other than `'artist'` or `'venue'` is not
  modelled.
- A show's `start_time` column is nullable, but every show is created with
  a start time. NULL start times are not modelled.

## Findings

| source | as written | input that shows it | evidently intended | confidence | as-written member | corrected member |
|---|---|---|---|---|---|---|
| app.py:271-273 | the `for_upcoming=False` branch counts `show.start_time > now`, the same test as the upcoming branch | one show starting one second before `now`: the past branch returns 0, while the past list of `get_past_upcoming_shows` holds that show | the past branch counts the shows that start before `now`, matching the past list | high (not executed) | Shows.PastBranchCountsUpcoming | Shows.CountersAgreeWithPartition |

Every caller uses the upcoming branch. The search and listing entries call
the counter as written, `Shows.CalculateUpcomingPastShows`, and
`Shows.UpcomingCountIsStrict` proves that the corrected counter returns the
same value there.

Two more points about the code, which the model follows:

- A create or edit form with no genre selected has no `genres` key, so
  `form_data['genres']` raises: create then stores nothing and edit writes
  nothing. `Genres.EmptyListReadsDifferently` states what the two readers
  make of an empty stored string.
- With neither a search term nor a two-piece city/state text, the search
  uses the name pattern `'%%'` and returns every row whose name is not
  NULL.
