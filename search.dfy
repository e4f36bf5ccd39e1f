/** The filter clause of `search_venues` / `search_artists` and the result
    entries. A non-empty search term searches names; an empty term with a
    "city, state" text searches both columns; anything else falls back to
    the name pattern `'%%'`. */
module Search {
  import opened Records
  import opened Text
  import opened Shows

  datatype Clause = NameLike(term: string) | CityStateLike(city: string, state: string)

  /** The clause the handler builds from the two form fields. */
  function ChooseClause(searchTerm: string, cityStateText: string): (r: Clause)
    ensures r.CityStateLike? <==> searchTerm == "" && |Split(cityStateText, ',')| == 2
    ensures r.NameLike? ==> r.term == searchTerm
    ensures r.CityStateLike? ==> IsTrimmed(r.city) && IsTrimmed(r.state)
  {
    var parts := Split(cityStateText, ',');
    if searchTerm == "" && |parts| == 2 then CityStateLike(Strip(parts[0]), Strip(parts[1]))
    else NameLike(searchTerm)
  }

  /** `column ILIKE '%pattern%'`: a NULL column never matches. */
  predicate Like(column: Option<string>, pattern: string)
  {
    column.Some? && ContainsIgnoreCase(column.value, pattern)
  }

  predicate VenueMatches(c: Clause, v: Venue)
  {
    match c
    case NameLike(t) => Like(v.name, t)
    case CityStateLike(city, state) => Like(v.city, city) && Like(v.state, state)
  }

  predicate ArtistMatches(c: Clause, a: Artist)
  {
    match c
    case NameLike(t) => Like(a.name, t)
    case CityStateLike(city, state) => Like(a.city, city) && Like(a.state, state)
  }

  /** `query(Venue).filter(clause).all()`, in table order. */
  function MatchingVenues(venues: seq<Venue>, c: Clause): (r: seq<Venue>)
    ensures |r| <= |venues|
    ensures forall v :: v in r <==> v in venues && VenueMatches(c, v)
  {
    if |venues| == 0 then []
    else
      var init := venues[..|venues| - 1];
      var last := venues[|venues| - 1];
      assert venues == init + [last];
      if VenueMatches(c, last) then MatchingVenues(init, c) + [last] else MatchingVenues(init, c)
  }

  /** `query(Artist).filter(clause).all()`, in table order. */
  function MatchingArtists(artists: seq<Artist>, c: Clause): (r: seq<Artist>)
    ensures |r| <= |artists|
    ensures forall a :: a in r <==> a in artists && ArtistMatches(c, a)
  {
    if |artists| == 0 then []
    else
      var init := artists[..|artists| - 1];
      var last := artists[|artists| - 1];
      assert artists == init + [last];
      if ArtistMatches(c, last) then MatchingArtists(init, c) + [last] else MatchingArtists(init, c)
  }

  /** With a search term, exactly the rows whose name contains the term,
      ignoring case, match; the city/state text is then ignored. */
  lemma TermSearchesNames(searchTerm: string, cityStateText: string, v: Venue, a: Artist)
    requires searchTerm != ""
    ensures VenueMatches(ChooseClause(searchTerm, cityStateText), v)
            <==> v.name.Some? && ContainsIgnoreCase(v.name.value, searchTerm)
    ensures ArtistMatches(ChooseClause(searchTerm, cityStateText), a)
            <==> a.name.Some? && ContainsIgnoreCase(a.name.value, searchTerm)
  {
  }

  /** Without a term, a text that splits on ',' into exactly two pieces
      matches the rows whose city contains the first piece and whose state
      contains the second, both trimmed, ignoring case. */
  lemma CityStateSearchesBoth(cityStateText: string, city: string, state: string, v: Venue, a: Artist)
    requires Split(cityStateText, ',') == [city, state]
    ensures VenueMatches(ChooseClause("", cityStateText), v)
            <==> Like(v.city, Strip(city)) && Like(v.state, Strip(state))
    ensures ArtistMatches(ChooseClause("", cityStateText), a)
            <==> Like(a.city, Strip(city)) && Like(a.state, Strip(state))
  {
    assert ChooseClause("", cityStateText) == CityStateLike(Strip(city), Strip(state));
  }

  /** Without a term and without a two-piece text, the pattern `'%%'`
      matches every row whose name is not NULL. */
  lemma FallbackMatchesEveryName(cityStateText: string, v: Venue, a: Artist)
    requires |Split(cityStateText, ',')| != 2
    ensures VenueMatches(ChooseClause("", cityStateText), v) <==> v.name.Some?
    ensures ArtistMatches(ChooseClause("", cityStateText), a) <==> a.name.Some?
  {
    if v.name.Some? {
      assert OccursAt(Lower(v.name.value), Lower(""), 0);
    }
    if a.name.Some? {
      assert OccursAt(Lower(a.name.value), Lower(""), 0);
    }
  }

  /** One row of the result: id, name and number of upcoming shows. */
  datatype Entry = Entry(id: nat, name: Option<string>, numUpcomingShows: nat)

  /** The response: `{count, data}`. */
  datatype SearchResponse = SearchResponse(count: nat, data: seq<Entry>)

  /** The entry of one venue, counting `venue.venue_shows`: its upcoming
      count is the number of its shows starting strictly after `now`. */
  function VenueEntry(v: Venue, shows: seq<Show>, now: Timestamp): (e: Entry)
    ensures e.id == v.id && e.name == v.name
    ensures e.numUpcomingShows == |Query(shows, AtVenue(v.id), now + 1, true)|
  {
    UpcomingCountIsStrict(shows, AtVenue(v.id), now);
    Entry(v.id, v.name, CalculateUpcomingPastShows(Related(shows, AtVenue(v.id)), now, true))
  }

  /** The entry of one artist, counting `artist.artist_shows`: its upcoming
      count is the number of its shows starting strictly after `now`. */
  function ArtistEntry(a: Artist, shows: seq<Show>, now: Timestamp): (e: Entry)
    ensures e.id == a.id && e.name == a.name
    ensures e.numUpcomingShows == |Query(shows, OfArtist(a.id), now + 1, true)|
  {
    UpcomingCountIsStrict(shows, OfArtist(a.id), now);
    Entry(a.id, a.name, CalculateUpcomingPastShows(Related(shows, OfArtist(a.id)), now, true))
  }

  /** The entries the result loop builds, one per venue, in order. */
  function VenueEntries(venues: seq<Venue>, shows: seq<Show>, now: Timestamp): (r: seq<Entry>)
    ensures |r| == |venues|
    ensures forall i :: 0 <= i < |venues| ==> r[i] == VenueEntry(venues[i], shows, now)
  {
    if |venues| == 0 then []
    else VenueEntries(venues[..|venues| - 1], shows, now) + [VenueEntry(venues[|venues| - 1], shows, now)]
  }

  /** The entries the result loop builds, one per artist, in order. */
  function ArtistEntries(artists: seq<Artist>, shows: seq<Show>, now: Timestamp): (r: seq<Entry>)
    ensures |r| == |artists|
    ensures forall i :: 0 <= i < |artists| ==> r[i] == ArtistEntry(artists[i], shows, now)
  {
    if |artists| == 0 then []
    else ArtistEntries(artists[..|artists| - 1], shows, now) + [ArtistEntry(artists[|artists| - 1], shows, now)]
  }
}
