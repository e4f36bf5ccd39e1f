/** The directory's database as one object: the three tables in their
    natural order and the id sequences, with the request handlers as
    methods. Each write handler is one atomic transition: it either takes
    full effect or leaves every table as it was (the rollback). */
module Directory {
  import opened Records
  import opened Shows
  import opened Availability
  import opened Genres
  import opened Search
  import opened Edits

  /** The fields `create_venue_submission` reads. `genres` is `None` when the
      form carries no genre at all, which makes `form_data['genres']` fail. */
  datatype VenueForm = VenueForm(
    name: string, city: string, state: string, address: string, phone: string,
    genres: Option<seq<string>>, imageLink: string, seekingDescription: string, facebookLink: string)

  /** The fields `create_artist_submission` reads; an empty availability
      field arrives as `None`. */
  datatype ArtistForm = ArtistForm(
    name: string, city: string, state: string, phone: string, genres: Option<seq<string>>,
    imageLink: string, facebookLink: string, seekingDescription: string,
    availableFrom: Option<Timestamp>, availableTo: Option<Timestamp>)

  /** The row a complete venue form inserts: `seeking_talent` takes its
      default and `website` stays NULL. */
  function NewVenue(id: nat, form: VenueForm): (v: Venue)
    requires form.genres.Some?
    ensures v.id == id && v.name == Some(form.name) && v.city == Some(form.city) && v.state == Some(form.state)
    ensures !v.seekingTalent && v.website.None?
    ensures v.genres == Some(Encode(form.genres.value))
  {
    Venue(id, Some(form.name), Some(form.city), Some(form.state), Some(form.address), Some(form.phone),
          Some(form.imageLink), Some(form.facebookLink), false, Some(Encode(form.genres.value)),
          Some(form.seekingDescription), None)
  }

  /** The row a complete artist form inserts. The window is stored only when
      both ends are given; a single end is dropped. */
  function NewArtist(id: nat, form: ArtistForm): (a: Artist)
    requires form.genres.Some?
    ensures a.id == id && a.name == Some(form.name) && a.genres == Some(Encode(form.genres.value))
    ensures a.availableFrom.Some? <==> a.availableTo.Some?
    ensures a.availableFrom.Some? <==> form.availableFrom.Some? && form.availableTo.Some?
    ensures a.availableFrom.Some? ==> a.availableFrom == form.availableFrom && a.availableTo == form.availableTo
  {
    var both := form.availableFrom.Some? && form.availableTo.Some?;
    Artist(id, Some(form.name), Some(form.city), Some(form.state), Some(form.phone),
           Some(Encode(form.genres.value)), Some(form.imageLink), Some(form.facebookLink), None, false,
           Some(form.seekingDescription),
           if both then form.availableFrom else None,
           if both then form.availableTo else None)
  }

  /** The venue table after `DELETE FROM Venue WHERE id = id`. */
  function WithoutVenue(venues: seq<Venue>, id: nat): (r: seq<Venue>)
    ensures forall v :: v in r <==> v in venues && v.id != id
    ensures UniqueVenueIds(venues) ==> UniqueVenueIds(r)
  {
    if |venues| == 0 then []
    else
      var init := venues[..|venues| - 1];
      var last := venues[|venues| - 1];
      assert venues == init + [last];
      if last.id == id then WithoutVenue(init, id) else WithoutVenue(init, id) + [last]
  }

  /** The show table after the cascade: the shows at other venues, in order. */
  function ShowsElsewhere(shows: seq<Show>, venueId: nat): (r: seq<Show>)
    ensures forall s :: s in r <==> s in shows && s.venueId != venueId
    ensures UniqueShowIds(shows) ==> UniqueShowIds(r)
  {
    if |shows| == 0 then []
    else
      var init := shows[..|shows| - 1];
      var last := shows[|shows| - 1];
      assert shows == init + [last];
      if last.venueId == venueId then ShowsElsewhere(init, venueId) else ShowsElsewhere(init, venueId) + [last]
  }

  /** The cascade removes exactly the venue's shows: what is left and what
      was at the venue add up to the whole table. */
  lemma {:induction false} CascadeRemovesVenueShows(shows: seq<Show>, venueId: nat)
    ensures |ShowsElsewhere(shows, venueId)| + |Related(shows, AtVenue(venueId))| == |shows|
  {
    if |shows| > 0 {
      CascadeRemovesVenueShows(shows[..|shows| - 1], venueId);
    }
  }

  /** Deleting an id no venue has leaves the venue table as it was. */
  lemma DeleteMissingVenueKeepsVenues(venues: seq<Venue>, id: nat)
    requires id !in VenueIds(venues)
    ensures WithoutVenue(venues, id) == venues
  {
    forall i | 0 <= i < |venues| ensures venues[i].id != id {
      assert venues[i] in venues;
    }
    NoVenueWithId(venues, id);
  }

  /** Deleting an id no row has removes nothing. */
  lemma {:induction false} NoVenueWithId(venues: seq<Venue>, id: nat)
    requires forall i :: 0 <= i < |venues| ==> venues[i].id != id
    ensures WithoutVenue(venues, id) == venues
  {
    if |venues| > 0 {
      var init := venues[..|venues| - 1];
      var last := venues[|venues| - 1];
      NoVenueWithId(init, id);
      assert WithoutVenue(venues, id) == WithoutVenue(init, id) + [last];
      assert venues == init + [last];
    }
  }

  /** With the foreign keys holding, no show points at an id no venue has,
      so the cascade of such a delete removes no show. */
  lemma DeleteMissingVenueKeepsShows(artists: seq<Artist>, venues: seq<Venue>, shows: seq<Show>, id: nat)
    requires id !in VenueIds(venues) && AllResolve(artists, venues, shows)
    ensures ShowsElsewhere(shows, id) == shows
  {
    forall i | 0 <= i < |shows| ensures shows[i].venueId != id {
      assert shows[i] in shows;
    }
    NoShowAtVenue(shows, id);
  }

  /** The cascade of a venue no show points at removes nothing. */
  lemma {:induction false} NoShowAtVenue(shows: seq<Show>, id: nat)
    requires forall i :: 0 <= i < |shows| ==> shows[i].venueId != id
    ensures ShowsElsewhere(shows, id) == shows
  {
    if |shows| > 0 {
      var init := shows[..|shows| - 1];
      var last := shows[|shows| - 1];
      NoShowAtVenue(init, id);
      assert ShowsElsewhere(shows, id) == ShowsElsewhere(init, id) + [last];
      assert shows == init + [last];
    }
  }

  /** One group of the venue listing. */
  datatype Area = Area(state: Option<string>, city: Option<string>, venues: seq<Entry>)

  /** `query(Venue).filter_by(state = state).filter_by(city = city).all()` */
  function VenuesIn(venues: seq<Venue>, state: Option<string>, city: Option<string>): (r: seq<Venue>)
    ensures forall v :: v in r <==> v in venues && v.state == state && v.city == city
  {
    if |venues| == 0 then []
    else
      var init := venues[..|venues| - 1];
      var last := venues[|venues| - 1];
      assert venues == init + [last];
      if last.state == state && last.city == city then VenuesIn(init, state, city) + [last] else VenuesIn(init, state, city)
  }

  /** A (state, city) pair: the grouping key of the venue listing. */
  type AreaKey = (Option<string>, Option<string>)

  function KeyOf(v: Venue): AreaKey
  {
    (v.state, v.city)
  }

  /** The pairs some venue has. */
  function VenueKeys(venues: seq<Venue>): set<AreaKey>
  {
    set v | v in venues :: KeyOf(v)
  }

  /** The pairs the listing has groups for. */
  function AreaKeySet(areas: seq<Area>): set<AreaKey>
  {
    set a | a in areas :: (a.state, a.city)
  }

  /** `query(Venue.state, Venue.city).group_by(Venue.state, Venue.city)`:
      every pair once, here in order of first appearance. */
  function AreaKeys(venues: seq<Venue>): (r: seq<AreaKey>)
    ensures forall i, j :: 0 <= i < j < |r| ==> r[i] != r[j]
    ensures forall q :: q in r <==> q in VenueKeys(venues)
  {
    if |venues| == 0 then []
    else
      var init := venues[..|venues| - 1];
      var last := venues[|venues| - 1];
      assert venues == init + [last];
      var ks := AreaKeys(init);
      assert forall q :: q in VenueKeys(venues) <==> q in VenueKeys(init) || q == KeyOf(last);
      if KeyOf(last) in ks then ks else ks + [KeyOf(last)]
  }

  /** What the venue listing promises: one group per distinct (state, city)
      pair that some venue has, and each group lists, in table order, the
      venues with that pair. */
  ghost predicate GroupedByArea(areas: seq<Area>, venues: seq<Venue>, shows: seq<Show>, now: Timestamp)
  {
    && (forall i, j :: 0 <= i < j < |areas| ==> (areas[i].state, areas[i].city) != (areas[j].state, areas[j].city))
    && (forall k :: 0 <= k < |areas| ==>
          areas[k].venues == VenueEntries(VenuesIn(venues, areas[k].state, areas[k].city), shows, now))
    && AreaKeySet(areas) == VenueKeys(venues)
  }

  lemma EntryInEntries(ws: seq<Venue>, shows: seq<Show>, now: Timestamp, v: Venue)
    requires v in ws
    ensures VenueEntry(v, shows, now) in VenueEntries(ws, shows, now)
  {
    var i :| 0 <= i < |ws| && ws[i] == v;
    assert VenueEntries(ws, shows, now)[i] == VenueEntry(v, shows, now);
  }

  /** Entries carry the venue's id, so among venues with unique ids an entry
      names its venue. */
  lemma EntryNamesVenue(ws: seq<Venue>, venues: seq<Venue>, shows: seq<Show>, now: Timestamp, v: Venue)
    requires UniqueVenueIds(venues) && v in venues && forall w :: w in ws ==> w in venues
    requires VenueEntry(v, shows, now) in VenueEntries(ws, shows, now)
    ensures v in ws
  {
    var es := VenueEntries(ws, shows, now);
    var i :| 0 <= i < |es| && es[i] == VenueEntry(v, shows, now);
    var w := ws[i];
    assert w in ws && w.id == v.id;
    var x :| 0 <= x < |venues| && venues[x] == w;
    var y :| 0 <= y < |venues| && venues[y] == v;
    assert x == y;
  }

  /** A venue is listed in the group of its own state and city. */
  lemma VenueListedInItsArea(areas: seq<Area>, venues: seq<Venue>, shows: seq<Show>, now: Timestamp, v: Venue)
    requires GroupedByArea(areas, venues, shows, now) && v in venues
    ensures exists k :: 0 <= k < |areas| && areas[k].state == v.state && areas[k].city == v.city
              && VenueEntry(v, shows, now) in areas[k].venues
  {
    assert KeyOf(v) in VenueKeys(venues);
    assert KeyOf(v) in AreaKeySet(areas);
    var a :| a in areas && (a.state, a.city) == KeyOf(v);
    var k :| 0 <= k < |areas| && areas[k] == a;
    var members := VenuesIn(venues, v.state, v.city);
    assert areas[k].venues == VenueEntries(members, shows, now);
    EntryInEntries(members, shows, now, v);
  }

  /** A group that lists a venue has that venue's state and city. */
  lemma AreaListingVenue(areas: seq<Area>, venues: seq<Venue>, shows: seq<Show>, now: Timestamp, v: Venue, k: nat)
    requires GroupedByArea(areas, venues, shows, now) && UniqueVenueIds(venues) && v in venues
    requires k < |areas| && VenueEntry(v, shows, now) in areas[k].venues
    ensures areas[k].state == v.state && areas[k].city == v.city
  {
    var members := VenuesIn(venues, areas[k].state, areas[k].city);
    assert areas[k].venues == VenueEntries(members, shows, now);
    EntryNamesVenue(members, venues, shows, now, v);
  }

  /** Every venue is listed in exactly one group: the one whose state and
      city are its own. */
  lemma EachVenueInOneArea(areas: seq<Area>, venues: seq<Venue>, shows: seq<Show>, now: Timestamp, v: Venue)
    requires GroupedByArea(areas, venues, shows, now) && UniqueVenueIds(venues) && v in venues
    ensures exists k :: 0 <= k < |areas| && areas[k].state == v.state && areas[k].city == v.city
              && VenueEntry(v, shows, now) in areas[k].venues
    ensures forall k, k' :: 0 <= k < k' < |areas|
              ==> !(VenueEntry(v, shows, now) in areas[k].venues && VenueEntry(v, shows, now) in areas[k'].venues)
  {
    VenueListedInItsArea(areas, venues, shows, now, v);
    forall k, k' | 0 <= k < k' < |areas|
      ensures !(VenueEntry(v, shows, now) in areas[k].venues && VenueEntry(v, shows, now) in areas[k'].venues)
    {
      if VenueEntry(v, shows, now) in areas[k].venues && VenueEntry(v, shows, now) in areas[k'].venues {
        AreaListingVenue(areas, venues, shows, now, v, k);
        AreaListingVenue(areas, venues, shows, now, v, k');
      }
    }
  }

  /** The group of one (state, city) pair: the entries of its venues. */
  function AreaOf(venues: seq<Venue>, shows: seq<Show>, now: Timestamp, key: AreaKey): Area
  {
    Area(key.0, key.1, VenueEntries(VenuesIn(venues, key.0, key.1), shows, now))
  }

  /** One group per key, in key order, makes the listing grouped when the
      keys are the distinct pairs of the venues. */
  lemma KeysMakeGroups(keys: seq<AreaKey>, areas: seq<Area>, venues: seq<Venue>, shows: seq<Show>, now: Timestamp)
    requires forall i, j :: 0 <= i < j < |keys| ==> keys[i] != keys[j]
    requires forall q :: q in keys <==> q in VenueKeys(venues)
    requires |areas| == |keys|
    requires forall j :: 0 <= j < |keys| ==> areas[j] == AreaOf(venues, shows, now, keys[j])
    ensures GroupedByArea(areas, venues, shows, now)
  {
    forall q | q in AreaKeySet(areas) ensures q in VenueKeys(venues) {
      var a :| a in areas && (a.state, a.city) == q;
      var k :| 0 <= k < |areas| && areas[k] == a;
      assert keys[k] == q;
    }
    forall q | q in VenueKeys(venues) ensures q in AreaKeySet(areas) {
      var k :| 0 <= k < |keys| && keys[k] == q;
      assert areas[k] in areas;
    }
  }

  class Store {
    var venues: seq<Venue>
    var artists: seq<Artist>
    var shows: seq<Show>
    var nextVenueId: nat
    var nextArtistId: nat
    var nextShowId: nat

    /** The database's own guarantees: primary keys are unique and below the
        next value of their sequence, and every show's foreign keys resolve. */
    ghost predicate Valid()
      reads this
    {
      && UniqueVenueIds(venues) && UniqueArtistIds(artists) && UniqueShowIds(shows)
      && (forall v :: v in venues ==> v.id < nextVenueId)
      && (forall a :: a in artists ==> a.id < nextArtistId)
      && (forall s :: s in shows ==> s.id < nextShowId)
      && AllResolve(artists, venues, shows)
    }

    constructor ()
      ensures Valid()
      ensures venues == [] && artists == [] && shows == []
    {
      venues, artists, shows := [], [], [];
      nextVenueId, nextArtistId, nextShowId := 1, 1, 1;
    }

    /** `create_venue_submission` */
    method CreateVenue(form: VenueForm) returns (id: Option<nat>)
      requires Valid()
      modifies this
      ensures Valid()
      ensures artists == old(artists) && shows == old(shows)
      ensures form.genres.None? ==> id.None? && venues == old(venues) && nextVenueId == old(nextVenueId)
      ensures form.genres.Some? ==>
                && id == Some(old(nextVenueId))
                && venues == old(venues) + [NewVenue(old(nextVenueId), form)]
                && nextVenueId == old(nextVenueId) + 1
      ensures nextArtistId == old(nextArtistId) && nextShowId == old(nextShowId)
    {
      if form.genres.None? {
        return None;
      }
      var v := NewVenue(nextVenueId, form);
      assert v.id !in VenueIds(venues);
      venues := venues + [v];
      id := Some(nextVenueId);
      nextVenueId := nextVenueId + 1;
      assert VenueIds(old(venues)) <= VenueIds(venues) by {
        forall x | x in VenueIds(old(venues)) ensures x in VenueIds(venues) {
          var w :| w in old(venues) && w.id == x;
          assert w in venues;
        }
      }
    }

    /** `create_artist_submission` */
    method CreateArtist(form: ArtistForm) returns (id: Option<nat>)
      requires Valid()
      modifies this
      ensures Valid()
      ensures venues == old(venues) && shows == old(shows)
      ensures form.genres.None? ==> id.None? && artists == old(artists) && nextArtistId == old(nextArtistId)
      ensures form.genres.Some? ==>
                && id == Some(old(nextArtistId))
                && artists == old(artists) + [NewArtist(old(nextArtistId), form)]
                && nextArtistId == old(nextArtistId) + 1
      ensures nextVenueId == old(nextVenueId) && nextShowId == old(nextShowId)
    {
      if form.genres.None? {
        return None;
      }
      var a := NewArtist(nextArtistId, form);
      artists := artists + [a];
      id := Some(nextArtistId);
      nextArtistId := nextArtistId + 1;
      assert ArtistIds(old(artists)) <= ArtistIds(artists) by {
        forall x | x in ArtistIds(old(artists)) ensures x in ArtistIds(artists) {
          var w :| w in old(artists) && w.id == x;
          assert w in artists;
        }
      }
    }

    /** `create_show_submission`: the show is inserted exactly when the
        booking is accepted; a refused booking leaves every table as it was,
        and one the venue's foreign key refuses still uses up a show id. */
    method CreateShow(artistId: nat, venueId: nat, start: Option<Timestamp>) returns (outcome: Outcome)
      requires Valid()
      modifies this
      ensures Valid()
      ensures outcome == CheckBooking(old(artists), old(venues), artistId, venueId, start)
      ensures outcome.Accepted? ==>
                && shows == old(shows) + [Show(old(nextShowId), artistId, venueId, start.value)]
                && nextShowId == old(nextShowId) + 1
      ensures outcome.Rejected? ==> shows == old(shows)
      ensures outcome == Rejected(UnknownVenue) ==> nextShowId == old(nextShowId) + 1
      ensures outcome.Rejected? && outcome != Rejected(UnknownVenue) ==> nextShowId == old(nextShowId)
      ensures venues == old(venues) && artists == old(artists)
      ensures nextVenueId == old(nextVenueId) && nextArtistId == old(nextArtistId)
    {
      outcome := CheckBooking(artists, venues, artistId, venueId, start);
      if outcome.Accepted? {
        shows := shows + [Show(nextShowId, artistId, venueId, start.value)];
        nextShowId := nextShowId + 1;
      } else if outcome == Rejected(UnknownVenue) {
        // The insert drew its id before the foreign key refused it, and a
        // rolled-back sequence value is not handed out again.
        nextShowId := nextShowId + 1;
      }
    }

    /** `delete_venue`: the venue and, by the cascade, its shows go; nothing
        else changes. */
    method DeleteVenue(id: nat)
      requires Valid()
      modifies this
      ensures Valid()
      ensures venues == WithoutVenue(old(venues), id)
      ensures shows == ShowsElsewhere(old(shows), id)
      ensures id !in VenueIds(old(venues)) ==> venues == old(venues) && shows == old(shows)
      ensures artists == old(artists)
      ensures nextVenueId == old(nextVenueId) && nextArtistId == old(nextArtistId) && nextShowId == old(nextShowId)
    {
      ghost var before := venues;
      if id !in VenueIds(venues) {
        DeleteMissingVenueKeepsVenues(venues, id);
        DeleteMissingVenueKeepsShows(artists, venues, shows, id);
      }
      venues := WithoutVenue(venues, id);
      shows := ShowsElsewhere(shows, id);
      forall s | s in shows ensures s.venueId in VenueIds(venues) {
        var w := FindVenue(before, s.venueId).value;
        assert w in venues;
      }
    }

    /** `edit_artist_submission`. A form without genres fails on
        `form_data['genres']` before anything is written. */
    method EditArtist(id: nat, fields: map<ArtistColumn, string>, genres: Option<seq<string>>)
      requires Valid()
      modifies this
      ensures Valid()
      ensures genres.None? ==> artists == old(artists)
      ensures genres.Some? ==>
                artists == UpdateArtistRows(old(artists), id, NonEmptyValues(fields[ArtistColumn.Genres := Encode(genres.value)]))
      ensures venues == old(venues) && shows == old(shows)
      ensures nextVenueId == old(nextVenueId) && nextArtistId == old(nextArtistId) && nextShowId == old(nextShowId)
    {
      if genres.None? {
        return;
      }
      var form := fields[ArtistColumn.Genres := Encode(genres.value)];
      var valid := CollectValidKeys(form);
      UpdateArtistRowsKeepsIds(artists, id, valid);
      artists := UpdateArtistRows(artists, id, valid);
    }

    /** `edit_venue_submission`: every submitted field is written. */
    method EditVenue(id: nat, fields: map<VenueColumn, string>, genres: Option<seq<string>>)
      requires Valid()
      modifies this
      ensures Valid()
      ensures genres.None? ==> venues == old(venues)
      ensures genres.Some? ==>
                venues == UpdateVenueRows(old(venues), id, fields[VenueColumn.Genres := Encode(genres.value)])
      ensures artists == old(artists) && shows == old(shows)
      ensures nextVenueId == old(nextVenueId) && nextArtistId == old(nextArtistId) && nextShowId == old(nextShowId)
    {
      if genres.None? {
        return;
      }
      var form := fields[VenueColumn.Genres := Encode(genres.value)];
      UpdateVenueRowsKeepsIds(venues, id, form);
      venues := UpdateVenueRows(venues, id, form);
    }

    /** One projection loop of `get_past_upcoming_shows`. */
    method ProjectEach(ss: seq<Show>, p: Perspective) returns (records: seq<ShowRecord>)
      requires AllResolve(artists, venues, ss)
      ensures records == ProjectAll(artists, venues, p, ss)
    {
      records := [];
      for i := 0 to |ss|
        invariant records == ProjectAll(artists, venues, p, ss[..i])
      {
        assert ss[..i + 1][..i] == ss[..i];
        records := records + [Project(artists, venues, p, ss[i])];
      }
      assert ss[..|ss|] == ss;
    }

    /** `get_past_upcoming_shows`: the two queries, then one loop per list
        projecting each show into its display record. */
    method PastUpcomingShows(f: ShowFilter, p: Perspective, now: Timestamp)
      returns (past: seq<ShowRecord>, upcoming: seq<ShowRecord>)
      requires Valid()
      ensures past == ProjectAll(artists, venues, p, Query(shows, f, now, false))
      ensures upcoming == ProjectAll(artists, venues, p, Query(shows, f, now, true))
      ensures |past| + |upcoming| == |Related(shows, f)|
      ensures forall i :: 0 <= i < |past| ==> past[i].startTime < now && (past[i].ArtistSlot? <==> p == ArtistView)
      ensures forall i :: 0 <= i < |upcoming| ==> upcoming[i].startTime >= now && (upcoming[i].ArtistSlot? <==> p == ArtistView)
    {
      ProjectedQuery(artists, venues, p, shows, f, now, false);
      ProjectedQuery(artists, venues, p, shows, f, now, true);
      PartitionIsExact(shows, f, now);
      past := ProjectEach(Query(shows, f, now, false), p);
      upcoming := ProjectEach(Query(shows, f, now, true), p);
    }

    /** The loop that builds one entry per venue, shared by `search_venues`
        and `venues`. */
    method VenueEntriesOf(found: seq<Venue>, now: Timestamp) returns (data: seq<Entry>)
      ensures data == VenueEntries(found, shows, now)
    {
      data := [];
      for i := 0 to |found|
        invariant data == VenueEntries(found[..i], shows, now)
      {
        assert found[..i + 1][..i] == found[..i];
        data := data + [VenueEntry(found[i], shows, now)];
      }
      assert found[..|found|] == found;
    }

    /** `search_venues` */
    method SearchVenues(searchTerm: string, cityStateText: string, now: Timestamp) returns (r: SearchResponse)
      ensures r.count == |r.data|
      ensures r.data == VenueEntries(MatchingVenues(venues, ChooseClause(searchTerm, cityStateText)), shows, now)
    {
      var found := MatchingVenues(venues, ChooseClause(searchTerm, cityStateText));
      var data := VenueEntriesOf(found, now);
      r := SearchResponse(|found|, data);
    }

    /** `search_artists` */
    method SearchArtists(searchTerm: string, cityStateText: string, now: Timestamp) returns (r: SearchResponse)
      ensures r.count == |r.data|
      ensures r.data == ArtistEntries(MatchingArtists(artists, ChooseClause(searchTerm, cityStateText)), shows, now)
    {
      var found := MatchingArtists(artists, ChooseClause(searchTerm, cityStateText));
      var data := ArtistEntriesOf(found, now);
      r := SearchResponse(|found|, data);
    }

    /** The result loop of `search_artists`: one entry per artist found. */
    method ArtistEntriesOf(found: seq<Artist>, now: Timestamp) returns (data: seq<Entry>)
      ensures data == ArtistEntries(found, shows, now)
    {
      data := [];
      for i := 0 to |found|
        invariant data == ArtistEntries(found[..i], shows, now)
      {
        assert found[..i + 1][..i] == found[..i];
        data := data + [ArtistEntry(found[i], shows, now)];
      }
      assert found[..|found|] == found;
    }

    /** `venues`: for each (state, city) pair the grouping query returns,
        the query of its venues and the loop building their entries. */
    method GroupVenues(now: Timestamp) returns (areas: seq<Area>)
      ensures GroupedByArea(areas, venues, shows, now)
      ensures |areas| == |AreaKeys(venues)|
      ensures forall k :: 0 <= k < |areas| ==> (areas[k].state, areas[k].city) == AreaKeys(venues)[k]
    {
      var keys := AreaKeys(venues);
      areas := [];
      for k := 0 to |keys|
        invariant |areas| == k
        invariant forall j :: 0 <= j < k ==> areas[j] == AreaOf(venues, shows, now, keys[j])
      {
        var data := VenueEntriesOf(VenuesIn(venues, keys[k].0, keys[k].1), now);
        areas := areas + [Area(keys[k].0, keys[k].1, data)];
      }
      KeysMakeGroups(keys, areas, venues, shows, now);
    }
  }
}
