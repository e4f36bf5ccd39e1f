/** Show aggregation: the past/upcoming split of one artist's or one venue's
    shows (`get_past_upcoming_shows`), the display record each show becomes,
    and the upcoming-show counter (`calculate_upcoming_past_shows`). The
    clock is the parameter `now`, read once per call. */
module Shows {
  import opened Records

  /** The `where_clause`: the shows of one artist or the shows at one venue. */
  datatype ShowFilter = OfArtist(artistId: nat) | AtVenue(venueId: nat)

  predicate Selects(f: ShowFilter, s: Show)
  {
    match f
    case OfArtist(id) => s.artistId == id
    case AtVenue(id) => s.venueId == id
  }

  /** The partition test: a show is upcoming from the instant it starts. */
  predicate InPeriod(s: Show, now: Timestamp, upcoming: bool)
  {
    if upcoming then s.startTime >= now else s.startTime < now
  }

  /** The relationship list `artist.artist_shows` / `venue.venue_shows`:
      the shows the filter selects, in table order. */
  function Related(shows: seq<Show>, f: ShowFilter): (r: seq<Show>)
    ensures |r| <= |shows|
    ensures forall s :: s in r <==> s in shows && Selects(f, s)
  {
    if |shows| == 0 then []
    else
      var init := shows[..|shows| - 1];
      var last := shows[|shows| - 1];
      assert shows == init + [last];
      if Selects(f, last) then Related(init, f) + [last] else Related(init, f)
  }

  /** `query(Show).filter(where_clause).filter(Show.start_time < now)` for the
      past list, `>= now` for the upcoming list, in table order. */
  function Query(shows: seq<Show>, f: ShowFilter, now: Timestamp, upcoming: bool): (r: seq<Show>)
    ensures |r| <= |shows|
    ensures forall s :: s in r <==> s in shows && Selects(f, s) && InPeriod(s, now, upcoming)
  {
    if |shows| == 0 then []
    else
      var init := shows[..|shows| - 1];
      var last := shows[|shows| - 1];
      assert shows == init + [last];
      if Selects(f, last) && InPeriod(last, now, upcoming)
      then Query(init, f, now, upcoming) + [last]
      else Query(init, f, now, upcoming)
  }

  /** The two lists split the filtered shows: every selected show lands in
      exactly one of them, the boundary `start == now` in the upcoming one,
      and the two counts add up to the number of selected shows. */
  lemma {:induction false} PartitionIsExact(shows: seq<Show>, f: ShowFilter, now: Timestamp)
    ensures |Query(shows, f, now, false)| + |Query(shows, f, now, true)| == |Related(shows, f)|
    ensures forall s :: s in Related(shows, f) ==>
              (s in Query(shows, f, now, true) <==> s !in Query(shows, f, now, false))
    ensures forall s :: s in Related(shows, f) && s.startTime == now ==> s in Query(shows, f, now, true)
  {
    if |shows| > 0 {
      PartitionIsExact(shows[..|shows| - 1], f, now);
    }
  }

  /** `'artist'` on a venue's page, `'venue'` on an artist's page. */
  datatype Perspective = ArtistView | VenueView

  /** The display record of one show: its start time and the id, name and
      image link of the counterpart entity. */
  datatype ShowRecord =
    | ArtistSlot(startTime: Timestamp, artistId: nat, artistName: Option<string>, artistImageLink: Option<string>)
    | VenueSlot(startTime: Timestamp, venueId: nat, venueName: Option<string>, venueImageLink: Option<string>)

  /** The show's artist and venue rows exist (the foreign keys hold). */
  predicate Resolves(artists: seq<Artist>, venues: seq<Venue>, s: Show)
  {
    s.artistId in ArtistIds(artists) && s.venueId in VenueIds(venues)
  }

  /** One iteration of the projection loops: the show joined with the row it
      points at, `show.Artist` or `show.Venue`. */
  function Project(artists: seq<Artist>, venues: seq<Venue>, p: Perspective, s: Show): (r: ShowRecord)
    requires Resolves(artists, venues, s)
    ensures r.startTime == s.startTime
    ensures p == ArtistView <==> r.ArtistSlot?
    ensures r.ArtistSlot? ==>
              && r.artistId == s.artistId
              && exists a :: a in artists && a.id == s.artistId && r.artistName == a.name && r.artistImageLink == a.imageLink
    ensures r.VenueSlot? ==>
              && r.venueId == s.venueId
              && exists v :: v in venues && v.id == s.venueId && r.venueName == v.name && r.venueImageLink == v.imageLink
  {
    match p
    case ArtistView =>
      var a := FindArtist(artists, s.artistId).value;
      ArtistSlot(s.startTime, s.artistId, a.name, a.imageLink)
    case VenueView =>
      var v := FindVenue(venues, s.venueId).value;
      VenueSlot(s.startTime, s.venueId, v.name, v.imageLink)
  }

  predicate AllResolve(artists: seq<Artist>, venues: seq<Venue>, ss: seq<Show>)
  {
    forall s :: s in ss ==> Resolves(artists, venues, s)
  }

  /** The list the projection loop builds: one record per show, in order. */
  function ProjectAll(artists: seq<Artist>, venues: seq<Venue>, p: Perspective, ss: seq<Show>): (r: seq<ShowRecord>)
    requires AllResolve(artists, venues, ss)
    ensures |r| == |ss|
  {
    if |ss| == 0 then []
    else
      assert ss[|ss| - 1] in ss;
      ProjectAll(artists, venues, p, ss[..|ss| - 1]) + [Project(artists, venues, p, ss[|ss| - 1])]
  }

  lemma {:induction false} ProjectAllAt(artists: seq<Artist>, venues: seq<Venue>, p: Perspective, ss: seq<Show>, i: nat)
    requires AllResolve(artists, venues, ss) && i < |ss|
    ensures ProjectAll(artists, venues, p, ss)[i] == Project(artists, venues, p, ss[i])
  {
    if i < |ss| - 1 {
      ProjectAllAt(artists, venues, p, ss[..|ss| - 1], i);
    }
  }

  /** Each record the projection of a query builds keeps its show's period
      and has the slot kind of the perspective. */
  lemma ProjectedQuery(artists: seq<Artist>, venues: seq<Venue>, p: Perspective, shows: seq<Show>,
                       f: ShowFilter, now: Timestamp, upcoming: bool)
    requires AllResolve(artists, venues, shows)
    ensures AllResolve(artists, venues, Query(shows, f, now, upcoming))
    ensures var rs := ProjectAll(artists, venues, p, Query(shows, f, now, upcoming));
            forall i :: 0 <= i < |rs| ==> (rs[i].startTime >= now <==> upcoming) && (rs[i].ArtistSlot? <==> p == ArtistView)
  {
    var q := Query(shows, f, now, upcoming);
    var rs := ProjectAll(artists, venues, p, q);
    forall i | 0 <= i < |rs| ensures (rs[i].startTime >= now <==> upcoming) && (rs[i].ArtistSlot? <==> p == ArtistView) {
      ProjectAllAt(artists, venues, p, q, i);
      assert q[i] in q;
    }
  }

  /** Where a show stands relative to `now`. */
  datatype Moment = Before | At | After

  function MomentOf(s: Show, now: Timestamp): Moment
  {
    if s.startTime < now then Before else if s.startTime == now then At else After
  }

  /** `sum([1 for show in shows if <test>])`: how many shows stand at the
      given moment relative to `now`. */
  function CountAt(shows: seq<Show>, now: Timestamp, m: Moment): (n: nat)
    ensures n <= |shows|
  {
    if |shows| == 0 then 0
    else CountAt(shows[..|shows| - 1], now, m) + (if MomentOf(shows[|shows| - 1], now) == m then 1 else 0)
  }

  /** Every show stands at exactly one moment. */
  lemma {:induction false} MomentsCoverAll(shows: seq<Show>, now: Timestamp)
    ensures CountAt(shows, now, Before) + CountAt(shows, now, At) + CountAt(shows, now, After) == |shows|
  {
    if |shows| > 0 {
      MomentsCoverAll(shows[..|shows| - 1], now);
    }
  }

  /** The counts agree with the partition: the past list holds the shows
      before `now`, the upcoming list those at or after it. */
  lemma {:induction false} CountsMatchPartition(shows: seq<Show>, f: ShowFilter, now: Timestamp)
    ensures CountAt(Related(shows, f), now, Before) == |Query(shows, f, now, false)|
    ensures CountAt(Related(shows, f), now, At) + CountAt(Related(shows, f), now, After)
            == |Query(shows, f, now, true)|
  {
    if |shows| > 0 {
      var init := shows[..|shows| - 1];
      var last := shows[|shows| - 1];
      CountsMatchPartition(init, f, now);
      if Selects(f, last) {
        assert Related(shows, f) == Related(init, f) + [last];
        CountAtSnoc(Related(init, f), last, now, Before);
        CountAtSnoc(Related(init, f), last, now, At);
        CountAtSnoc(Related(init, f), last, now, After);
      }
    }
  }

  lemma CountAtSnoc(ss: seq<Show>, x: Show, now: Timestamp, m: Moment)
    ensures CountAt(ss + [x], now, m) == CountAt(ss, now, m) + (if MomentOf(x, now) == m then 1 else 0)
  {
    assert (ss + [x])[..|ss|] == ss;
  }

  /** The shows counted after `now` are exactly the selected shows starting
      strictly after it: the upcoming list taken one instant later. */
  lemma {:induction false} CountAfterIsStrictQuery(shows: seq<Show>, f: ShowFilter, now: Timestamp)
    ensures CountAt(Related(shows, f), now, After) == |Query(shows, f, now + 1, true)|
  {
    if |shows| > 0 {
      var init := shows[..|shows| - 1];
      var last := shows[|shows| - 1];
      CountAfterIsStrictQuery(init, f, now);
      if Selects(f, last) {
        assert Related(shows, f) == Related(init, f) + [last];
        CountAtSnoc(Related(init, f), last, now, After);
      }
    }
  }

  /** `calculate_upcoming_past_shows(shows, for_upcoming)` as written: both
      branches count the shows that start strictly after `now`. */
  function CalculateUpcomingPastShows(shows: seq<Show>, now: Timestamp, forUpcoming: bool): (n: nat)
    ensures n <= |shows|
  {
    if forUpcoming then CountAt(shows, now, After) else CountAt(shows, now, After)
  }

  /** The past branch returns the upcoming count whatever the shows are, so
      one past show and nothing else is reported as no past show. */
  lemma PastBranchCountsUpcoming(shows: seq<Show>, now: Timestamp)
    ensures CalculateUpcomingPastShows(shows, now, false) == CalculateUpcomingPastShows(shows, now, true)
    ensures var one := [Show(1, 1, 1, now - 1)];
            CalculateUpcomingPastShows(one, now, false) == 0 && |Query(one, AtVenue(1), now, false)| == 1
  {
    var one := [Show(1, 1, 1, now - 1)];
    assert one[..0] == [];
    assert Query(one, AtVenue(1), now, false) == [one[0]];
  }

  /** The counter with the past branch counting the shows that start before
      `now`, as the partition does. */
  function CalculateUpcomingPastShowsFixed(shows: seq<Show>, now: Timestamp, forUpcoming: bool): (n: nat)
    ensures n <= |shows|
  {
    if forUpcoming then CountAt(shows, now, After) else CountAt(shows, now, Before)
  }

  /** Both counters count the same upcoming shows: the selected shows that
      start strictly after `now`. */
  lemma UpcomingCountIsStrict(shows: seq<Show>, f: ShowFilter, now: Timestamp)
    ensures CalculateUpcomingPastShows(Related(shows, f), now, true) == |Query(shows, f, now + 1, true)|
    ensures CalculateUpcomingPastShowsFixed(Related(shows, f), now, true)
            == CalculateUpcomingPastShows(Related(shows, f), now, true)
  {
    CountAfterIsStrictQuery(shows, f, now);
  }

  /** The corrected past count is the length of the past list; the upcoming
      count is the length of the upcoming list less the shows starting
      exactly at `now`, so it never exceeds it. */
  lemma CountersAgreeWithPartition(shows: seq<Show>, f: ShowFilter, now: Timestamp)
    ensures CalculateUpcomingPastShowsFixed(Related(shows, f), now, false) == |Query(shows, f, now, false)|
    ensures CalculateUpcomingPastShowsFixed(Related(shows, f), now, true)
            == |Query(shows, f, now, true)| - CountAt(Related(shows, f), now, At)
    ensures CalculateUpcomingPastShowsFixed(Related(shows, f), now, true) <= |Query(shows, f, now, true)|
  {
    CountsMatchPartition(shows, f, now);
  }

  /** A show starting exactly at `now` is in its entity's upcoming list
      but is not counted as upcoming: the counter falls short of the list. */
  lemma BoundaryDisagreement(shows: seq<Show>, f: ShowFilter, now: Timestamp, s: Show)
    requires s in shows && Selects(f, s) && s.startTime == now
    ensures s in Query(shows, f, now, true)
    ensures CalculateUpcomingPastShows(Related(shows, f), now, true) < |Query(shows, f, now, true)|
  {
    CountsMatchPartition(shows, f, now);
    CountAtPositive(Related(shows, f), now, s);
  }

  /** A show standing at its moment is counted there. */
  lemma {:induction false} CountAtPositive(ss: seq<Show>, now: Timestamp, s: Show)
    requires s in ss
    ensures CountAt(ss, now, MomentOf(s, now)) > 0
  {
    var init := ss[..|ss| - 1];
    if s != ss[|ss| - 1] {
      assert ss == init + [ss[|ss| - 1]];
      assert s in init;
      CountAtPositive(init, now, s);
    }
  }

}
