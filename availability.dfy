/** The booking rule of `create_show_submission`: a show is refused when its
    artist does not exist, when the artist has a complete availability window
    that the start time lies outside of, or when its venue does not exist
    (the foreign key refuses the insert at commit). */
module Availability {
  import opened Records

  /** The window test: with both bounds set, the start must lie in the closed
      interval between them; with either bound missing, any start will do. */
  predicate Admits(from: Option<Timestamp>, to: Option<Timestamp>, start: Timestamp)
    ensures from.None? || to.None? ==> Admits(from, to, start)
    ensures from.Some? && to.Some? && to.value < from.value ==> !Admits(from, to, start)
  {
    !(to.Some? && from.Some?) || (start >= from.value && start <= to.value)
  }

  /** The admitted starts form an interval: both ends are admitted when the
      window is not empty, nothing is admitted when it is, and whatever lies
      between two admitted starts is admitted. */
  lemma WindowIsInterval(from: Timestamp, to: Timestamp, t1: Timestamp, t: Timestamp, t2: Timestamp)
    ensures from <= to ==> Admits(Some(from), Some(to), from) && Admits(Some(from), Some(to), to)
    ensures from > to ==> !Admits(Some(from), Some(to), t)
    ensures Admits(Some(from), Some(to), t1) && Admits(Some(from), Some(to), t2) && t1 <= t <= t2
            ==> Admits(Some(from), Some(to), t)
  {
  }

  /** Why a show could not be listed. `OutsideAvailability` carries the
      window for the flashed message; `UnreadableStart` is a start text that
      does not parse as `%Y-%m-%d %H:%M:%S`. */
  datatype BookingError = UnknownArtist | UnreadableStart | OutsideAvailability(from: Timestamp, to: Timestamp) | UnknownVenue

  datatype Outcome = Accepted | Rejected(error: BookingError)

  /** The checks in the order the handler meets them: the artist lookup
      (a missing artist fails on `artist.available_to`), the parse of the
      start text, the window, then the foreign key on the venue when the
      insert is committed. `start` is the parsed start text, `None` when it
      does not parse. */
  function CheckBooking(artists: seq<Artist>, venues: seq<Venue>, artistId: nat, venueId: nat, start: Option<Timestamp>): (r: Outcome)
    requires UniqueArtistIds(artists)
    ensures r.Accepted? <==>
              && artistId in ArtistIds(artists)
              && start.Some?
              && venueId in VenueIds(venues)
              && (forall a :: a in artists && a.id == artistId ==> Admits(a.availableFrom, a.availableTo, start.value))
    ensures r == Rejected(UnknownArtist) <==> artistId !in ArtistIds(artists)
    ensures r == Rejected(UnreadableStart) <==> artistId in ArtistIds(artists) && start.None?
    ensures r.Rejected? && r.error.OutsideAvailability? ==>
              && start.Some?
              && exists a :: a in artists && a.id == artistId
                   && a.availableFrom == Some(r.error.from) && a.availableTo == Some(r.error.to)
                   && !(r.error.from <= start.value <= r.error.to)
    ensures forall a :: a in artists && a.id == artistId && start.Some? && a.availableFrom.Some? && a.availableTo.Some?
                        && !(a.availableFrom.value <= start.value <= a.availableTo.value)
                        ==> r == Rejected(OutsideAvailability(a.availableFrom.value, a.availableTo.value))
    ensures r == Rejected(UnknownVenue) <==>
              && artistId in ArtistIds(artists)
              && start.Some?
              && (forall a :: a in artists && a.id == artistId ==> Admits(a.availableFrom, a.availableTo, start.value))
              && venueId !in VenueIds(venues)
  {
    match FindArtist(artists, artistId)
    case None => Rejected(UnknownArtist)
    case Some(a) =>
      if start.None? then Rejected(UnreadableStart)
      else
        AdmitsForFoundArtist(artists, a, start.value);
        if !Admits(a.availableFrom, a.availableTo, start.value) then
          Rejected(OutsideAvailability(a.availableFrom.value, a.availableTo.value))
        else if venueId !in VenueIds(venues) then Rejected(UnknownVenue)
        else Accepted
  }

  lemma AdmitsForFoundArtist(artists: seq<Artist>, a: Artist, start: Timestamp)
    requires UniqueArtistIds(artists) && FindArtist(artists, a.id) == Some(a)
    ensures forall b :: b in artists && b.id == a.id ==> b == a
    ensures Admits(a.availableFrom, a.availableTo, start) <==>
              (forall b :: b in artists && b.id == a.id ==> Admits(b.availableFrom, b.availableTo, start))
  {
    forall b | b in artists && b.id == a.id ensures b == a {
      FindArtistUnique(artists, b);
    }
  }

  /** For an artist with both bounds set, a readable booking at an existing
      venue is accepted exactly when the start lies in the closed window,
      and is otherwise refused with that window. */
  lemma WindowDecides(artists: seq<Artist>, venues: seq<Venue>, a: Artist, venueId: nat, t: Timestamp)
    requires UniqueArtistIds(artists) && a in artists && venueId in VenueIds(venues)
    requires a.availableFrom.Some? && a.availableTo.Some?
    ensures CheckBooking(artists, venues, a.id, venueId, Some(t)) ==
              if a.availableFrom.value <= t <= a.availableTo.value then Accepted
              else Rejected(OutsideAvailability(a.availableFrom.value, a.availableTo.value))
  {
    FindArtistUnique(artists, a);
  }

  /** For an artist missing either bound, every readable start at an
      existing venue is accepted. */
  lemma NoWindowAdmitsAll(artists: seq<Artist>, venues: seq<Venue>, a: Artist, venueId: nat, t: Timestamp)
    requires UniqueArtistIds(artists) && a in artists && venueId in VenueIds(venues)
    requires a.availableFrom.None? || a.availableTo.None?
    ensures CheckBooking(artists, venues, a.id, venueId, Some(t)) == Accepted
  {
    FindArtistUnique(artists, a);
  }
}
