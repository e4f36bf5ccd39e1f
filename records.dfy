/** The three persisted entities of the booking directory (the `Venue`,
    `Artist` and `Show` tables) and lookups by id. Nullable columns are
    `Option`s; timestamps are integers. */
module Records {

  datatype Option<T> = None | Some(value: T)

  type Timestamp = int

  /** A row of the `Venue` table. `created_at` is not modelled. */
  datatype Venue = Venue(
    id: nat,
    name: Option<string>,
    city: Option<string>,
    state: Option<string>,
    address: Option<string>,
    phone: Option<string>,
    imageLink: Option<string>,
    facebookLink: Option<string>,
    seekingTalent: bool,
    genres: Option<string>,
    seekingDescription: Option<string>,
    website: Option<string>)

  /** A row of the `Artist` table. The booking window is the optional pair
      `availableFrom`/`availableTo`. `created_at` is not modelled. */
  datatype Artist = Artist(
    id: nat,
    name: Option<string>,
    city: Option<string>,
    state: Option<string>,
    phone: Option<string>,
    genres: Option<string>,
    imageLink: Option<string>,
    facebookLink: Option<string>,
    website: Option<string>,
    seekingVenue: bool,
    seekingDescription: Option<string>,
    availableFrom: Option<Timestamp>,
    availableTo: Option<Timestamp>)

  /** A row of the `Show` table: one artist at one venue at one time. */
  datatype Show = Show(id: nat, artistId: nat, venueId: nat, startTime: Timestamp)

  function VenueIds(venues: seq<Venue>): set<nat>
  {
    set v | v in venues :: v.id
  }

  function ArtistIds(artists: seq<Artist>): set<nat>
  {
    set a | a in artists :: a.id
  }

  predicate UniqueVenueIds(venues: seq<Venue>)
  {
    forall i, j :: 0 <= i < j < |venues| ==> venues[i].id != venues[j].id
  }

  predicate UniqueArtistIds(artists: seq<Artist>)
  {
    forall i, j :: 0 <= i < j < |artists| ==> artists[i].id != artists[j].id
  }

  predicate UniqueShowIds(shows: seq<Show>)
  {
    forall i, j :: 0 <= i < j < |shows| ==> shows[i].id != shows[j].id
  }

  /** `query(Venue).filter_by(id = id).first()`: the first row with that id. */
  function FindVenue(venues: seq<Venue>, id: nat): (r: Option<Venue>)
    ensures r.Some? <==> id in VenueIds(venues)
    ensures r.Some? ==> r.value in venues && r.value.id == id
  {
    if |venues| == 0 then None
    else if venues[0].id == id then Some(venues[0])
    else
      assert VenueIds(venues) == {venues[0].id} + VenueIds(venues[1..]) by {
        assert forall v :: v in venues <==> v == venues[0] || v in venues[1..];
      }
      FindVenue(venues[1..], id)
  }

  /** `query(Artist).filter(Artist.id == id).first()`: the first row with that id. */
  function FindArtist(artists: seq<Artist>, id: nat): (r: Option<Artist>)
    ensures r.Some? <==> id in ArtistIds(artists)
    ensures r.Some? ==> r.value in artists && r.value.id == id
  {
    if |artists| == 0 then None
    else if artists[0].id == id then Some(artists[0])
    else
      assert ArtistIds(artists) == {artists[0].id} + ArtistIds(artists[1..]) by {
        assert forall a :: a in artists <==> a == artists[0] || a in artists[1..];
      }
      FindArtist(artists[1..], id)
  }

  /** With unique ids, the row found is the only row with that id. */
  lemma FindArtistUnique(artists: seq<Artist>, a: Artist)
    requires UniqueArtistIds(artists) && a in artists
    ensures FindArtist(artists, a.id) == Some(a)
  {
    var w := FindArtist(artists, a.id).value;
    var i :| 0 <= i < |artists| && artists[i] == a;
    var j :| 0 <= j < |artists| && artists[j] == w;
    assert i == j;
  }
}
