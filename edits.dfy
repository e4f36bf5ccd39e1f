/** The two edit handlers write different things: the artist edit keeps only
    the submitted fields that are not empty (`valid_keys`), the venue edit
    writes every submitted field, empty or not. An `UPDATE ... WHERE id = ?`
    then sets those columns on the row with that id, if there is one. */
module Edits {
  import opened Records

  /** The artist columns the edit form can submit. */
  datatype ArtistColumn = Name | City | State | Phone | Genres | ImageLink | FacebookLink | Website | SeekingDescription

  /** The venue columns the edit form can submit. */
  datatype VenueColumn = Name | City | State | Address | Phone | Genres | ImageLink | FacebookLink | Website | SeekingDescription

  function ArtistGet(a: Artist, c: ArtistColumn): Option<string>
  {
    match c
    case Name => a.name
    case City => a.city
    case State => a.state
    case Phone => a.phone
    case Genres => a.genres
    case ImageLink => a.imageLink
    case FacebookLink => a.facebookLink
    case Website => a.website
    case SeekingDescription => a.seekingDescription
  }

  function VenueGet(v: Venue, c: VenueColumn): Option<string>
  {
    match c
    case Name => v.name
    case City => v.city
    case State => v.state
    case Address => v.address
    case Phone => v.phone
    case Genres => v.genres
    case ImageLink => v.imageLink
    case FacebookLink => v.facebookLink
    case Website => v.website
    case SeekingDescription => v.seekingDescription
  }

  /** The value a column holds after `SET column = values[column]`, if the
      update names it. */
  function Assigned<K>(values: map<K, string>, c: K, current: Option<string>): Option<string>
  {
    if c in values then Some(values[c]) else current
  }

  /** The update applied to one artist row: the named columns take the new
      values, every other column keeps its value. */
  function UpdateArtist(a: Artist, values: map<ArtistColumn, string>): (r: Artist)
    ensures r.id == a.id && r.seekingVenue == a.seekingVenue
    ensures r.availableFrom == a.availableFrom && r.availableTo == a.availableTo
    ensures forall c :: ArtistGet(r, c) == if c in values then Some(values[c]) else ArtistGet(a, c)
  {
    a.(name := Assigned(values, ArtistColumn.Name, a.name),
       city := Assigned(values, ArtistColumn.City, a.city),
       state := Assigned(values, ArtistColumn.State, a.state),
       phone := Assigned(values, ArtistColumn.Phone, a.phone),
       genres := Assigned(values, ArtistColumn.Genres, a.genres),
       imageLink := Assigned(values, ArtistColumn.ImageLink, a.imageLink),
       facebookLink := Assigned(values, ArtistColumn.FacebookLink, a.facebookLink),
       website := Assigned(values, ArtistColumn.Website, a.website),
       seekingDescription := Assigned(values, ArtistColumn.SeekingDescription, a.seekingDescription))
  }

  /** The update applied to one venue row. */
  function UpdateVenue(v: Venue, values: map<VenueColumn, string>): (r: Venue)
    ensures r.id == v.id && r.seekingTalent == v.seekingTalent
    ensures forall c :: VenueGet(r, c) == if c in values then Some(values[c]) else VenueGet(v, c)
  {
    v.(name := Assigned(values, VenueColumn.Name, v.name),
       city := Assigned(values, VenueColumn.City, v.city),
       state := Assigned(values, VenueColumn.State, v.state),
       address := Assigned(values, VenueColumn.Address, v.address),
       phone := Assigned(values, VenueColumn.Phone, v.phone),
       genres := Assigned(values, VenueColumn.Genres, v.genres),
       imageLink := Assigned(values, VenueColumn.ImageLink, v.imageLink),
       facebookLink := Assigned(values, VenueColumn.FacebookLink, v.facebookLink),
       website := Assigned(values, VenueColumn.Website, v.website),
       seekingDescription := Assigned(values, VenueColumn.SeekingDescription, v.seekingDescription))
  }

  /** The submitted fields that are neither missing nor empty. */
  function NonEmptyValues(form: map<ArtistColumn, string>): map<ArtistColumn, string>
  {
    map c | c in form && form[c] != "" :: form[c]
  }

  /** The `valid_keys` loop of `edit_artist_submission`. */
  method CollectValidKeys(form: map<ArtistColumn, string>) returns (valid: map<ArtistColumn, string>)
    ensures valid == NonEmptyValues(form)
  {
    valid := map[];
    var pending := form.Keys;
    while pending != {}
      invariant pending <= form.Keys
      invariant forall c :: c in valid <==> c in form && c !in pending && form[c] != ""
      invariant forall c :: c in valid ==> valid[c] == form[c]
      decreases pending
    {
      var c :| c in pending;
      if form[c] != "" {
        valid := valid[c := form[c]];
      }
      pending := pending - {c};
    }
  }

  /** Artist edit on one row: a column changes exactly when the form submits
      a non-empty value for it, and then takes that value. */
  lemma ArtistEditKeepsEmptyFields(a: Artist, form: map<ArtistColumn, string>, c: ArtistColumn)
    ensures ArtistGet(UpdateArtist(a, NonEmptyValues(form)), c)
            == if c in form && form[c] != "" then Some(form[c]) else ArtistGet(a, c)
  {
  }

  /** Venue edit on one row: every submitted column is written, so an empty
      submitted value replaces what was stored. */
  lemma VenueEditWritesEmptyFields(v: Venue, form: map<VenueColumn, string>, c: VenueColumn)
    requires c in form && form[c] == ""
    ensures VenueGet(UpdateVenue(v, form), c) == Some("")
  {
  }

  /** `UPDATE Artist SET ... WHERE id = id` over the whole table. */
  function UpdateArtistRows(artists: seq<Artist>, id: nat, values: map<ArtistColumn, string>): (r: seq<Artist>)
    ensures |r| == |artists|
    ensures forall i :: 0 <= i < |artists| ==> r[i] == if artists[i].id == id then UpdateArtist(artists[i], values) else artists[i]
  {
    if |artists| == 0 then []
    else
      var last := artists[|artists| - 1];
      UpdateArtistRows(artists[..|artists| - 1], id, values) + [if last.id == id then UpdateArtist(last, values) else last]
  }

  /** `UPDATE Venue SET ... WHERE id = id` over the whole table. */
  function UpdateVenueRows(venues: seq<Venue>, id: nat, values: map<VenueColumn, string>): (r: seq<Venue>)
    ensures |r| == |venues|
    ensures forall i :: 0 <= i < |venues| ==> r[i] == if venues[i].id == id then UpdateVenue(venues[i], values) else venues[i]
  {
    if |venues| == 0 then []
    else
      var last := venues[|venues| - 1];
      UpdateVenueRows(venues[..|venues| - 1], id, values) + [if last.id == id then UpdateVenue(last, values) else last]
  }

  /** An update keeps every id, so it keeps the set of ids and their
      uniqueness, and changes nothing when no row has the id. */
  lemma UpdateArtistRowsKeepsIds(artists: seq<Artist>, id: nat, values: map<ArtistColumn, string>)
    ensures ArtistIds(UpdateArtistRows(artists, id, values)) == ArtistIds(artists)
    ensures UniqueArtistIds(artists) ==> UniqueArtistIds(UpdateArtistRows(artists, id, values))
    ensures id !in ArtistIds(artists) ==> UpdateArtistRows(artists, id, values) == artists
  {
    var r := UpdateArtistRows(artists, id, values);
    forall x | x in ArtistIds(r) ensures x in ArtistIds(artists) {
      var i :| 0 <= i < |r| && r[i].id == x;
      assert artists[i] in artists;
    }
    forall x | x in ArtistIds(artists) ensures x in ArtistIds(r) {
      var i :| 0 <= i < |artists| && artists[i].id == x;
      assert r[i] in r;
    }
    if id !in ArtistIds(artists) {
      forall i | 0 <= i < |artists| ensures r[i] == artists[i] {
        assert artists[i] in artists;
      }
    }
  }

  lemma UpdateVenueRowsKeepsIds(venues: seq<Venue>, id: nat, values: map<VenueColumn, string>)
    ensures VenueIds(UpdateVenueRows(venues, id, values)) == VenueIds(venues)
    ensures UniqueVenueIds(venues) ==> UniqueVenueIds(UpdateVenueRows(venues, id, values))
    ensures id !in VenueIds(venues) ==> UpdateVenueRows(venues, id, values) == venues
  {
    var r := UpdateVenueRows(venues, id, values);
    forall x | x in VenueIds(r) ensures x in VenueIds(venues) {
      var i :| 0 <= i < |r| && r[i].id == x;
      assert venues[i] in venues;
    }
    forall x | x in VenueIds(venues) ensures x in VenueIds(r) {
      var i :| 0 <= i < |venues| && venues[i].id == x;
      assert r[i] in r;
    }
    if id !in VenueIds(venues) {
      forall i | 0 <= i < |venues| ensures r[i] == venues[i] {
        assert venues[i] in venues;
      }
    }
  }
}
