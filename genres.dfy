/** The genre column: a list of genre names is stored as one comma-joined
    string (`",".join(genres)` on create and edit) and read back with
    `split(',')`. The readers treat a stored empty string differently. */
module Genres {
  import opened Records
  import opened Text

  /** `",".join(genres)`: splitting the stored text at commas gives back a
      non-empty list of comma-free names. */
  function Encode(genres: seq<string>): (r: string)
    ensures |genres| >= 1 && CommaFree(genres) ==> Split(r, ',') == genres
  {
    if |genres| >= 1 && CommaFree(genres) then
      SplitJoin(genres, ',');
      Join(genres, ',')
    else Join(genres, ',')
  }

  /** The artist page: `genres.split(',') if genres else []`, so both a NULL
      and an empty column read as no genres. */
  function DecodeForArtistPage(stored: Option<string>): (r: seq<string>)
    ensures r == [] <==> stored.None? || stored.value == ""
    ensures r != [] ==> Encode(r) == stored.value
    ensures CommaFree(r)
  {
    if stored.Some? && stored.value != "" then
      JoinSplit(stored.value, ',');
      Split(stored.value, ',')
    else []
  }

  /** The venue page and both edit forms: `genres.split(',') if genres is
      not None else []`, so an empty column reads as one empty genre. */
  function DecodeForVenuePage(stored: Option<string>): (r: seq<string>)
    ensures r == [] <==> stored.None?
    ensures stored.Some? ==> Encode(r) == stored.value
    ensures CommaFree(r)
  {
    if stored.Some? then
      JoinSplit(stored.value, ',');
      Split(stored.value, ',')
    else []
  }

  predicate CommaFree(genres: seq<string>)
  {
    forall i :: 0 <= i < |genres| ==> ',' !in genres[i]
  }

  /** Storing then reading back gives the same list, for any non-empty list
      of comma-free names; the artist page also needs the stored text to be
      non-empty, which fails only for the list holding one empty name. */
  lemma {:induction false} RoundTrip(genres: seq<string>)
    requires |genres| >= 1 && CommaFree(genres)
    ensures DecodeForVenuePage(Some(Encode(genres))) == genres
    ensures genres != [""] ==> DecodeForArtistPage(Some(Encode(genres))) == genres
  {
    SplitJoin(genres, ',');
  }

  /** Whatever text is stored, the venue page's list joins back to it. */
  lemma StoredTextRoundTrip(stored: string)
    ensures Encode(DecodeForVenuePage(Some(stored))) == stored
  {
    JoinSplit(stored, ',');
  }

  /** The empty list is stored as the empty string, which the artist page
      reads as no genres and the venue page as one empty genre. */
  lemma EmptyListReadsDifferently()
    ensures Encode([]) == ""
    ensures DecodeForArtistPage(Some(Encode([]))) == []
    ensures DecodeForVenuePage(Some(Encode([]))) == [""]
  {
  }
}
