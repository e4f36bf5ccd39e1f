/** The searches the handlers' comments promise on the sample rows: three
    venues (The Musical Hop, The Dueling Pianos Bar, Park Square Live Music &
    Coffee) and three artists (Guns N Petals, Matt Quevedo, The Wild Sax
    Band). Names enter as parameters equal to the sample text, and rows name
    those parameters, so that the verifier reasons about each name position
    by position. */
module Samples {
  import opened Text
  import opened Records
  import opened Search

  // One fact per (name, term) pair.

  lemma HopInMusicalHop(n: string, term: string)
    requires n == "The Musical Hop" && term == "Hop"
    ensures ContainsIgnoreCase(n, term)
  {
    MatchAt(n, term, 12);
  }

  lemma HopNotInPianosBar(n: string, term: string)
    requires n == "The Dueling Pianos Bar" && term == "Hop"
    ensures !ContainsIgnoreCase(n, term)
  {
    // The only 'h' is the second letter, and an 'e' follows it.
    assert forall i :: 0 <= i < |n| && i != 1 ==> LowerChar(n[i]) != 'h';
    assert LowerChar(n[2]) != 'o';
    MissingPairIgnoringCase(n, term);
  }

  lemma HopNotInParkSquare(n: string, term: string)
    requires n == "Park Square Live Music & Coffee" && term == "Hop"
    ensures !ContainsIgnoreCase(n, term)
  {
    assert forall i :: 0 <= i < |n| ==> LowerChar(n[i]) != 'h';
    MissingFirstIgnoringCase(n, term);
  }

  lemma MusicInMusicalHop(n: string, term: string)
    requires n == "The Musical Hop" && term == "Music"
    ensures ContainsIgnoreCase(n, term)
  {
    MatchAt(n, term, 4);
  }

  lemma MusicInParkSquare(n: string, term: string)
    requires n == "Park Square Live Music & Coffee" && term == "Music"
    ensures ContainsIgnoreCase(n, term)
  {
    MatchAt(n, term, 17);
  }

  lemma MusicNotInPianosBar(n: string, term: string)
    requires n == "The Dueling Pianos Bar" && term == "Music"
    ensures !ContainsIgnoreCase(n, term)
  {
    assert forall i :: 0 <= i < |n| ==> LowerChar(n[i]) != 'm';
    MissingFirstIgnoringCase(n, term);
  }

  lemma AInGunsNPetals(n: string, term: string)
    requires n == "Guns N Petals" && term == "A"
    ensures ContainsIgnoreCase(n, term)
  {
    MatchAt(n, term, 10);
  }

  lemma AInMattQuevedo(n: string, term: string)
    requires n == "Matt Quevedo" && term == "A"
    ensures ContainsIgnoreCase(n, term)
  {
    MatchAt(n, term, 1);
  }

  lemma AInWildSaxBand(n: string, term: string)
    requires n == "The Wild Sax Band" && term == "A"
    ensures ContainsIgnoreCase(n, term)
  {
    MatchAt(n, term, 10);
  }

  lemma BandInWildSaxBand(n: string, term: string)
    requires n == "The Wild Sax Band" && term == "band"
    ensures ContainsIgnoreCase(n, term)
  {
    MatchAt(n, term, 13);
  }

  lemma BandNotInGunsNPetals(n: string, term: string)
    requires n == "Guns N Petals" && term == "band"
    ensures !ContainsIgnoreCase(n, term)
  {
    assert forall i :: 0 <= i < |n| ==> LowerChar(n[i]) != 'b';
    MissingFirstIgnoringCase(n, term);
  }

  lemma BandNotInMattQuevedo(n: string, term: string)
    requires n == "Matt Quevedo" && term == "band"
    ensures !ContainsIgnoreCase(n, term)
  {
    assert forall i :: 0 <= i < |n| ==> LowerChar(n[i]) != 'b';
    MissingFirstIgnoringCase(n, term);
  }

  // The searches over the sample tables.

  /** A non-empty term with no city/state text searches names. */
  lemma TermClause(term: string)
    requires term != ""
    ensures ChooseClause(term, "") == NameLike(term)
  {
    assert Split("", ',') == [""];
  }

  // Which of three rows a clause selects, once it is known which match.

  lemma FirstVenueOnly(c: Clause, x: Venue, y: Venue, z: Venue)
    requires VenueMatches(c, x) && !VenueMatches(c, y) && !VenueMatches(c, z)
    ensures forall v :: v in MatchingVenues([x, y, z], c) <==> v == x
  {
  }

  lemma FirstAndLastVenue(c: Clause, x: Venue, y: Venue, z: Venue)
    requires VenueMatches(c, x) && !VenueMatches(c, y) && VenueMatches(c, z)
    ensures forall v :: v in MatchingVenues([x, y, z], c) <==> v == x || v == z
  {
  }

  lemma EveryArtist(c: Clause, x: Artist, y: Artist, z: Artist)
    requires ArtistMatches(c, x) && ArtistMatches(c, y) && ArtistMatches(c, z)
    ensures forall a :: a in MatchingArtists([x, y, z], c) <==> a in [x, y, z]
  {
  }

  lemma LastArtistOnly(c: Clause, x: Artist, y: Artist, z: Artist)
    requires !ArtistMatches(c, x) && !ArtistMatches(c, y) && ArtistMatches(c, z)
    ensures forall a :: a in MatchingArtists([x, y, z], c) <==> a == z
  {
  }

  /** Searching venues for "Hop" returns The Musical Hop only. */
  lemma SearchVenuesForHop(term: string, h: string, p: string, k: string, hop: Venue, pianos: Venue, park: Venue)
    requires term == "Hop"
    requires h == "The Musical Hop" && p == "The Dueling Pianos Bar" && k == "Park Square Live Music & Coffee"
    requires hop.name == Some(h) && pianos.name == Some(p) && park.name == Some(k)
    ensures forall v :: v in MatchingVenues([hop, pianos, park], ChooseClause(term, "")) <==> v == hop
  {
    HopInMusicalHop(h, term);
    HopNotInPianosBar(p, term);
    HopNotInParkSquare(k, term);
    TermClause(term);
    FirstVenueOnly(NameLike(term), hop, pianos, park);
  }

  /** Searching venues for "Music" returns The Musical Hop and Park Square
      Live Music & Coffee. */
  lemma SearchVenuesForMusic(term: string, h: string, p: string, k: string, hop: Venue, pianos: Venue, park: Venue)
    requires term == "Music"
    requires h == "The Musical Hop" && p == "The Dueling Pianos Bar" && k == "Park Square Live Music & Coffee"
    requires hop.name == Some(h) && pianos.name == Some(p) && park.name == Some(k)
    ensures forall v :: v in MatchingVenues([hop, pianos, park], ChooseClause(term, "")) <==> v == hop || v == park
  {
    MusicInMusicalHop(h, term);
    MusicNotInPianosBar(p, term);
    MusicInParkSquare(k, term);
    TermClause(term);
    FirstAndLastVenue(NameLike(term), hop, pianos, park);
  }

  /** Searching artists for "A" returns all three artists. */
  lemma SearchArtistsForA(term: string, g: string, m: string, w: string, guns: Artist, matt: Artist, wild: Artist)
    requires term == "A"
    requires g == "Guns N Petals" && m == "Matt Quevedo" && w == "The Wild Sax Band"
    requires guns.name == Some(g) && matt.name == Some(m) && wild.name == Some(w)
    ensures forall a :: a in MatchingArtists([guns, matt, wild], ChooseClause(term, "")) <==> a in [guns, matt, wild]
  {
    AInGunsNPetals(g, term);
    AInMattQuevedo(m, term);
    AInWildSaxBand(w, term);
    TermClause(term);
    EveryArtist(NameLike(term), guns, matt, wild);
  }

  /** Searching artists for "band" returns The Wild Sax Band only. */
  lemma SearchArtistsForBand(term: string, g: string, m: string, w: string, guns: Artist, matt: Artist, wild: Artist)
    requires term == "band"
    requires g == "Guns N Petals" && m == "Matt Quevedo" && w == "The Wild Sax Band"
    requires guns.name == Some(g) && matt.name == Some(m) && wild.name == Some(w)
    ensures forall a :: a in MatchingArtists([guns, matt, wild], ChooseClause(term, "")) <==> a == wild
  {
    BandNotInGunsNPetals(g, term);
    BandNotInMattQuevedo(m, term);
    BandInWildSaxBand(w, term);
    TermClause(term);
    LastArtistOnly(NameLike(term), guns, matt, wild);
  }

  lemma SplitCityState(text: string, city: string, state: string)
    requires text == "San Francisco, CA" && city == "San Francisco" && state == " CA"
    ensures Split(text, ',') == [city, state]
  {
    assert Join([city, state], ',') == text;
    SplitJoin([city, state], ',');
  }

  lemma StripState(state: string)
    requires state == " CA"
    ensures Strip(state) == "CA"
  {
    var t := state[1..];
    assert IsSpace(state[0]) && t == "CA";
    assert TrimStart(state) == TrimStart(t);
    assert TrimStart(t) == t && TrimEnd(t) == t;
  }

  /** The city/state text "San Francisco, CA" searches for the city
      "San Francisco" and the state "CA", the blank after the comma
      stripped. */
  lemma CityStateSample(text: string, city: string, state: string)
    requires text == "San Francisco, CA" && city == "San Francisco" && state == " CA"
    ensures ChooseClause("", text) == CityStateLike(city, "CA")
  {
    SplitCityState(text, city, state);
    assert Strip(city) == city;
    StripState(state);
  }
}
