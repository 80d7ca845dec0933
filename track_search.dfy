/**
 * navidrome_search_track_db: resolve one external track (a title and a
 * comma-joined artist list) against Navidrome's media_file table with three
 * ordered strategies, first hit wins.
 *
 * The table is a sequence of rows, and each `LIMIT 1` query without an
 * ORDER BY is taken to return the first qualifying row in sequence order.
 */
module TrackSearch {
  import opened Wrappers
  import opened Text
  import opened SqlLike

  /** One row of media_file; a NULL column reads as "". */
  datatype Row = Row(id: string, path: string, title: string, artist: string,
                     albumArtist: string, album: string, duration: real, fullText: string)

  /** The dictionary the search returns: the selected columns of the row. */
  datatype Song = Song(id: string, path: string, title: string, artist: string, album: string, duration: real)

  function SongOf(r: Row): Song {
    Song(r.id, r.path, r.title, r.artist, r.album, r.duration)
  }

  /** Which query produced a hit, and with which of the artist patterns. */
  datatype Strategy = ExactTitle(pattern: nat) | PartialTitle(pattern: nat) | FullText

  datatype Hit = Hit(strategy: Strategy, row: nat)

  /** The first artist of a comma-joined list, trimmed. */
  function PrimaryArtist(artistName: string): string {
    Strip(BeforeFirst(artistName, ','))
  }

  /**
   * The four artist patterns, in the order they are tried: the full string,
   * the primary artist, and the list with "," or ", " turned into the
   * library's bullet separator.
   */
  function ArtistPatterns(artistName: string): (pats: seq<string>)
    ensures |pats| == 4
    ensures forall k :: 0 <= k < 4 ==> IsInfixPattern(pats[k])
  {
    var full := Lower(artistName);
    var primary := Lower(PrimaryArtist(artistName));
    var bulleted := Lower(Replace(artistName, ",", " •"));
    var spaced := Lower(Replace(artistName, ", ", " • "));
    [Infix(full), Infix(primary), Infix(bulleted), Infix(spaced)]
  }

  /** A LIKE pattern that starts and ends with the wildcard %. */
  predicate IsInfixPattern(p: string) {
    |p| >= 2 && p[0] == '%' && p[|p| - 1] == '%'
  }

  /** The LIKE pattern "%s%": any text that holds s. */
  function Infix(s: string): (pat: string)
    ensures IsInfixPattern(pat) && |pat| == |s| + 2
  {
    "%" + s + "%"
  }

  /** The title before its first "(", trimmed: drops "(feat. ...)" suffixes. */
  function CoreTitle(trackName: string): string {
    Strip(BeforeFirst(trackName, '('))
  }

  /** LOWER(artist) LIKE pat OR LOWER(album_artist) LIKE pat */
  predicate ArtistLike(r: Row, pat: string) {
    Like(Lower(r.artist), pat) || Like(Lower(r.albumArtist), pat)
  }

  /** The first query: LOWER(title) = LOWER(track_name) and the artist pattern. */
  predicate ExactTitleHit(trackName: string, pat: string, r: Row) {
    Lower(r.title) == Lower(trackName) && ArtistLike(r, pat)
  }

  /** The second query: the title holds the track name or the core title, and the artist pattern. */
  predicate PartialTitleHit(trackName: string, pat: string, r: Row) {
    && (Like(Lower(r.title), "%" + Lower(trackName) + "%")
        || Like(Lower(r.title), "%" + Lower(CoreTitle(trackName)) + "%"))
    && ArtistLike(r, pat)
  }

  /** The text the fallback looks for in full_text. */
  function FullTextQuery(trackName: string, artistName: string): string {
    Lower(trackName + " " + PrimaryArtist(artistName))
  }

  /** The fallback query: LOWER(full_text) LIKE "%<track_name> <primary artist>%". */
  predicate FullTextHit(trackName: string, artistName: string, r: Row) {
    Like(Lower(r.fullText), "%" + FullTextQuery(trackName, artistName) + "%")
  }

  /** Whether row r satisfies the query of strategy s. */
  predicate Satisfies(trackName: string, artistName: string, s: Strategy, r: Row) {
    match s
    case ExactTitle(k) => k < 4 && ExactTitleHit(trackName, ArtistPatterns(artistName)[k], r)
    case PartialTitle(k) => k < 4 && PartialTitleHit(trackName, ArtistPatterns(artistName)[k], r)
    case FullText => FullTextHit(trackName, artistName, r)
  }

  /** `SELECT ... WHERE p LIMIT 1`: the index of the first row satisfying p. */
  function FirstRow(rows: seq<Row>, p: Row -> bool): (r: Option<nat>)
    ensures r.Some? ==> r.value < |rows| && p(rows[r.value])
    ensures r.Some? ==> forall j :: 0 <= j < r.value ==> !p(rows[j])
    ensures r.None? ==> forall j :: 0 <= j < |rows| ==> !p(rows[j])
  {
    if rows == [] then None
    else if p(rows[0]) then Some(0)
    else match FirstRow(rows[1..], p)
      case None => None
      case Some(k) => Some(k + 1)
  }

  /**
   * The `for artist_pattern in artist_patterns` loop with its early return:
   * run the query for pats[from], pats[from+1], ... and return the first hit
   * as (pattern index, row index).
   */
  function FirstPatternHit(rows: seq<Row>, pats: seq<string>, hit: (string, Row) -> bool, from: nat): (r: Option<(nat, nat)>)
    ensures r.Some? ==> from <= r.value.0 < |pats| && r.value.1 < |rows| && hit(pats[r.value.0], rows[r.value.1])
    ensures r.Some? ==> forall j :: 0 <= j < r.value.1 ==> !hit(pats[r.value.0], rows[j])
    ensures r.Some? ==> forall k, j :: from <= k < r.value.0 && 0 <= j < |rows| ==> !hit(pats[k], rows[j])
    ensures r.None? ==> forall k, j :: from <= k < |pats| && 0 <= j < |rows| ==> !hit(pats[k], rows[j])
    decreases |pats| - from
  {
    if from >= |pats| then None
    else match FirstRow(rows, row => hit(pats[from], row))
      case Some(i) => Some((from, i))
      case None => FirstPatternHit(rows, pats, hit, from + 1)
  }

  /** Some row passes the first query for some pattern. */
  predicate AnyExactTitle(rows: seq<Row>, trackName: string, artistName: string) {
    exists k, i :: 0 <= k < 4 && 0 <= i < |rows| && ExactTitleHit(trackName, ArtistPatterns(artistName)[k], rows[i])
  }

  /** Some row passes the second query for some pattern. */
  predicate AnyPartialTitle(rows: seq<Row>, trackName: string, artistName: string) {
    exists k, i :: 0 <= k < 4 && 0 <= i < |rows| && PartialTitleHit(trackName, ArtistPatterns(artistName)[k], rows[i])
  }

  /** Some row passes the fallback query. */
  predicate AnyFullText(rows: seq<Row>, trackName: string, artistName: string) {
    exists i :: 0 <= i < |rows| && FullTextHit(trackName, artistName, rows[i])
  }

  /**
   * The cascade, reporting which strategy produced the row. The contract is
   * the precedence the source's early returns give: a hit is the first row of
   * its query, every earlier pattern and every earlier strategy found
   * nothing, and there is no hit only when all three strategies find nothing.
   */
  function Cascade(rows: seq<Row>, trackName: string, artistName: string): (r: Option<Hit>)
    ensures r.Some? ==> r.value.row < |rows| && Satisfies(trackName, artistName, r.value.strategy, rows[r.value.row])
    ensures r.Some? ==> forall j :: 0 <= j < r.value.row ==> !Satisfies(trackName, artistName, r.value.strategy, rows[j])
    ensures r.Some? && r.value.strategy.ExactTitle? ==>
              forall k, j :: 0 <= k < r.value.strategy.pattern && 0 <= j < |rows| ==>
                !ExactTitleHit(trackName, ArtistPatterns(artistName)[k], rows[j])
    ensures r.Some? && r.value.strategy.PartialTitle? ==>
              !AnyExactTitle(rows, trackName, artistName)
              && forall k, j :: 0 <= k < r.value.strategy.pattern && 0 <= j < |rows| ==>
                   !PartialTitleHit(trackName, ArtistPatterns(artistName)[k], rows[j])
    ensures r.Some? && r.value.strategy.FullText? ==>
              !AnyExactTitle(rows, trackName, artistName) && !AnyPartialTitle(rows, trackName, artistName)
    ensures AnyExactTitle(rows, trackName, artistName) ==> r.Some? && r.value.strategy.ExactTitle?
    ensures r.None? <==>
              !AnyExactTitle(rows, trackName, artistName) && !AnyPartialTitle(rows, trackName, artistName)
              && !AnyFullText(rows, trackName, artistName)
  {
    var pats := ArtistPatterns(artistName);
    match FirstPatternHit(rows, pats, (p, row) => ExactTitleHit(trackName, p, row), 0)
    case Some((k, i)) => Some(Hit(ExactTitle(k), i))
    case None =>
      match FirstPatternHit(rows, pats, (p, row) => PartialTitleHit(trackName, p, row), 0)
      case Some((k, i)) => Some(Hit(PartialTitle(k), i))
      case None =>
        match FirstRow(rows, row => FullTextHit(trackName, artistName, row))
        case Some(i) => Some(Hit(FullText, i))
        case None => None
  }

  /**
   * navidrome_search_track_db: the song dictionary of the cascade's row, or
   * None exactly when no strategy finds a row.
   */
  function SearchTrack(rows: seq<Row>, trackName: string, artistName: string): (r: Option<Song>)
    ensures r.None? <==>
              !AnyExactTitle(rows, trackName, artistName) && !AnyPartialTitle(rows, trackName, artistName)
              && !AnyFullText(rows, trackName, artistName)
    ensures r.Some? ==> exists i :: 0 <= i < |rows| && r.value == SongOf(rows[i])
  {
    match Cascade(rows, trackName, artistName)
    case None => None
    case Some(h) => Some(SongOf(rows[h.row]))
  }

  /**
   * For an artist string built as ", ".join(names), the primary artist is
   * the first name, trimmed, provided that name holds no comma.
   */
  lemma PrimaryArtistOfJoined(names: seq<string>)
    requires |names| >= 1 && ',' !in names[0]
    ensures PrimaryArtist(Join(names, ", ")) == Strip(names[0])
  {
    if |names| == 1 {
      BeforeFirstAbsent(names[0], ',');
    } else {
      var rest := Join(names[1..], ", ");
      assert Join(names, ", ") == names[0] + (", " + rest);
      BeforeFirstConcat(names[0], ", " + rest, ',');
    }
  }

  /** With a single artist (no comma), patterns 1, 3 and 4 are the same pattern. */
  lemma SingleArtistPatterns(artistName: string)
    requires ',' !in artistName
    ensures ArtistPatterns(artistName)[0] == ArtistPatterns(artistName)[2] == ArtistPatterns(artistName)[3]
    ensures ArtistPatterns(artistName)[1] == "%" + Lower(Strip(artistName)) + "%"
  {
    ReplaceAbsent(artistName, ",", " •");
    ReplaceAbsent(artistName, ", ", " • ");
    BeforeFirstAbsent(artistName, ',');
  }

  /** Without a "(" the core title is the whole title, trimmed. */
  lemma CoreTitleWithoutParenthesis(trackName: string)
    requires '(' !in trackName
    ensures CoreTitle(trackName) == Strip(trackName)
  {
    BeforeFirstAbsent(trackName, '(');
  }

  /** A "%x%" pattern built from lowered text is unchanged by LIKE's own lowering. */
  lemma LoweredPattern(x: string)
    ensures Lower("%" + Lower(x) + "%") == "%" + Lower(x) + "%"
  {
    var p := "%" + Lower(x) + "%";
    forall j | 0 <= j < |p| ensures Lower(p)[j] == p[j] {
      if 0 < j < |p| - 1 {
        assert p[j] == Lower(x)[j - 1];
      }
    }
  }

  /** A lowered column that holds the lowered x passes LIKE "%x%", whatever x holds. */
  lemma ContainsLike(column: string, x: string)
    requires Contains(Lower(column), Lower(x))
    ensures Like(Lower(column), "%" + Lower(x) + "%")
  {
    LoweredPattern(x);
    LowerIdempotent(column);
    ContainsMatches(Lower(column), Lower(x));
  }

  /** A LIKE test against a "%x%" pattern on a lowered column is a substring test. */
  lemma LikeSubstring(column: string, x: string)
    requires NoWildcards(Lower(x))
    ensures Like(Lower(column), "%" + Lower(x) + "%") <==> Contains(Lower(column), Lower(x))
  {
    LoweredPattern(x);
    LowerIdempotent(column);
    SubstringPattern(Lower(column), Lower(x));
  }

  /**
   * The fallback finds a row whose full_text holds the lowered title and
   * primary artist; without wildcards in that text, exactly those rows.
   */
  lemma FullTextHitContains(trackName: string, artistName: string, r: Row)
    ensures Contains(Lower(r.fullText), FullTextQuery(trackName, artistName)) ==> FullTextHit(trackName, artistName, r)
    ensures NoWildcards(FullTextQuery(trackName, artistName)) ==>
              (FullTextHit(trackName, artistName, r) <==> Contains(Lower(r.fullText), FullTextQuery(trackName, artistName)))
  {
    var x := trackName + " " + PrimaryArtist(artistName);
    if Contains(Lower(r.fullText), Lower(x)) {
      ContainsLike(r.fullText, x);
    }
    if NoWildcards(Lower(x)) {
      LikeSubstring(r.fullText, x);
    }
  }

  /** The primary artist holds no comma and has no whitespace at either end. */
  lemma PrimaryArtistShape(artistName: string)
    ensures ',' !in PrimaryArtist(artistName)
    ensures var p := PrimaryArtist(artistName); p == [] || (!IsSpace(p[0]) && !IsSpace(p[|p| - 1]))
  {
    var b := BeforeFirst(artistName, ',');
    if ',' in Strip(b) {
      StripKeeps(b, ',');
    }
  }

  /** The core title holds no "(" and has no whitespace at either end. */
  lemma CoreTitleShape(trackName: string)
    ensures '(' !in CoreTitle(trackName)
    ensures var t := CoreTitle(trackName); t == [] || (!IsSpace(t[0]) && !IsSpace(t[|t| - 1]))
  {
    var b := BeforeFirst(trackName, '(');
    if '(' in Strip(b) {
      StripKeeps(b, '(');
    }
  }

  /**
   * A hit of the second strategy has a title that contains the lowered track
   * name or the lowered core title, as long as neither holds a LIKE wildcard,
   * and an artist or album artist that passes the pattern it was found with.
   */
  lemma PartialHitContainsTitle(rows: seq<Row>, trackName: string, artistName: string)
    requires Cascade(rows, trackName, artistName).Some?
    requires Cascade(rows, trackName, artistName).value.strategy.PartialTitle?
    ensures NoWildcards(Lower(trackName)) && NoWildcards(Lower(CoreTitle(trackName))) ==>
              var t := Lower(rows[Cascade(rows, trackName, artistName).value.row].title);
              Contains(t, Lower(trackName)) || Contains(t, Lower(CoreTitle(trackName)))
    ensures var h := Cascade(rows, trackName, artistName).value;
            h.strategy.pattern < 4 && ArtistLike(rows[h.row], ArtistPatterns(artistName)[h.strategy.pattern])
  {
    var r := rows[Cascade(rows, trackName, artistName).value.row];
    if NoWildcards(Lower(trackName)) && NoWildcards(Lower(CoreTitle(trackName))) {
      LikeSubstring(r.title, trackName);
      LikeSubstring(r.title, CoreTitle(trackName));
    }
  }

  /**
   * A row whose title equals the track name (ignoring case) and whose artist
   * contains the primary artist makes the search succeed at the first
   * strategy, whatever the later strategies would find.
   */
  lemma ExactTitleFoundFirst(rows: seq<Row>, trackName: string, artistName: string, i: nat)
    requires i < |rows|
    requires Lower(rows[i].title) == Lower(trackName)
    requires Contains(Lower(rows[i].artist), Lower(PrimaryArtist(artistName)))
    ensures Cascade(rows, trackName, artistName).Some?
    ensures Cascade(rows, trackName, artistName).value.strategy.ExactTitle?
  {
    ContainsLike(rows[i].artist, PrimaryArtist(artistName));
    assert ExactTitleHit(trackName, ArtistPatterns(artistName)[1], rows[i]);
  }
}
