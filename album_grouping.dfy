/**
 * process_spotify_mb.py: clean the playlist export's artist and album
 * strings, group its tracks by (primary artist, album) in first-seen order,
 * and look every group up as a MusicBrainz release group, retrying with the
 * album alone when the first lookup finds nothing.
 */
module AlbumGrouping {
  import opened Wrappers
  import opened Text

  /** Characters the regular expression [\x00-\x1f\x7f-\x9f] removes. */
  predicate IsControl(c: char) {
    c <= '\U{1f}' || ('\U{7f}' <= c <= '\U{9f}')
  }

  /** The typographic quotes ’ ‘ “ ” that are turned into ASCII quotes. */
  predicate IsCurlyQuote(c: char) {
    c == '\U{2019}' || c == '\U{2018}' || c == '\U{201c}' || c == '\U{201d}'
  }

  /** re.sub(r'[\x00-\x1f\x7f-\x9f]', '', s) */
  function RemoveControl(s: string): (r: string)
    ensures forall i :: 0 <= i < |r| ==> !IsControl(r[i]) && r[i] in s
    ensures (forall i :: 0 <= i < |s| ==> !IsControl(s[i])) ==> r == s
  {
    if s == [] then []
    else
      var tail := RemoveControl(s[1..]);
      assert forall i :: 0 <= i < |tail| ==> tail[i] in s by {
        forall i | 0 <= i < |tail| ensures tail[i] in s {
          var k :| 0 <= k < |s[1..]| && s[1..][k] == tail[i];
          assert s[k + 1] == tail[i];
        }
      }
      if IsControl(s[0]) then tail else [s[0]] + tail
  }

  /** RemoveControl works character by character: on a concatenation it cleans each part. */
  lemma {:induction false} RemoveControlAppend(a: string, b: string)
    ensures RemoveControl(a + b) == RemoveControl(a) + RemoveControl(b)
    decreases |a|
  {
    if a == [] {
      assert a + b == b;
    } else {
      assert (a + b)[0] == a[0] && (a + b)[1..] == a[1..] + b;
      RemoveControlAppend(a[1..], b);
    }
  }

  /** On one character RemoveControl drops a control character and keeps any other. */
  lemma RemoveControlChar(c: char)
    ensures IsControl(c) ==> RemoveControl([c]) == []
    ensures !IsControl(c) ==> RemoveControl([c]) == [c]
  {
    assert [c][1..] == [];
  }

  /** The character each curly quote becomes: ’ and ‘ turn into ', “ and ” into ". */
  function AsciiQuote(c: char): char {
    if c == '\U{2019}' || c == '\U{2018}' then '\''
    else if c == '\U{201c}' || c == '\U{201d}' then '"'
    else c
  }

  /** The four chained str.replace calls for the curly quotes. */
  function ReplaceQuotes(s: string): string {
    Replace(Replace(Replace(Replace(s, "\U{2019}", "'"), "\U{2018}", "'"), "\U{201c}", "\""), "\U{201d}", "\"")
  }

  /** The four replacements map every character through AsciiQuote and keep the length. */
  lemma ReplaceQuotesMapsChars(s: string)
    ensures |ReplaceQuotes(s)| == |s|
    ensures forall i :: 0 <= i < |s| ==> ReplaceQuotes(s)[i] == AsciiQuote(s[i])
  {
    var s1 := Replace(s, "\U{2019}", "'");
    var s2 := Replace(s1, "\U{2018}", "'");
    var s3 := Replace(s2, "\U{201c}", "\"");
    ReplaceCharByChar(s, '\U{2019}', '\'');
    ReplaceCharByChar(s1, '\U{2018}', '\'');
    ReplaceCharByChar(s2, '\U{201c}', '"');
    ReplaceCharByChar(s3, '\U{201d}', '"');
  }

  /** Replacing one character by an ASCII quote adds no control character and no curly quote. */
  lemma ReplaceOneQuote(s: string, c: char, q: string)
    requires IsCurlyQuote(c) && (q == "'" || q == "\"")
    ensures forall i :: 0 <= i < |Replace(s, [c], q)| ==>
              var x := Replace(s, [c], q)[i];
              x != c && (x in s || x in q)
  {
    ReplaceCharSources(s, c, q);
  }

  lemma QuotesReplaced(s: string)
    requires forall i :: 0 <= i < |s| ==> !IsControl(s[i])
    ensures forall i :: 0 <= i < |ReplaceQuotes(s)| ==> !IsControl(ReplaceQuotes(s)[i]) && !IsCurlyQuote(ReplaceQuotes(s)[i])
  {
    var s1 := Replace(s, "\U{2019}", "'");
    var s2 := Replace(s1, "\U{2018}", "'");
    var s3 := Replace(s2, "\U{201c}", "\"");
    var s4 := Replace(s3, "\U{201d}", "\"");
    ReplaceOneQuote(s, '\U{2019}', "'");
    ReplaceOneQuote(s1, '\U{2018}', "'");
    ReplaceOneQuote(s2, '\U{201c}', "\"");
    ReplaceOneQuote(s3, '\U{201d}', "\"");
    assert forall i :: 0 <= i < |s1| ==> !IsControl(s1[i]) && s1[i] != '\U{2019}';
    assert forall i :: 0 <= i < |s2| ==> !IsControl(s2[i]) && s2[i] != '\U{2019}' && s2[i] != '\U{2018}';
    assert forall i :: 0 <= i < |s3| ==> !IsControl(s3[i]) && s3[i] != '\U{2019}' && s3[i] != '\U{2018}' && s3[i] != '\U{201c}';
  }

  lemma QuotesAbsent(s: string)
    requires forall i :: 0 <= i < |s| ==> !IsCurlyQuote(s[i])
    ensures ReplaceQuotes(s) == s
  {
    ReplaceAbsent(s, "\U{2019}", "'");
    ReplaceAbsent(s, "\U{2018}", "'");
    ReplaceAbsent(s, "\U{201c}", "\"");
    ReplaceAbsent(s, "\U{201d}", "\"");
  }

  /**
   * clean_string without its Unicode normalisation: "" for an empty input;
   * otherwise no control character, no curly quote, and no whitespace at
   * either end.
   */
  function CleanString(s: string): (r: string)
    ensures s == "" ==> r == ""
    ensures forall i :: 0 <= i < |r| ==> !IsControl(r[i]) && !IsCurlyQuote(r[i])
    ensures r == [] || (!IsSpace(r[0]) && !IsSpace(r[|r| - 1]))
  {
    if s == "" then ""
    else
      var t := ReplaceQuotes(RemoveControl(s));
      QuotesReplaced(RemoveControl(s));
      var r := Strip(t);
      assert forall i :: 0 <= i < |r| ==> r[i] in t by {
        forall i | 0 <= i < |r| ensures r[i] in t {
          StripKeeps(t, r[i]);
        }
      }
      r
  }

  /**
   * What clean_string computes: the control characters are dropped, the
   * others kept in order (RemoveControlAppend, RemoveControlChar), each
   * curly quote becomes its ASCII quote, and the ends are stripped.
   */
  lemma CleanStringSteps(s: string)
    ensures var t := RemoveControl(s);
            |ReplaceQuotes(t)| == |t|
            && (forall i :: 0 <= i < |t| ==> ReplaceQuotes(t)[i] == AsciiQuote(t[i]))
            && CleanString(s) == Strip(ReplaceQuotes(t))
  {
    ReplaceQuotesMapsChars(RemoveControl(s));
    if s == "" {
      assert RemoveControl(s) == [];
      assert ReplaceQuotes([]) == [];
      assert AllSpace([]);
    }
  }

  /** Text that is already clean (no control character, no curly quote, no whitespace at the ends) is left as it is. */
  lemma CleanKeepsCleanText(s: string)
    requires forall i :: 0 <= i < |s| ==> !IsControl(s[i]) && !IsCurlyQuote(s[i])
    requires s == [] || (!IsSpace(s[0]) && !IsSpace(s[|s| - 1]))
    ensures CleanString(s) == s
  {
    if s != "" {
      assert RemoveControl(s) == s;
      QuotesAbsent(s);
      StripStripped(s);
    }
  }

  /** Cleaning a cleaned string changes nothing. */
  lemma CleanIdempotent(s: string)
    ensures CleanString(CleanString(s)) == CleanString(s)
  {
    CleanKeepsCleanText(CleanString(s));
  }

  /** One track of the playlist export; a missing key or a null reads as "". */
  datatype Entry = Entry(artistName: string, artist: string, albumName: string, album: string)

  /** entry.get('artist_name') or entry.get('artist') or '' */
  function RawArtist(e: Entry): string {
    if e.artistName != "" then e.artistName else e.artist
  }

  /** entry.get('album_name') or entry.get('album') or '' */
  function RawAlbum(e: Entry): string {
    if e.albumName != "" then e.albumName else e.album
  }

  /** Entries without an album or without an artist join no group. */
  predicate Skipped(e: Entry) {
    RawAlbum(e) == "" || RawArtist(e) == ""
  }

  function DisplayArtist(e: Entry): string {
    CleanString(BeforeFirst(RawArtist(e), ','))
  }

  function DisplayAlbum(e: Entry): string {
    CleanString(RawAlbum(e))
  }

  datatype Key = Key(artist: string, album: string)

  /** The grouping key: the cleaned primary artist and album, lower-cased. */
  function KeyOf(e: Entry): Key {
    Key(Lower(DisplayArtist(e)), Lower(DisplayAlbum(e)))
  }

  /** One value of the albums dict (and, when its lookup fails, one failed match). */
  datatype AlbumGroup = AlbumGroup(artist: string, album: string, tracks: seq<Entry>)

  /** The entries of es that belong to group k, in input order. */
  function TracksWithKey(es: seq<Entry>, k: Key): (r: seq<Entry>)
    ensures forall j :: 0 <= j < |r| ==> !Skipped(r[j]) && KeyOf(r[j]) == k
    ensures |r| <= |es|
  {
    if es == [] then []
    else
      var last := es[|es| - 1];
      TracksWithKey(es[..|es| - 1], k) + if !Skipped(last) && KeyOf(last) == k then [last] else []
  }

  /** The entries of es that are not skipped. */
  function Kept(es: seq<Entry>): seq<Entry> {
    if es == [] then []
    else Kept(es[..|es| - 1]) + if Skipped(es[|es| - 1]) then [] else [es[|es| - 1]]
  }

  /** The group keys in the order that their first entry appears: the dict's iteration order. */
  function SeenKeys(es: seq<Entry>): seq<Key> {
    if es == [] then []
    else
      var last := es[|es| - 1];
      var seen := SeenKeys(es[..|es| - 1]);
      if Skipped(last) || KeyOf(last) in seen then seen else seen + [KeyOf(last)]
  }

  predicate Distinct<T(==)>(s: seq<T>) {
    forall i, j :: 0 <= i < j < |s| ==> s[i] != s[j]
  }

  /** A key is seen exactly when some kept entry has it; no key is seen twice. */
  lemma {:induction false} SeenKeysMeaning(es: seq<Entry>)
    ensures Distinct(SeenKeys(es))
    ensures forall k :: k in SeenKeys(es) <==> TracksWithKey(es, k) != []
  {
    if es != [] {
      var init := es[..|es| - 1];
      var e := es[|es| - 1];
      assert es == init + [e];
      SeenKeysMeaning(init);
      AddEntry(init, e);
    }
  }

  /** How the keys and the groups change when one more entry is read. */
  lemma AddEntry(es: seq<Entry>, e: Entry)
    ensures SeenKeys(es + [e]) == if Skipped(e) || KeyOf(e) in SeenKeys(es) then SeenKeys(es) else SeenKeys(es) + [KeyOf(e)]
    ensures forall k :: TracksWithKey(es + [e], k) == TracksWithKey(es, k) + if !Skipped(e) && KeyOf(e) == k then [e] else []
  {
    assert (es + [e])[..|es|] == es;
  }

  /**
   * order lists the keys of es in first-seen order, and albums maps each of
   * them to the group holding all entries with that key, in input order,
   * with display names taken from the first of them.
   */
  ghost predicate GroupedBy(es: seq<Entry>, order: seq<Key>, albums: map<Key, AlbumGroup>) {
    && order == SeenKeys(es)
    && (forall k :: k in albums <==> k in order)
    && (forall k :: k in albums ==>
          && albums[k].tracks == TracksWithKey(es, k)
          && albums[k].tracks != []
          && albums[k].artist == DisplayArtist(albums[k].tracks[0])
          && albums[k].album == DisplayAlbum(albums[k].tracks[0]))
  }

  /** A skipped entry changes neither the keys nor the groups. */
  lemma SkipStep(es: seq<Entry>, e: Entry, order: seq<Key>, albums: map<Key, AlbumGroup>)
    requires GroupedBy(es, order, albums) && Skipped(e)
    ensures GroupedBy(es + [e], order, albums)
  {
    AddEntry(es, e);
  }

  /** A kept entry with a new key opens that key's group at the end, holding the entry alone. */
  lemma NewKeyGroup(es: seq<Entry>, e: Entry, order: seq<Key>, albums: map<Key, AlbumGroup>)
    requires GroupedBy(es, order, albums) && !Skipped(e) && KeyOf(e) !in albums
    ensures GroupedBy(es + [e], order + [KeyOf(e)], albums[KeyOf(e) := AlbumGroup(DisplayArtist(e), DisplayAlbum(e), [e])])
  {
    var k := KeyOf(e);
    var order' := order + [k];
    var albums' := albums[k := AlbumGroup(DisplayArtist(e), DisplayAlbum(e), [e])];
    AddEntry(es, e);
    SeenKeysMeaning(es);
    assert TracksWithKey(es, k) == [];
    assert order' == SeenKeys(es + [e]);
    assert forall x :: x in albums' <==> x in order';
    forall x | x in albums'
      ensures && albums'[x].tracks == TracksWithKey(es + [e], x)
              && albums'[x].tracks != []
              && albums'[x].artist == DisplayArtist(albums'[x].tracks[0])
              && albums'[x].album == DisplayAlbum(albums'[x].tracks[0])
    {
      if x == k {
        assert albums'[x].tracks == [] + [e];
      }
    }
    assert GroupedBy(es + [e], order', albums');
  }

  /** Opening an empty group and appending one entry to it gives the group of that entry alone. */
  lemma OpenThenAppend(m: map<Key, AlbumGroup>, k: Key, artist: string, album: string, e: Entry)
    ensures var withNew := m[k := AlbumGroup(artist, album, [])];
            withNew[k := withNew[k].(tracks := withNew[k].tracks + [e])] == m[k := AlbumGroup(artist, album, [e])]
  {
    assert [] + [e] == [e];
  }

  /**
   * A kept entry with a new key opens an empty group for that key at the end
   * of the dict, and then joins it.
   */
  lemma NewKeyStep(es: seq<Entry>, e: Entry, order: seq<Key>, albums: map<Key, AlbumGroup>)
    requires GroupedBy(es, order, albums) && !Skipped(e) && KeyOf(e) !in albums
    ensures var withNew := albums[KeyOf(e) := AlbumGroup(DisplayArtist(e), DisplayAlbum(e), [])];
            GroupedBy(es + [e], order + [KeyOf(e)],
                      withNew[KeyOf(e) := withNew[KeyOf(e)].(tracks := withNew[KeyOf(e)].tracks + [e])])
  {
    NewKeyGroup(es, e, order, albums);
    OpenThenAppend(albums, KeyOf(e), DisplayArtist(e), DisplayAlbum(e), e);
  }

  /** A kept entry with a known key joins the end of that key's group. */
  lemma OldKeyStep(es: seq<Entry>, e: Entry, order: seq<Key>, albums: map<Key, AlbumGroup>)
    requires GroupedBy(es, order, albums) && !Skipped(e) && KeyOf(e) in albums
    ensures GroupedBy(es + [e], order, albums[KeyOf(e) := albums[KeyOf(e)].(tracks := albums[KeyOf(e)].tracks + [e])])
  {
    var k := KeyOf(e);
    var albums' := albums[k := albums[k].(tracks := albums[k].tracks + [e])];
    AddEntry(es, e);
    assert order == SeenKeys(es + [e]);
    forall x | x in albums'
      ensures && albums'[x].tracks == TracksWithKey(es + [e], x)
              && albums'[x].tracks != []
              && albums'[x].artist == DisplayArtist(albums'[x].tracks[0])
              && albums'[x].album == DisplayAlbum(albums'[x].tracks[0])
    {
      if x == k {
        assert (albums[k].tracks + [e])[0] == albums[k].tracks[0];
      }
    }
    assert GroupedBy(es + [e], order, albums');
  }

  /**
   * The module-level grouping loop. `order` is the insertion order of the
   * albums dict; each group holds all entries with its key, in input order,
   * and takes its display artist and album from the first of them.
   */
  method GroupAlbums(entries: seq<Entry>) returns (order: seq<Key>, albums: map<Key, AlbumGroup>)
    ensures order == SeenKeys(entries)
    ensures forall k :: k in albums <==> k in order
    ensures forall k :: k in albums ==>
              && albums[k].tracks == TracksWithKey(entries, k)
              && albums[k].tracks != []
              && albums[k].artist == DisplayArtist(albums[k].tracks[0])
              && albums[k].album == DisplayAlbum(albums[k].tracks[0])
  {
    order, albums := [], map[];
    var i := 0;
    while i < |entries|
      invariant 0 <= i <= |entries|
      invariant GroupedBy(entries[..i], order, albums)
    {
      var entry := entries[i];
      assert entries[..i + 1] == entries[..i] + [entry];
      var artistRaw := RawArtist(entry);
      var albumRaw := RawAlbum(entry);
      if albumRaw == "" || artistRaw == "" {
        SkipStep(entries[..i], entry, order, albums);
      } else {
        var primaryArtist := CleanString(BeforeFirst(artistRaw, ','));
        var album := CleanString(albumRaw);
        var key := Key(Lower(primaryArtist), Lower(album));
        assert key == KeyOf(entry);
        if key !in albums {
          NewKeyStep(entries[..i], entry, order, albums);
          albums := albums[key := AlbumGroup(primaryArtist, album, [])];
          order := order + [key];
        } else {
          OldKeyStep(entries[..i], entry, order, albums);
        }
        albums := albums[key := albums[key].(tracks := albums[key].tracks + [entry])];
      }
      i := i + 1;
    }
    assert entries[..i] == entries;
  }

  /** The total number of tracks in the groups named by keys. */
  function GroupSizes(keys: seq<Key>, es: seq<Entry>): nat {
    if keys == [] then 0 else GroupSizes(keys[..|keys| - 1], es) + |TracksWithKey(es, keys[|keys| - 1])|
  }

  /** Adding one entry grows exactly the group of its key, by one. */
  lemma {:induction false} GroupSizesGrow(keys: seq<Key>, es: seq<Entry>, e: Entry)
    requires Distinct(keys)
    ensures GroupSizes(keys, es + [e]) == GroupSizes(keys, es) + if !Skipped(e) && KeyOf(e) in keys then 1 else 0
  {
    assert (es + [e])[..|es|] == es;
    if keys != [] {
      var init := keys[..|keys| - 1];
      assert Distinct(init);
      GroupSizesGrow(init, es, e);
      assert KeyOf(e) in keys <==> KeyOf(e) in init || KeyOf(e) == keys[|keys| - 1];
      assert KeyOf(e) == keys[|keys| - 1] ==> KeyOf(e) !in init;
    }
  }

  /** The groups together hold every entry that is not skipped, and nothing else. */
  lemma {:induction false} GroupSizesSum(es: seq<Entry>)
    ensures GroupSizes(SeenKeys(es), es) == |Kept(es)|
  {
    if es != [] {
      var init := es[..|es| - 1];
      var e := es[|es| - 1];
      assert es == init + [e];
      GroupSizesSum(init);
      SeenKeysMeaning(init);
      GroupSizesGrow(SeenKeys(init), init, e);
      if !Skipped(e) && KeyOf(e) !in SeenKeys(init) {
        assert TracksWithKey(init, KeyOf(e)) == [];
        assert SeenKeys(es) == SeenKeys(init) + [KeyOf(e)];
        assert SeenKeys(es)[..|SeenKeys(es)| - 1] == SeenKeys(init);
      }
    }
  }

  /** releasegroup:"<album>" */
  function ReleaseGroupTerm(album: string): string {
    "releasegroup:\"" + album + "\""
  }

  /** artist:"<artist>" */
  function ArtistTerm(artist: string): string {
    "artist:\"" + artist + "\""
  }

  /**
   * The search string of query_mb_releasegroup: the album term and the
   * artist term joined by " AND ", an empty part left out, and None when
   * both are empty.
   */
  function QueryString(artist: string, album: string): (q: Option<string>)
    ensures q.None? <==> artist == "" && album == ""
    ensures album != "" && artist != "" ==> q == Some(ReleaseGroupTerm(album) + " AND " + ArtistTerm(artist))
    ensures album != "" && artist == "" ==> q == Some(ReleaseGroupTerm(album))
    ensures album == "" && artist != "" ==> q == Some(ArtistTerm(artist))
  {
    var parts := (if album != "" then [ReleaseGroupTerm(album)] else [])
               + (if artist != "" then [ArtistTerm(artist)] else []);
    JoinTwo(ReleaseGroupTerm(album), ArtistTerm(artist), " AND ");
    var query := Join(parts, " AND ");
    if query == "" then None else Some(query)
  }

  /** A release-group id counts as found when it is there and not empty. */
  predicate Found(id: Option<string>) {
    id.Some? && id.value != ""
  }

  /**
   * query_mb_releasegroup: MusicBrainz answers a search string with the id
   * of its first release group, or None when it finds nothing or the request
   * fails; no request is made for an empty search.
   */
  function QueryReleaseGroup(musicBrainz: string -> Option<string>, artist: string, album: string): Option<string> {
    match QueryString(artist, album)
    case None => None
    case Some(q) => musicBrainz(q)
  }

  /** The id a group ends up with, and the (artist, album) pairs it was looked up with. */
  datatype Resolution = Resolution(id: Option<string>, lookups: seq<(string, string)>)

  /**
   * The first lookup and its fallback: the album-only retry happens exactly
   * when the first lookup found nothing and the artist is not empty.
   */
  function ResolveGroup(musicBrainz: string -> Option<string>, artist: string, album: string): (r: Resolution)
    ensures 1 <= |r.lookups| <= 2 && r.lookups[0] == (artist, album)
    ensures |r.lookups| == 2 <==> !Found(QueryReleaseGroup(musicBrainz, artist, album)) && artist != ""
    ensures |r.lookups| == 2 ==> r.lookups[1] == ("", album) && r.id == QueryReleaseGroup(musicBrainz, "", album)
    ensures |r.lookups| == 1 ==> r.id == QueryReleaseGroup(musicBrainz, artist, album)
  {
    var first := QueryReleaseGroup(musicBrainz, artist, album);
    if !Found(first) && artist != "" then
      Resolution(QueryReleaseGroup(musicBrainz, "", album), [(artist, album), ("", album)])
    else
      Resolution(first, [(artist, album)])
  }

  /** The ids written to the release-group file, in group order. */
  function FoundIds(musicBrainz: string -> Option<string>, groups: seq<AlbumGroup>): (r: seq<string>)
    ensures forall j :: 0 <= j < |r| ==> r[j] != ""
  {
    if groups == [] then []
    else
      var g := groups[|groups| - 1];
      var id := ResolveGroup(musicBrainz, g.artist, g.album).id;
      FoundIds(musicBrainz, groups[..|groups| - 1]) + if Found(id) then [id.value] else []
  }

  /** The groups written to the failed-matches file, in group order. */
  function FailedGroups(musicBrainz: string -> Option<string>, groups: seq<AlbumGroup>): (r: seq<AlbumGroup>)
    ensures forall j :: 0 <= j < |r| ==> !Found(ResolveGroup(musicBrainz, r[j].artist, r[j].album).id)
  {
    if groups == [] then []
    else
      var g := groups[|groups| - 1];
      var id := ResolveGroup(musicBrainz, g.artist, g.album).id;
      FailedGroups(musicBrainz, groups[..|groups| - 1]) + if Found(id) then [] else [g]
  }

  /** Every group lands in exactly one of the two files. */
  lemma {:induction false} LookupPartition(musicBrainz: string -> Option<string>, groups: seq<AlbumGroup>)
    ensures |FoundIds(musicBrainz, groups)| + |FailedGroups(musicBrainz, groups)| == |groups|
  {
    if groups != [] {
      LookupPartition(musicBrainz, groups[..|groups| - 1]);
    }
  }

  /** The lookup loop over the groups, in the dict's order. */
  method LookupGroups(musicBrainz: string -> Option<string>, groups: seq<AlbumGroup>)
    returns (result: seq<string>, failedMatches: seq<AlbumGroup>, count: nat)
    ensures result == FoundIds(musicBrainz, groups)
    ensures failedMatches == FailedGroups(musicBrainz, groups)
    ensures count == |groups| == |result| + |failedMatches|
  {
    result, failedMatches, count := [], [], 0;
    while count < |groups|
      invariant count <= |groups|
      invariant result == FoundIds(musicBrainz, groups[..count])
      invariant failedMatches == FailedGroups(musicBrainz, groups[..count])
    {
      var info := groups[count];
      assert groups[..count + 1][..count] == groups[..count] && groups[..count + 1][count] == info;
      var mbId := QueryReleaseGroup(musicBrainz, info.artist, info.album);
      if !Found(mbId) && info.artist != "" {
        mbId := QueryReleaseGroup(musicBrainz, "", info.album);
      }
      if Found(mbId) {
        result := result + [mbId.value];
      } else {
        failedMatches := failedMatches + [AlbumGroup(info.artist, info.album, info.tracks)];
      }
      count := count + 1;
    }
    assert groups[..count] == groups;
    LookupPartition(musicBrainz, groups);
  }

  /** The groups of the albums dict in its iteration order. */
  function GroupsInOrder(order: seq<Key>, albums: map<Key, AlbumGroup>): (r: seq<AlbumGroup>)
    requires forall k :: k in order ==> k in albums
    ensures |r| == |order|
    ensures forall j :: 0 <= j < |order| ==> r[j] == albums[order[j]]
  {
    seq(|order|, j requires 0 <= j < |order| => albums[order[j]])
  }

  /** The group of a key: display names from its first entry, and all its entries. */
  function GroupOf(es: seq<Entry>, k: Key): AlbumGroup {
    var tracks := TracksWithKey(es, k);
    if tracks == [] then AlbumGroup("", "", [])
    else AlbumGroup(DisplayArtist(tracks[0]), DisplayAlbum(tracks[0]), tracks)
  }

  /** The albums dict's values in its iteration order: one group per first-seen key. */
  function AlbumGroups(es: seq<Entry>): seq<AlbumGroup> {
    seq(|SeenKeys(es)|, j requires 0 <= j < |SeenKeys(es)| => GroupOf(es, SeenKeys(es)[j]))
  }

  /** The dict's values in insertion order are the first-seen groups. */
  lemma OrderedGroups(es: seq<Entry>, order: seq<Key>, albums: map<Key, AlbumGroup>)
    requires GroupedBy(es, order, albums)
    ensures GroupsInOrder(order, albums) == AlbumGroups(es)
  {
    forall j | 0 <= j < |order|
      ensures albums[order[j]] == GroupOf(es, order[j])
    {
      assert order[j] in albums;
    }
  }

  /** Every first-seen group holds exactly the entries of one key. */
  lemma AlbumGroupsOfEntries(es: seq<Entry>)
    ensures forall g :: g in AlbumGroups(es) ==> GroupOfEntries(es, g)
  {
    forall g | g in AlbumGroups(es)
      ensures GroupOfEntries(es, g)
    {
      var n :| 0 <= n < |AlbumGroups(es)| && AlbumGroups(es)[n] == g;
      var k := SeenKeys(es)[n];
      assert g.tracks == TracksWithKey(es, k);
    }
  }

  /**
   * The whole script between reading the export and writing the two files:
   * every first-seen (artist, album) group is looked up and reported in
   * exactly one of the outputs.
   */
  method ProcessPlaylist(musicBrainz: string -> Option<string>, entries: seq<Entry>)
    returns (result: seq<string>, failedMatches: seq<AlbumGroup>)
    ensures result == FoundIds(musicBrainz, AlbumGroups(entries))
    ensures failedMatches == FailedGroups(musicBrainz, AlbumGroups(entries))
    ensures |result| + |failedMatches| == |SeenKeys(entries)|
    ensures forall j :: 0 <= j < |result| ==> result[j] != ""
    ensures forall j :: 0 <= j < |failedMatches| ==> GroupOfEntries(entries, failedMatches[j])
  {
    var order, albums := GroupAlbums(entries);
    OrderedGroups(entries, order, albums);
    var groups := GroupsInOrder(order, albums);
    var count;
    result, failedMatches, count := LookupGroups(musicBrainz, groups);
    FailedAreGroups(musicBrainz, groups);
    AlbumGroupsOfEntries(entries);
  }

  /** g is the group of some key: it holds exactly the entries with that key. */
  ghost predicate GroupOfEntries(es: seq<Entry>, g: AlbumGroup) {
    exists k :: g.tracks == TracksWithKey(es, k)
  }

  lemma {:induction false} FailedAreGroups(musicBrainz: string -> Option<string>, groups: seq<AlbumGroup>)
    ensures forall g :: g in FailedGroups(musicBrainz, groups) ==> g in groups
  {
    if groups != [] {
      var init := groups[..|groups| - 1];
      FailedAreGroups(musicBrainz, init);
      assert groups == init + [groups[|groups| - 1]];
    }
  }
}
