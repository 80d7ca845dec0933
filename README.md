# Spotify-to-Navidrome/Lidarr helper scripts, modelled in Dafny

The repository moves a Spotify library into a self-hosted music setup with four
scripts. This project models the computational core of each one and proves
properties about it.

- **Track search and M3U export** (`scripts/spoti_playlist_to_m3u.py`).
  - Each Spotify track (title and comma-joined artist list) is resolved against
    Navidrome's `media_file` table by three ordered SQL strategies:
    1. exact title plus one of four artist patterns;
    2. title substring plus an artist pattern;
    3. a `full_text` fallback.
  - The M3U text is the joined line buffer `#EXTM3U`, `#PLAYLIST:<name>`, then an
    `#EXTINF` line and a `/music/<path>` line per matched track.
  - Unmatched tracks go to a failure list with a reason.
  - Modules: `TrackSearch`, `M3uExport`, `SqlLike` (the `LIKE` matcher).
- **Album grouping** (`scripts/process_spotify_mb.py`).
  - The exported tracks are cleaned and grouped by (primary artist, album) in
    first-seen order.
  - Each group is looked up on MusicBrainz, with an album-only retry.
  - Each group lands either in the release-group id list or in the failed
    matches.
  - Module: `AlbumGrouping`.
- **Lidarr sync** (`scripts/mb_lidarr_sync.py`).
  - Pass one finds the artist of every release group and adds each artist to
    Lidarr at most once.
  - Pass two adds every album, or re-monitors it and searches for it, and counts
    added, existing and failed albums.
  - Modules: `LidarrSync`, and `Json` (decoded JSON values with Python
    truthiness).
- **Liked-songs chopper** (`spotify_liked_chopper.py`).
  - All liked track ids are read page by page.
  - They are spread over playlists of at most 500 tracks named
    `All My Liked Songs <k>`, each filled by add calls of at most 100.
  - Module: `LikedChopper`.

`Text` holds the Python string operations the scripts use: `lower`, `strip`,
`split`, `join`, `replace` and decimal `str(int)`. `Wrappers` holds `Option`.

How the model stands in for the environment:

- **Database.** The Navidrome database is a sequence of rows. A `LIMIT 1` query
  without `ORDER BY` is taken to return the first qualifying row in sequence
  order. A NULL column reads as the empty string.
- **Network and files.** Every network exchange is a function parameter: a
  MusicBrainz search, the Lidarr lookups and posts, the Spotify pages. A file
  read becomes an input value. A write is the returned text or list.
- **Library search.** The M3U loop (`M3uExport.MatchTracks`) takes the search
  as a function, as the script hands its open connection to
  `navidrome_search_track_db`. `GenerateM3U` passes it the search over the
  table, `LibrarySearch`, and the lemmas about path lines hold for any search
  that answers only with table rows.
- **Imperative code.** Each loop that builds state step by step in the scripts
  is a Dafny `method` with a loop. Each such method is proved equal to a
  recursive specification function, and the properties the scripts promise are
  lemmas about those functions.

## Model

| member | source | states |
|---|---|---|
| Text.Lower | scripts/spoti_playlist_to_m3u.py:19-22 | lower-casing keeps the length and lowers each character (ASCII A-Z, as SQLite's LOWER) |
| Text.LowerIdempotent | scripts/spoti_playlist_to_m3u.py:33-34 | lowering twice is lowering once, so `LOWER(?)` of an already lowered pattern changes nothing |
| Text.StripStart | scripts/spoti_playlist_to_m3u.py:15 | the index where `strip` starts: everything before it is whitespace, the character at it is not |
| Text.StripEnd | scripts/spoti_playlist_to_m3u.py:15 | the index where `strip` ends: everything after it is whitespace, the character before it is not |
| Text.Strip | scripts/spoti_playlist_to_m3u.py:15 | the result has no leading or trailing whitespace, is empty exactly when the input is all whitespace, and is otherwise the slice between StripStart and StripEnd |
| Text.StripKeeps | scripts/process_spotify_mb.py:26 | stripping introduces no character that was not in the input |
| Text.StripStripped | scripts/process_spotify_mb.py:26 | a string without leading or trailing whitespace is unchanged by `strip` |
| Text.BeforeFirst | scripts/spoti_playlist_to_m3u.py:15 | `s.split(c)[0]` is a prefix of s without c, followed in s by c unless it is all of s |
| Text.BeforeFirstAbsent | scripts/spoti_playlist_to_m3u.py:50 | without the separator the first split part is the whole string |
| Text.BeforeFirstConcat | scripts/spoti_playlist_to_m3u.py:15 | the first part of a + c + ... is a when a has no c |
| Text.SplitOn | scripts/spoti_playlist_to_m3u.py:177 | Python's `split` on one character yields at least one part and no part contains the separator |
| Text.JoinTwo | scripts/process_spotify_mb.py:78 | joining two parts puts the separator between them |
| Text.Join | scripts/process_spotify_mb.py:78 | `sep.join(parts)`: defined part by part; JoinTwo and SplitJoin state what it produces |
| Text.SplitJoin | scripts/spoti_playlist_to_m3u.py:177 | splitting a joined list of separator-free parts gives the parts back |
| Text.ReplaceAbsent | scripts/spoti_playlist_to_m3u.py:21-22 | `replace` leaves a string alone when the pattern's first character does not occur |
| Text.ReplaceCharSources | scripts/process_spotify_mb.py:24 | after replacing c by rep, every character is either an input character other than c or a character of rep |
| Text.Replace | scripts/spoti_playlist_to_m3u.py:21-22 | `str.replace`: left-to-right, non-overlapping replacement; ReplaceAbsent, ReplaceCharSources and ReplaceCharByChar state what it produces |
| Text.ReplaceCharByChar | scripts/process_spotify_mb.py:24 | replacing one character by one character keeps the length and maps each character, that character to its replacement and every other to itself |
| Text.NatToDecimal | spotify_liked_chopper.py:49 | the decimal rendering is a non-empty string of digits |
| Text.DecimalRoundTrip | spotify_liked_chopper.py:49 | reading the decimal rendering gives the number back |
| Text.DecimalInjective | spotify_liked_chopper.py:49 | different numbers have different decimal renderings |
| SqlLike.Matches | scripts/spoti_playlist_to_m3u.py:34 | the LIKE match of a whole string: `%` takes any run, `_` one character, any other character itself; the lemmas below state what it accepts |
| SqlLike.Like | scripts/spoti_playlist_to_m3u.py:34 | `s LIKE p` compares ASCII case-insensitively: both sides are lowered before matching |
| SqlLike.LiteralPattern | scripts/spoti_playlist_to_m3u.py:33-34 | a pattern without wildcards matches exactly the string equal to it |
| SqlLike.PercentMatchesAll | scripts/spoti_playlist_to_m3u.py:34 | the pattern `%` matches every string |
| SqlLike.PrefixPattern | scripts/spoti_playlist_to_m3u.py:34 | `x%` with x free of wildcards matches exactly the strings starting with x |
| SqlLike.LeadingPercent | scripts/spoti_playlist_to_m3u.py:34 | `%p` matches s exactly when p matches some suffix of s |
| SqlLike.SubstringPattern | scripts/spoti_playlist_to_m3u.py:19-23 | `%x%` with x free of wildcards matches exactly the strings containing x |
| SqlLike.PrefixMatches | scripts/spoti_playlist_to_m3u.py:34 | a string that starts with x matches `x%`, whatever characters x holds |
| SqlLike.ContainsMatches | scripts/spoti_playlist_to_m3u.py:19-23 | a string that contains x matches `%x%`, whatever characters x holds |
| TrackSearch.ArtistPatterns | scripts/spoti_playlist_to_m3u.py:18-23 | exactly four patterns, each wrapped in `%...%` |
| TrackSearch.PrimaryArtist | scripts/spoti_playlist_to_m3u.py:15 | `artist_name.split(',')[0].strip()`; PrimaryArtistShape and PrimaryArtistOfJoined state what it yields |
| TrackSearch.PrimaryArtistShape | scripts/spoti_playlist_to_m3u.py:15 | the primary artist holds no comma and has no whitespace at either end |
| TrackSearch.CoreTitle | scripts/spoti_playlist_to_m3u.py:50 | `track_name.split('(')[0].strip()`; CoreTitleShape and CoreTitleWithoutParenthesis state what it yields |
| TrackSearch.CoreTitleShape | scripts/spoti_playlist_to_m3u.py:50 | the core title holds no `(` and has no whitespace at either end |
| TrackSearch.ExactTitleHit | scripts/spoti_playlist_to_m3u.py:33-34 | the first query's condition: equal titles ignoring case, and the artist or album artist LIKE the pattern; ExactTitleFoundFirst uses it |
| TrackSearch.PartialTitleHit | scripts/spoti_playlist_to_m3u.py:57-58 | the second query's condition: the title LIKE `%<track name>%` or `%<core title>%`, and the artist condition; PartialHitContainsTitle states what a hit means |
| TrackSearch.FullTextHit | scripts/spoti_playlist_to_m3u.py:74-78 | the fallback's condition: full_text LIKE `%<title> <primary artist>%`, lowered; FullTextHitContains states what a hit means |
| TrackSearch.FullTextHitContains | scripts/spoti_playlist_to_m3u.py:74-78 | a row whose lowered full_text holds the lowered title and primary artist passes the fallback; without LIKE wildcards in that text, exactly those rows pass |
| TrackSearch.FirstRow | scripts/spoti_playlist_to_m3u.py:30-38 | a `LIMIT 1` query: the first row satisfying the condition, or None when no row does |
| TrackSearch.FirstPatternHit | scripts/spoti_playlist_to_m3u.py:29-47 | the loop over the patterns: the earliest pattern with a row and the first row for it; no earlier pattern has any row; None when no pattern has a row |
| TrackSearch.Cascade | scripts/spoti_playlist_to_m3u.py:28-93 | the hit satisfies its strategy and is the first row for it; earlier strategies and patterns found nothing; an exact-title row anywhere forces an exact-title result; None exactly when all three strategies find nothing |
| TrackSearch.SearchTrack | scripts/spoti_playlist_to_m3u.py:10-93 | None exactly when no strategy finds a row, otherwise the columns of one table row |
| TrackSearch.PrimaryArtistOfJoined | scripts/spoti_playlist_to_m3u.py:15 | for an artist list built by `', '.join(names)` the primary artist is `names[0].strip()` when names[0] has no comma |
| TrackSearch.SingleArtistPatterns | scripts/spoti_playlist_to_m3u.py:18-23 | without a comma, patterns 1, 3 and 4 coincide and pattern 2 is the stripped name |
| TrackSearch.CoreTitleWithoutParenthesis | scripts/spoti_playlist_to_m3u.py:50 | without `(` the core title is the stripped title |
| TrackSearch.LikeSubstring | scripts/spoti_playlist_to_m3u.py:26 | a lowered column LIKE `%<lowered x>%` holds exactly when it contains the lowered x |
| TrackSearch.ContainsLike | scripts/spoti_playlist_to_m3u.py:19-34 | a lowered column holding the lowered x passes LIKE `%x%`, whatever x holds |
| TrackSearch.PartialHitContainsTitle | scripts/spoti_playlist_to_m3u.py:53-71 | a step-two hit's artist or album artist passes LIKE with the pattern it was found with; when neither the lowered track name nor the lowered core title holds a LIKE wildcard, its lowered title contains one of them |
| TrackSearch.ExactTitleFoundFirst | scripts/spoti_playlist_to_m3u.py:29-47 | a row with the exact title whose artist contains the primary artist, whatever characters it holds, makes the search end in step one |
| M3uExport.Seconds | scripts/spoti_playlist_to_m3u.py:127 | `int(ms / 1000)` is the quotient rounded toward zero: within one second below ms for ms >= 0, within one second above it for ms < 0 |
| M3uExport.ExtInf | scripts/spoti_playlist_to_m3u.py:136 | the line starts with `#EXTINF:` and has no line break when the names have none |
| M3uExport.Resolve | scripts/spoti_playlist_to_m3u.py:129-151 | "No match found in database" exactly when the search finds nothing, "No file path found" exactly when the hit's path is empty; otherwise the EXTINF line and `/music/` followed by a non-empty row path |
| M3uExport.Classify | scripts/spoti_playlist_to_m3u.py:129-151 | on the search's answer: "No match found in database" exactly when there is none, "No file path found" exactly when its path is empty, an entry exactly otherwise, with the EXTINF line and `/music/` followed by that path |
| M3uExport.TrackOutcome | scripts/spoti_playlist_to_m3u.py:129-151 | the loop body for one track: Classify applied to the search's answer for its title and artist string |
| M3uExport.LibraryAnswersFrom | scripts/spoti_playlist_to_m3u.py:10-93 | the library search answers only with songs made from rows of the `media_file` table |
| M3uExport.EntryFromTable | scripts/spoti_playlist_to_m3u.py:130-139 | for a search that answers from the table, a matched track's path line is `/music/` followed by the non-empty path of a table row |
| M3uExport.Step | scripts/spoti_playlist_to_m3u.py:124-153 | one more track appends exactly its lines, its failure and its match to the buffers |
| M3uExport.MatchTracks | scripts/spoti_playlist_to_m3u.py:124-153 | the loop stops at the first track whose duration is not a number; otherwise it ends with the header and every matched track's lines in the buffer, every failure in the report, the match count and all tracks processed |
| M3uExport.GenerateM3U | scripts/spoti_playlist_to_m3u.py:95-177 | an unopenable database or a non-numeric duration returns early, an empty list crashes in the summary, and otherwise the text is the newline join of the line buffer, with the failures, the match count and all tracks processed |
| M3uExport.PlaylistLineCount | scripts/spoti_playlist_to_m3u.py:108 | the buffer holds 2 + 2 * matched lines |
| M3uExport.EveryTrackAccounted | scripts/spoti_playlist_to_m3u.py:124-153 | matched + number of failures == number of tracks |
| M3uExport.EntryLineShape | scripts/spoti_playlist_to_m3u.py:130-139 | the j-th matched track contributes an `#EXTINF:` line followed by `/music/` and the non-empty path of a table row |
| M3uExport.FailureReasons | scripts/spoti_playlist_to_m3u.py:140-151 | every failure's reason is one of the two code strings |
| M3uExport.OutcomeWithoutBreaks | scripts/spoti_playlist_to_m3u.py:130-139 | a track's lines have no line break when its names and the library paths have none |
| M3uExport.NoBreakInEntries | scripts/spoti_playlist_to_m3u.py:130-139 | no entry line holds a line break under the same conditions |
| M3uExport.PlaylistReadsBack | scripts/spoti_playlist_to_m3u.py:177 | splitting the written text at newlines gives the line buffer back |
| AlbumGrouping.RemoveControl | scripts/process_spotify_mb.py:22 | no character in U+0000-U+001F or U+007F-U+009F remains, every remaining character comes from the input, and text without such characters is unchanged |
| AlbumGrouping.RemoveControlAppend | scripts/process_spotify_mb.py:22 | removal works piecewise: cleaning a + b is cleaning a followed by cleaning b |
| AlbumGrouping.RemoveControlChar | scripts/process_spotify_mb.py:22 | one control character is dropped, any other character is kept; with RemoveControlAppend, the non-control characters are kept in order |
| AlbumGrouping.ReplaceOneQuote | scripts/process_spotify_mb.py:24 | replacing one curly quote removes it and brings in only an ASCII quote |
| AlbumGrouping.ReplaceQuotes | scripts/process_spotify_mb.py:24 | the four chained `replace` calls; ReplaceQuotesMapsChars states what they produce |
| AlbumGrouping.ReplaceQuotesMapsChars | scripts/process_spotify_mb.py:24 | the length is kept and each character becomes its AsciiQuote: ’ and ‘ turn into `'`, “ and ” into `"`, every other character stays |
| AlbumGrouping.QuotesReplaced | scripts/process_spotify_mb.py:24 | after the four replacements no curly quote and no control character remains |
| AlbumGrouping.QuotesAbsent | scripts/process_spotify_mb.py:24 | text without curly quotes is unchanged by the replacements |
| AlbumGrouping.CleanString | scripts/process_spotify_mb.py:16-27 | "" for empty input; no control characters, no curly quotes, no leading or trailing whitespace |
| AlbumGrouping.CleanStringSteps | scripts/process_spotify_mb.py:16-27 | the cleaned text is the strip of the control-free text with every curly quote mapped to its ASCII quote, character by character |
| AlbumGrouping.CleanKeepsCleanText | scripts/process_spotify_mb.py:16-27 | text with no control character, no curly quote and no whitespace at the ends is returned unchanged |
| AlbumGrouping.CleanIdempotent | scripts/process_spotify_mb.py:16-27 | cleaning twice is cleaning once |
| AlbumGrouping.TracksWithKey | scripts/process_spotify_mb.py:45-63 | the entries of a group are kept entries carrying its key |
| AlbumGrouping.KeyOf | scripts/process_spotify_mb.py:54 | the key `(primary_artist.lower(), album.lower())` of the cleaned names; TracksWithKey, GroupAlbums and SeenKeysMeaning state how entries are grouped by it |
| AlbumGrouping.SeenKeysMeaning | scripts/process_spotify_mb.py:54-60 | the dict's keys are distinct and are exactly the keys of some kept entry |
| AlbumGrouping.AddEntry | scripts/process_spotify_mb.py:44-63 | a new entry adds its key at the end when first seen, and joins exactly its own key's track list unless skipped |
| AlbumGrouping.SkipStep | scripts/process_spotify_mb.py:44-48 | a skipped entry leaves the key order and the groups as they were |
| AlbumGrouping.NewKeyStep | scripts/process_spotify_mb.py:54-63 | an entry with an unseen key opens an empty group for it at the end of the dict and then joins it; the dict still groups all entries seen so far |
| AlbumGrouping.OldKeyStep | scripts/process_spotify_mb.py:54-63 | an entry with a known key joins the end of that key's group; the dict still groups all entries seen so far |
| AlbumGrouping.GroupAlbums | scripts/process_spotify_mb.py:44-63 | the dict's keys in insertion order are the first-seen keys; each group holds all entries with its key in input order and takes its display artist and album from the first |
| AlbumGrouping.GroupSizesGrow | scripts/process_spotify_mb.py:63 | one entry grows the total of the groups by one exactly when it is kept and its key is among them |
| AlbumGrouping.GroupSizesSum | scripts/process_spotify_mb.py:54-63 | the group track counts sum to the number of entries that are not skipped |
| AlbumGrouping.QueryString | scripts/process_spotify_mb.py:73-80 | `releasegroup:"<album>"` and `artist:"<artist>"` joined by ` AND `, an empty part left out, None when both are empty |
| AlbumGrouping.QueryReleaseGroup | scripts/process_spotify_mb.py:67-96 | no request for an empty query; otherwise the search's answer for the query string; ResolveGroup and FoundIds state how the answer is used |
| AlbumGrouping.ResolveGroup | scripts/process_spotify_mb.py:113-118 | the album-only retry happens exactly when the first lookup found nothing and the artist is not empty, and the retry's answer is kept |
| AlbumGrouping.FoundIds | scripts/process_spotify_mb.py:120-122 | only non-empty ids are written |
| AlbumGrouping.FailedGroups | scripts/process_spotify_mb.py:123-131 | every failed group is one whose lookup, retry included, found nothing |
| AlbumGrouping.LookupPartition | scripts/process_spotify_mb.py:113-131 | every group lands in exactly one of the two outputs |
| AlbumGrouping.LookupGroups | scripts/process_spotify_mb.py:105-133 | the loop's outputs are the found ids and the failed groups, in group order, and count is the number of groups |
| AlbumGrouping.GroupsInOrder | scripts/process_spotify_mb.py:105 | the groups in the dict's iteration order |
| AlbumGrouping.OrderedGroups | scripts/process_spotify_mb.py:105 | the dict's groups in insertion order are the first-seen groups of the entries |
| AlbumGrouping.AlbumGroupsOfEntries | scripts/process_spotify_mb.py:54-63 | every first-seen group holds exactly the kept entries of one key |
| AlbumGrouping.ProcessPlaylist | scripts/process_spotify_mb.py:41-133 | the outputs are the found ids and failed groups of the first-seen groups, one per distinct key between them, each failed group holding the entries of one key |
| AlbumGrouping.FailedAreGroups | scripts/process_spotify_mb.py:123-131 | a failed group is one of the groups looked up |
| Json.Or | scripts/mb_lidarr_sync.py:131 | `x or y` is truthy when either is, and is x when x is truthy |
| Json.Get | scripts/mb_lidarr_sync.py:129 | `dict.get`: the field when present, None otherwise |
| Json.Put | scripts/mb_lidarr_sync.py:71-73 | item assignment adds the key to an object |
| Json.PutGet | scripts/mb_lidarr_sync.py:102 | after `d[k] = v`, `d.get(k)` is v and other keys are unchanged |
| Json.PutTruthy | scripts/mb_lidarr_sync.py:102 | an object with an assigned field is truthy |
| LidarrSync.SafeGetFirst | scripts/mb_lidarr_sync.py:22-25 | the head of a non-empty list, None for an empty list, any other value unchanged |
| LidarrSync.SafeGetFirstTruthy | scripts/mb_lidarr_sync.py:22-25 | a truthy result comes from a truthy input |
| LidarrSync.TruthyAnswer | scripts/mb_lidarr_sync.py:31-40 | a lookup yields its body when that is truthy and None otherwise, never a false non-None value |
| LidarrSync.LookupAlbum | scripts/mb_lidarr_sync.py:28-40 | the album lookup's body when the request succeeds with a truthy body, and None otherwise |
| LidarrSync.LookupArtist | scripts/mb_lidarr_sync.py:43-55 | the artist lookup's body when the request succeeds with a truthy body, and None otherwise |
| LidarrSync.ArtistBody | scripts/mb_lidarr_sync.py:71-73 | the posted artist has metadataProfileId 1, qualityProfileId 1, rootFolderPath `/music/` and the lookup's other fields |
| LidarrSync.AddArtist | scripts/mb_lidarr_sync.py:58-91 | a known artist's id without a post; otherwise a post of the looked-up record with the profile settings exactly when there is such a record, returning the answer's id; None on every failure |
| LidarrSync.MonitorAlbumIfNeeded | scripts/mb_lidarr_sync.py:94-110 | False for no id, True with no update for a monitored album; otherwise the album is marked monitored before the PUT and the PUT's answer decides; the id is untouched |
| LidarrSync.MonitorSettles | scripts/mb_lidarr_sync.py:99-102 | a second call on the updated album sends no update |
| LidarrSync.AlbumSearchCommand | scripts/mb_lidarr_sync.py:113-116 | no command for a None id, otherwise AlbumSearch for exactly that id |
| LidarrSync.ExtractArtistMbId | scripts/mb_lidarr_sync.py:127-136 | foreignArtistId, then musicBrainzId, then a string artistId other than "0"; an id is found only in a record that is an object |
| LidarrSync.ExtractFindsIff | scripts/mb_lidarr_sync.py:127-136 | an id is found exactly when one of the three sources supplies one |
| LidarrSync.ArtistCandidate | scripts/mb_lidarr_sync.py:146-160 | an artist id only for an entry with a release-group id and a truthy album lookup, and it is the extracted one |
| LidarrSync.Candidates | scripts/mb_lidarr_sync.py:145-160 | every collected artist id is truthy |
| LidarrSync.Dedup | scripts/mb_lidarr_sync.py:162-169 | first occurrences only: no duplicates, same elements |
| LidarrSync.ArtistMapGrow | scripts/mb_lidarr_sync.py:166-168 | one add_artist call adds its artist to the map exactly when the returned id is truthy |
| LidarrSync.CandidatesStep | scripts/mb_lidarr_sync.py:146-160 | one entry adds its artist id to the collected ones exactly when it yields a truthy one |
| LidarrSync.Elements | scripts/mb_lidarr_sync.py:142 | the processed set holds exactly the sequence's elements |
| LidarrSync.ElementsStep | scripts/mb_lidarr_sync.py:169 | adding an artist id to the processed set |
| LidarrSync.DedupStep | scripts/mb_lidarr_sync.py:162-165 | an artist id already seen is skipped, a new one is appended |
| LidarrSync.FirstPassStep | scripts/mb_lidarr_sync.py:162-169 | an entry with a truthy, unseen artist id adds it once to the add_artist calls and to the processed set; any other entry changes neither |
| LidarrSync.FirstPass | scripts/mb_lidarr_sync.py:139-172 | add_artist is called for the distinct artist ids in first-seen order; the processed set is the set of all found ids; the map holds the truthy ids returned |
| LidarrSync.FirstPassFacts | scripts/mb_lidarr_sync.py:162-169 | at most one add_artist call per artist; the map's keys are processed artists with truthy ids, and a processed artist is in the map exactly when its id is truthy |
| LidarrSync.EntryWithoutIdIgnored | scripts/mb_lidarr_sync.py:146-148 | an entry without MusicBrainzId adds no artist |
| LidarrSync.AlbumBody | scripts/mb_lidarr_sync.py:213-218 | the posted album carries the mapped artistId, both profile ids, monitored true and the search-for-missing option; every other field of the lookup record is posted unchanged |
| LidarrSync.ExistingStep | scripts/mb_lidarr_sync.py:203-210 | an existing album is counted as existing and is never posted |
| LidarrSync.AddStep | scripts/mb_lidarr_sync.py:220-232 | exactly one album post comes first, then at most a search; Added exactly when the post succeeds with an object |
| LidarrSync.EntryStep | scripts/mb_lidarr_sync.py:182-232 | no counter exactly for an entry without MusicBrainzId; existing albums are not posted; at most one post per entry, first, monitored and with an artist id from the map; the posted body is AlbumBody of the looked-up record with the artist id mapped from its extracted artist MBID |
| LidarrSync.TallyPartition | scripts/mb_lidarr_sync.py:181-232 | success + existing + fail == the number of entries with a MusicBrainzId |
| LidarrSync.PassTwoStep | scripts/mb_lidarr_sync.py:181-232 | one more entry bumps the counter of its verdict and appends its requests |
| LidarrSync.SecondPass | scripts/mb_lidarr_sync.py:175-235 | the counters and requests are those of the entries in order, and the counters sum to the number of entries with a MusicBrainzId |
| LidarrSync.Sync | scripts/mb_lidarr_sync.py:238-252 | pass two runs with pass one's map; no artist is added twice; the counters partition the entries with an id |
| LikedChopper.FlattenAppend | spotify_liked_chopper.py:35 | extending by one more page appends it |
| LikedChopper.FirstEmpty | spotify_liked_chopper.py:30-34 | the pages before it are non-empty and the page at it is empty or missing |
| LikedChopper.PlaylistName | spotify_liked_chopper.py:49 | `All My Liked Songs <k>`; PlaylistNamesDistinct states that different k give different names |
| LikedChopper.FetchLiked | spotify_liked_chopper.py:24-40 | the liked ids are the pages before the first empty one, in order; each request's offset is the number of ids read before it |
| LikedChopper.PlaylistNamesDistinct | spotify_liked_chopper.py:49 | different batch numbers give different playlist names |
| LikedChopper.AddsShape | spotify_liked_chopper.py:57-59 | add calls carry the batch in order, 1 to 100 ids each, ceil(n / 100) of them, with reported ranges from pos + 1 to pos + n and no gap |
| LikedChopper.AddsTracks | spotify_liked_chopper.py:57-59 | the add calls of a batch carry its tracks in order, there are ceil(n / 100) of them, and none for an empty batch |
| LikedChopper.AddsRanges | spotify_liked_chopper.py:57-59 | the reported ranges of a batch's add calls run from pos + 1 to pos + n without gap, each call holding 1 to 100 tracks |
| LikedChopper.AddsFrom | spotify_liked_chopper.py:57-59 | the inner loop's calls as a recursion over slices of 100; AddsShape, AddsTracks and AddsRanges state what it produces |
| LikedChopper.PlanCount | spotify_liked_chopper.py:46-47 | ceil(n / 500) playlists, none for no tracks |
| LikedChopper.PlanFrom | spotify_liked_chopper.py:47-59 | the batch loop as a recursion over slices of 500; PlanCount, PlanBatches, PlanAdds and PlanKeepsOrder state what it produces |
| LikedChopper.PlanBatches | spotify_liked_chopper.py:47-56 | playlist j is `All My Liked Songs <k + j>` with 1 to 500 tracks, all but the last exactly 500 |
| LikedChopper.PlanAdds | spotify_liked_chopper.py:56-59 | playlist j's add calls are those of its slice, which starts after liked track 500 * j |
| LikedChopper.PlanKeepsOrder | spotify_liked_chopper.py:56 | the playlists' tracks concatenated are the liked tracks |
| LikedChopper.AddsAppend | spotify_liked_chopper.py:57 | add calls over a whole number of hundreds followed by more tracks split into the two parts' add calls |
| LikedChopper.PlanAddsAreHundreds | spotify_liked_chopper.py:45-59 | across all playlists the add calls are the hundreds of the whole liked list |
| LikedChopper.PlanRanges | spotify_liked_chopper.py:59 | the reported ranges start at 1, end at the number of liked tracks, follow each other without gap or overlap, and carry all the tracks in order |
| LikedChopper.PlanPlaylists | spotify_liked_chopper.py:45-59 | the batch loop creates exactly the planned playlists and add calls |
| LikedChopper.AddCalls | spotify_liked_chopper.py:57-59 | the inner loop makes exactly the planned add calls of a batch |

## Left out

- I/O: reading the JSON/CSV exports, the output files, including the
  failed-matches file name built with `os.path` in `generate_m3u_from_db`,
  progress printing and `time.sleep`. Writes are returned values instead.
- Python `None` inputs other than the JSON `null` of the sync. Spotify's
  `None` track id for a local file is not modelled: track ids are strings.
- The NFKD normalisation and combining-mark removal in `clean_string`, which
  need Unicode tables. `CleanString` starts from the normalised text.
- Unicode lower-casing: `Text.Lower` is ASCII-only, as SQLite's `LOWER`.
  Python's `.lower()` agrees with it on ASCII text.
- Database errors during a query, as opposed to the connection, in
  `generate_m3u_from_db`. The library is either unopenable or a row sequence.
- The order of rows returned by `LIMIT 1` without `ORDER BY`: taken as
  sequence order. `LIKE` has no ESCAPE clause.
- NULL columns: a NULL column reads as "". In SQL, `NULL LIKE p` and
  `LOWER(NULL) = x` are never true. In the model, "" passes a pattern that
  matches the empty text, such as `%%` for an empty artist or title. So for
  rows with NULL columns the model can find a hit where the database finds
  none.
- `track_to_album_map` in `process_spotify_mb.py`: it is filled but never read.
- The `MAX_ALBUMS` limit: it is commented out in the lookup loop.
- Malformed playlist tracks in `generate_m3u_from_db`. A track without
  `track_name`, `artist_name` or `duration_ms`, or with a name that is not a
  string, raises inside the loop. The surrounding `except Exception` then
  returns before anything is written. A model `Track` always has both names
  as strings and a duration that is a number or not.
- Floating point durations: `duration_ms` is an integer or not a number.
  Progress percentages are left out.
- M3uExport.Seconds: divides exactly. Python's float division `ms / 1000`
  can round differently once |ms| is above 2^53.
- The failed-matches file is written only when the list is non-empty. The
  model returns the list, and an empty list stands for no file.
- No in-memory title or artist index is built. The search queries the table
  afresh for every track, and the model does the same.
- Network oracles are deterministic. `add_artist` asks for the artist lookup
  twice and the model gives both the same answer. Both passes of the sync
  share one Lidarr oracle. Pass two's album lookup for a release group
  therefore returns what pass one's did, although pass one's artist posts may
  have changed Lidarr in between.
- An oracle keys each lookup by the id itself. The `"lidarr:" + str(id)` term
  string is not built.
- Dictionary aliasing: `album_body` is the `album_info` object mutated in place.
  The model builds the posted body as a new value, and nothing reads the old
  one afterwards.
- LidarrSync.EntryStep: `.get` on a decoded value that is not an object
  yields None in the model, where Python raises `AttributeError` and the
  script ends. The model goes on, in three ways:
  - an entry of the release-group list that is not an object has no
    MusicBrainzId, bumps no counter and sends no request;
  - a truthy album record that is not an object yields no artist id, and the
    album is counted as failed;
  - a record whose `artist` field is truthy but not an object falls through
    to `artistId` (line 131 raises in Python). With a usable string
    `artistId` the album goes on like any other album with that artist id:
    failed unless the id is in the artist map, and then Existing, Added or
    Failed. Without a usable `artistId` it is counted as failed.
- LidarrSync.FirstPass: in the same three cases the script ends in Python.
  The model skips the first two entries. For the third it calls add_artist
  with the record's usable `artistId` when there is one, and skips the entry
  otherwise.
- LidarrSync.AddArtist: a truthy lookup record that is not an object would
  raise on `.get("id")` outside the `try`. The model reads its id as None and
  goes on to the second lookup.
- Unhashable artist ids, such as a list used as a dict key, would raise in
  Python. The model accepts any JSON value as a key.
- `1 == True` style key coincidences of Python dicts are not modelled.
- Spotify's page size (`limit=50`) and the `offset % 100` progress print in the
  chopper. A page is whatever the recording holds.
- LikedChopper.PlanPlaylists: the next batch start is written as
  `min(start + 500, n)`. `range(0, n, 500)` gives the same starts below n.
