/**
 * generate_m3u_from_db: walk the playlist's tracks, resolve each against the
 * library, build the M3U line buffer and the failure list in memory, and
 * produce the file text only once the whole loop has run.
 */
module M3uExport {
  import opened Wrappers
  import opened Text
  import opened TrackSearch

  /** duration_ms as read from the JSON: a number, or something `/ 1000` rejects. */
  datatype Duration = Millis(ms: int) | NotNumeric

  datatype Track = Track(trackName: string, artistName: string, duration: Duration)

  /** One entry of the failed-matches report. */
  datatype Failure = Failure(trackName: string, artistName: string, reason: string)

  const NoFilePath := "No file path found"
  const NoMatchFound := "No match found in database"
  const MountPrefix := "/music/"

  /** Why the function returned early, before anything was written. */
  datatype Abort =
    | DatabaseError           // sqlite3.connect failed: sqlite3.Error is caught
    | DurationNotNumeric(index: nat)  // int(duration_ms / 1000) raised: caught by `except Exception`

  datatype ExportResult =
    | Aborted(cause: Abort)
    | Crashed                 // ZeroDivisionError in the summary of an empty track list, which nothing catches
    | Written(playlist: string, failures: seq<Failure>, matched: nat, processed: nat)

  /** int(ms / 1000): Python truncates the quotient toward zero. */
  function Seconds(ms: int): (r: int)
    ensures ms >= 0 ==> 0 <= r && r * 1000 <= ms < r * 1000 + 1000
    ensures ms < 0 ==> r <= 0 && ms <= r * 1000 && r * 1000 < ms + 1000
  {
    if ms >= 0 then ms / 1000 else -((-ms) / 1000)
  }

  /** The #EXTINF line: it starts with the tag and adds no line break of its own. */
  function ExtInf(seconds: int, artistName: string, trackName: string): (r: string)
    ensures |r| >= 8 && r[..8] == "#EXTINF:"
    ensures '\n' !in artistName && '\n' !in trackName ==> '\n' !in r
  {
    DecimalWithoutBreak(seconds);
    "#EXTINF:" + IntToDecimal(seconds) + "," + artistName + " - " + trackName
  }

  lemma DecimalWithoutBreak(i: int)
    ensures '\n' !in IntToDecimal(i)
  {
    var n := NatToDecimal(if i < 0 then -i else i);
    assert forall m :: 0 <= m < |n| ==> IsDigit(n[m]);
    assert '\n' !in n;
  }

  function Header(playlistName: string): seq<string> {
    ["#EXTM3U", "#PLAYLIST:" + playlistName]
  }

  /**
   * navidrome_search_track_db on an open connection: a track name and an
   * artist string in, the song dictionary or None out.
   */
  type Search = (string, string) -> Option<Song>

  /** The search over the library's media_file rows. */
  function LibrarySearch(rows: seq<Row>): Search {
    (trackName: string, artistName: string) => SearchTrack(rows, trackName, artistName)
  }

  /** Every song the search answers with is a row of the table. */
  ghost predicate AnswersFrom(search: Search, rows: seq<Row>) {
    forall trackName, artistName :: search(trackName, artistName).Some? ==>
      exists i :: 0 <= i < |rows| && search(trackName, artistName).value == SongOf(rows[i])
  }

  /** The library search answers only with rows of the library. */
  lemma LibraryAnswersFrom(rows: seq<Row>)
    ensures AnswersFrom(LibrarySearch(rows), rows)
  {
    forall trackName, artistName | LibrarySearch(rows)(trackName, artistName).Some?
      ensures exists i :: 0 <= i < |rows| && LibrarySearch(rows)(trackName, artistName).value == SongOf(rows[i])
    {
      assert LibrarySearch(rows)(trackName, artistName) == SearchTrack(rows, trackName, artistName);
    }
  }

  /** What one track contributes: two playlist lines, or one failure. */
  datatype Outcome = Entry(extinf: string, path: string) | Failed(failure: Failure)

  /** What the loop does with the search's answer for one track whose duration is a number. */
  function Classify(song: Option<Song>, t: Track): (o: Outcome)
    requires t.duration.Millis?
    ensures o.Failed? ==> o.failure.trackName == t.trackName && o.failure.artistName == t.artistName
    ensures o.Failed? && o.failure.reason == NoMatchFound <==> song.None?
    ensures o.Failed? && o.failure.reason == NoFilePath <==> song.Some? && song.value.path == ""
    ensures o.Entry? <==> song.Some? && song.value.path != ""
    ensures o.Entry? ==> o.extinf == ExtInf(Seconds(t.duration.ms), t.artistName, t.trackName)
                         && o.path == MountPrefix + song.value.path
  {
    match song
    case None => Failed(Failure(t.trackName, t.artistName, NoMatchFound))
    case Some(s) =>
      if s.path == "" then Failed(Failure(t.trackName, t.artistName, NoFilePath))
      else Entry(ExtInf(Seconds(t.duration.ms), t.artistName, t.trackName), MountPrefix + s.path)
  }

  /** The body of the loop for one track whose duration is a number. */
  function TrackOutcome(search: Search, t: Track): Outcome
    requires t.duration.Millis?
  {
    Classify(search(t.trackName, t.artistName), t)
  }

  /**
   * The body of the loop for one track, searched in the library: a failure
   * for "No match found in database" exactly when no strategy finds a row,
   * "No file path found" exactly when the row has an empty path, and
   * otherwise the EXTINF line and the mounted path of a library file.
   */
  function Resolve(rows: seq<Row>, t: Track): (o: Outcome)
    requires t.duration.Millis?
    ensures o.Failed? ==> o.failure.trackName == t.trackName && o.failure.artistName == t.artistName
    ensures o.Failed? && o.failure.reason == NoMatchFound <==> SearchTrack(rows, t.trackName, t.artistName).None?
    ensures o.Failed? && o.failure.reason == NoFilePath <==>
              SearchTrack(rows, t.trackName, t.artistName).Some? && SearchTrack(rows, t.trackName, t.artistName).value.path == ""
    ensures o.Entry? ==> o.extinf == ExtInf(Seconds(t.duration.ms), t.artistName, t.trackName)
    ensures o.Entry? ==> exists i :: 0 <= i < |rows| && rows[i].path != "" && o.path == MountPrefix + rows[i].path
  {
    TrackOutcome(LibrarySearch(rows), t)
  }

  predicate AllNumeric(ts: seq<Track>) {
    forall i :: 0 <= i < |ts| ==> ts[i].duration.Millis?
  }

  function LinesOf(o: Outcome): seq<string> {
    match o
    case Entry(e, p) => [e, p]
    case Failed(_) => []
  }

  function FailuresIn(o: Outcome): seq<Failure> {
    match o
    case Entry(_, _) => []
    case Failed(f) => [f]
  }

  /** The lines the matched tracks of ts append, in track order. */
  function EntryLines(search: Search, ts: seq<Track>): seq<string>
    requires AllNumeric(ts)
  {
    if ts == [] then [] else EntryLines(search, ts[..|ts| - 1]) + LinesOf(TrackOutcome(search, ts[|ts| - 1]))
  }

  /** The failures of ts, in track order. */
  function FailuresOf(search: Search, ts: seq<Track>): seq<Failure>
    requires AllNumeric(ts)
  {
    if ts == [] then [] else FailuresOf(search, ts[..|ts| - 1]) + FailuresIn(TrackOutcome(search, ts[|ts| - 1]))
  }

  /** The number of tracks of ts that make it into the playlist. */
  function MatchedCount(search: Search, ts: seq<Track>): nat
    requires AllNumeric(ts)
  {
    if ts == [] then 0
    else MatchedCount(search, ts[..|ts| - 1]) + if TrackOutcome(search, ts[|ts| - 1]).Entry? then 1 else 0
  }

  function PlaylistLines(search: Search, playlistName: string, ts: seq<Track>): seq<string>
    requires AllNumeric(ts)
  {
    Header(playlistName) + EntryLines(search, ts)
  }

  /** How the accumulators move when the loop handles one more track. */
  lemma Step(search: Search, playlistName: string, ts: seq<Track>, i: nat)
    requires i < |ts| && AllNumeric(ts[..i]) && ts[i].duration.Millis?
    ensures AllNumeric(ts[..i + 1])
    ensures var o := TrackOutcome(search, ts[i]);
            && PlaylistLines(search, playlistName, ts[..i + 1]) == PlaylistLines(search, playlistName, ts[..i]) + LinesOf(o)
            && FailuresOf(search, ts[..i + 1]) == FailuresOf(search, ts[..i]) + FailuresIn(o)
            && MatchedCount(search, ts[..i + 1]) == MatchedCount(search, ts[..i]) + if o.Entry? then 1 else 0
  {
    assert ts[..i + 1][..i] == ts[..i];
  }

  /** test_mode keeps only the first ten tracks. */
  function Selected(tracks: seq<Track>, testMode: bool): seq<Track> {
    if testMode && |tracks| > 10 then tracks[..10] else tracks
  }

  /** Where the loop over the tracks ends: at a duration that is not a number, or after the last track. */
  datatype LoopEnd =
    | Stopped(index: nat)
    | Done(lines: seq<string>, failed: seq<Failure>, matched: nat, processed: nat)

  /**
   * The `for` loop of generate_m3u_from_db: it stops at the first track
   * whose duration is not a number; otherwise it leaves the header and the
   * lines of the matched tracks in the buffer, the failures in the report,
   * and the counters at the number of matches and of tracks.
   */
  method MatchTracks(search: Search, playlistName: string, ts: seq<Track>) returns (e: LoopEnd)
    ensures !AllNumeric(ts) ==>
              && e.Stopped? && e.index < |ts| && ts[e.index].duration.NotNumeric?
              && AllNumeric(ts[..e.index])
    ensures AllNumeric(ts) ==>
              e == Done(PlaylistLines(search, playlistName, ts), FailuresOf(search, ts), MatchedCount(search, ts), |ts|)
  {
    var lines := Header(playlistName);
    var failed: seq<Failure> := [];
    var matched := 0;
    var processed := 0;
    var i := 0;
    while i < |ts|
      invariant 0 <= i <= |ts| && processed == i
      invariant AllNumeric(ts[..i])
      invariant lines == PlaylistLines(search, playlistName, ts[..i])
      invariant failed == FailuresOf(search, ts[..i])
      invariant matched == MatchedCount(search, ts[..i])
    {
      var t := ts[i];
      if t.duration.NotNumeric? {
        return Stopped(i);
      }
      var seconds := Seconds(t.duration.ms);
      Step(search, playlistName, ts, i);
      var song := search(t.trackName, t.artistName);
      if song.Some? {
        var filePath := song.value.path;
        if filePath != "" {
          var fullPath := MountPrefix + filePath;
          var extinf := ExtInf(seconds, t.artistName, t.trackName);
          lines := lines + [extinf, fullPath];
          matched := matched + 1;
        } else {
          failed := failed + [Failure(t.trackName, t.artistName, NoFilePath)];
        }
      } else {
        failed := failed + [Failure(t.trackName, t.artistName, NoMatchFound)];
      }
      processed := processed + 1;
      i := i + 1;
    }
    assert ts[..i] == ts;
    e := Done(lines, failed, matched, processed);
  }

  /**
   * generate_m3u_from_db. The library is None when the database cannot be
   * opened. The loop stops at the first track whose duration is not a
   * number; an empty track list reaches the success-rate division by zero.
   * In all three cases nothing is written. Otherwise the playlist text is
   * the joined line buffer and the report holds one entry per failed track.
   */
  method GenerateM3U(playlistName: string, tracks: seq<Track>, library: Option<seq<Row>>, testMode: bool)
    returns (r: ExportResult)
    ensures var ts := Selected(tracks, testMode);
            && (library.None? ==> r == Aborted(DatabaseError))
            && (library.Some? && !AllNumeric(ts) ==>
                  r.Aborted? && r.cause.DurationNotNumeric?
                  && r.cause.index < |ts| && ts[r.cause.index].duration.NotNumeric?
                  && AllNumeric(ts[..r.cause.index]))
            && (library.Some? && AllNumeric(ts) && ts == [] ==> r == Crashed)
            && (library.Some? && AllNumeric(ts) && ts != [] ==>
                  var search := LibrarySearch(library.value);
                  r == Written(Join(PlaylistLines(search, playlistName, ts), "\n"),
                               FailuresOf(search, ts), MatchedCount(search, ts), |ts|))
  {
    var ts := Selected(tracks, testMode);
    if library.None? {
      return Aborted(DatabaseError);
    }
    var e := MatchTracks(LibrarySearch(library.value), playlistName, ts);
    if e.Stopped? {
      return Aborted(DurationNotNumeric(e.index));
    }
    if e.processed == 0 {
      // the success rate divides by the number of tracks
      return Crashed;
    }
    r := Written(Join(e.lines, "\n"), e.failed, e.matched, e.processed);
  }

  /** The buffer holds the two header lines and two lines per matched track. */
  lemma {:induction false} PlaylistLineCount(search: Search, playlistName: string, ts: seq<Track>)
    requires AllNumeric(ts)
    ensures |PlaylistLines(search, playlistName, ts)| == 2 + 2 * MatchedCount(search, ts)
  {
    if ts != [] {
      PlaylistLineCount(search, playlistName, ts[..|ts| - 1]);
    }
  }

  /** Every track is either matched or reported, never both and never neither. */
  lemma {:induction false} EveryTrackAccounted(search: Search, ts: seq<Track>)
    requires AllNumeric(ts)
    ensures MatchedCount(search, ts) + |FailuresOf(search, ts)| == |ts|
  {
    if ts != [] {
      EveryTrackAccounted(search, ts[..|ts| - 1]);
    }
  }

  /** A matched track's path line is the mounted path of a library file. */
  lemma EntryFromTable(search: Search, rows: seq<Row>, t: Track)
    requires t.duration.Millis? && AnswersFrom(search, rows)
    requires TrackOutcome(search, t).Entry?
    ensures exists i :: 0 <= i < |rows| && rows[i].path != "" && TrackOutcome(search, t).path == MountPrefix + rows[i].path
  {
    var song := search(t.trackName, t.artistName);
    var i :| 0 <= i < |rows| && song.value == SongOf(rows[i]);
    assert rows[i].path == song.value.path;
  }

  /**
   * Line 2 + 2j of the buffer is an #EXTINF line and line 3 + 2j the mounted
   * path of a library file, for every matched track j.
   */
  lemma {:induction false} EntryLineShape(search: Search, rows: seq<Row>, ts: seq<Track>, j: nat)
    requires AllNumeric(ts) && AnswersFrom(search, rows) && j < MatchedCount(search, ts)
    ensures 2 * j + 1 < |EntryLines(search, ts)|
    ensures var e := EntryLines(search, ts);
            |e[2 * j]| >= 8 && e[2 * j][..8] == "#EXTINF:"
            && exists i :: 0 <= i < |rows| && rows[i].path != "" && e[2 * j + 1] == MountPrefix + rows[i].path
  {
    assert ts != [];
    var init := ts[..|ts| - 1];
    var o := TrackOutcome(search, ts[|ts| - 1]);
    assert EntryLines(search, ts) == EntryLines(search, init) + LinesOf(o);
    PlaylistLineCount(search, "", init);
    if j < MatchedCount(search, init) {
      EntryLineShape(search, rows, init, j);
    } else {
      assert o.Entry?;
      assert j == MatchedCount(search, init);
      EntryFromTable(search, rows, ts[|ts| - 1]);
      var e := EntryLines(search, ts);
      assert e[2 * j] == o.extinf && e[2 * j + 1] == o.path;
    }
  }

  /** Each reported failure is one of the two reasons. */
  lemma {:induction false} FailureReasons(search: Search, ts: seq<Track>)
    requires AllNumeric(ts)
    ensures forall f :: f in FailuresOf(search, ts) ==> f.reason == NoFilePath || f.reason == NoMatchFound
  {
    if ts != [] {
      FailureReasons(search, ts[..|ts| - 1]);
    }
  }

  /** No title or artist of ts holds a line break. */
  predicate NoBreaks(ts: seq<Track>) {
    forall k :: 0 <= k < |ts| ==> '\n' !in ts[k].trackName && '\n' !in ts[k].artistName
  }

  /** No library path holds a line break. */
  predicate PathsWithoutBreaks(rows: seq<Row>) {
    forall i :: 0 <= i < |rows| ==> '\n' !in rows[i].path
  }

  /** The two lines one matched track appends hold no line break. */
  lemma OutcomeWithoutBreaks(search: Search, rows: seq<Row>, t: Track)
    requires t.duration.Millis? && AnswersFrom(search, rows) && PathsWithoutBreaks(rows)
    requires '\n' !in t.trackName && '\n' !in t.artistName
    ensures forall k :: 0 <= k < |LinesOf(TrackOutcome(search, t))| ==> '\n' !in LinesOf(TrackOutcome(search, t))[k]
  {
    var o := TrackOutcome(search, t);
    if o.Entry? {
      EntryFromTable(search, rows, t);
      var i :| 0 <= i < |rows| && rows[i].path != "" && o.path == MountPrefix + rows[i].path;
      assert '\n' !in MountPrefix;
    }
  }

  /**
   * The playlist text splits back into the line buffer, as long as no name,
   * title, artist or path holds a newline.
   */
  lemma PlaylistReadsBack(search: Search, rows: seq<Row>, playlistName: string, ts: seq<Track>)
    requires AllNumeric(ts) && NoBreaks(ts) && AnswersFrom(search, rows) && PathsWithoutBreaks(rows)
    requires '\n' !in playlistName
    ensures SplitOn(Join(PlaylistLines(search, playlistName, ts), "\n"), '\n') == PlaylistLines(search, playlistName, ts)
  {
    var h := Header(playlistName);
    assert '\n' !in h[0];
    assert '\n' !in h[1] by {
      assert h[1] == "#PLAYLIST:" + playlistName;
    }
    assert forall k :: 0 <= k < |h| ==> '\n' !in h[k];
    NoBreakInEntries(search, rows, ts);
    HeaderAndEntries(h, EntryLines(search, ts));
    SplitJoin(h + EntryLines(search, ts), '\n');
  }

  lemma HeaderAndEntries(h: seq<string>, e: seq<string>)
    requires forall k :: 0 <= k < |h| ==> '\n' !in h[k]
    requires forall k :: 0 <= k < |e| ==> '\n' !in e[k]
    ensures forall k :: 0 <= k < |h + e| ==> '\n' !in (h + e)[k]
  {
  }

  lemma {:induction false} NoBreakInEntries(search: Search, rows: seq<Row>, ts: seq<Track>)
    requires AllNumeric(ts) && NoBreaks(ts) && AnswersFrom(search, rows) && PathsWithoutBreaks(rows)
    ensures forall k :: 0 <= k < |EntryLines(search, ts)| ==> '\n' !in EntryLines(search, ts)[k]
  {
    if ts != [] {
      var init := ts[..|ts| - 1];
      var t := ts[|ts| - 1];
      assert NoBreaks(init) by {
        forall m | 0 <= m < |init| ensures '\n' !in init[m].trackName && '\n' !in init[m].artistName {
          assert init[m] == ts[m];
        }
      }
      NoBreakInEntries(search, rows, init);
      OutcomeWithoutBreaks(search, rows, t);
      var o := TrackOutcome(search, t);
      var e := EntryLines(search, ts);
      assert e == EntryLines(search, init) + LinesOf(o);
      forall k | 0 <= k < |e| ensures '\n' !in e[k] {
        if k < |EntryLines(search, init)| {
          assert e[k] == EntryLines(search, init)[k];
        } else {
          assert e[k] == LinesOf(o)[k - |EntryLines(search, init)|];
        }
      }
    }
  }
}
