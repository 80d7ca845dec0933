/**
 * The two passes of scripts/mb_lidarr_sync.py over the release-group file.
 * Pass one asks Lidarr for the artist of every release group and adds each
 * artist once; pass two adds (or re-monitors) every album and counts the
 * outcomes. Every HTTP exchange with Lidarr is an oracle in `Lidarr`.
 */
module LidarrSync {
  import opened Wrappers
  import opened Json

  /**
   * Lidarr's answers. The lookups and posts yield Some(decoded body) when
   * the status code is the one the script accepts (200 for a lookup, 200 or
   * 201 for a post) and None otherwise or when the request raises;
   * `updateAlbum` says whether the PUT came back 200 or 202.
   * The lookups are keyed by the id the script puts after "lidarr:" in
   * the search term.
   */
  datatype Lidarr = Lidarr(
    albumLookup: Json -> Option<Json>,
    artistLookup: Json -> Option<Json>,
    addArtist: Json -> Option<Json>,
    addAlbum: Json -> Option<Json>,
    updateAlbum: Json -> bool)

  const MetadataProfileId: int := 1
  const QualityProfileId: int := 1
  const RootFolderPath: string := "/music/"

  /** safe_get_first: the head of a list (None for an empty one), any other value as it is. */
  function SafeGetFirst(data: Json): (r: Json)
    ensures data.Arr? && data.items != [] ==> r == data.items[0]
    ensures data.Arr? && data.items == [] ==> r == Null
    ensures !data.Arr? ==> r == data
  {
    match data
    case Arr(items) => if items == [] then Null else items[0]
    case _ => data
  }

  /** Only a truthy answer can have a truthy first element. */
  lemma SafeGetFirstTruthy(data: Json)
    requires Truthy(SafeGetFirst(data))
    ensures Truthy(data)
  {
  }

  /**
   * `data if data else None` over a lookup that may fail: the common tail
   * of get_album_by_releasegroup and get_artist_by_mb_id.
   */
  function TruthyAnswer(answer: Option<Json>): (r: Json)
    ensures r == Null || Truthy(r)
    ensures Truthy(r) <==> answer.Some? && Truthy(answer.value)
    ensures Truthy(r) ==> r == answer.value
  {
    match answer
    case None => Null
    case Some(data) => if Truthy(data) then data else Null
  }

  /** get_album_by_releasegroup */
  function LookupAlbum(l: Lidarr, releaseGroupId: Json): (r: Json)
    ensures r == Null || Truthy(r)
    ensures Truthy(r) <==> l.albumLookup(releaseGroupId).Some? && Truthy(l.albumLookup(releaseGroupId).value)
    ensures Truthy(r) ==> r == l.albumLookup(releaseGroupId).value
  {
    TruthyAnswer(l.albumLookup(releaseGroupId))
  }

  /** get_artist_by_mb_id */
  function LookupArtist(l: Lidarr, artistId: Json): (r: Json)
    ensures r == Null || Truthy(r)
    ensures Truthy(r) <==> l.artistLookup(artistId).Some? && Truthy(l.artistLookup(artistId).value)
    ensures Truthy(r) ==> r == l.artistLookup(artistId).value
  {
    TruthyAnswer(l.artistLookup(artistId))
  }

  /** The artist record of the lookup with the three profile settings put in. */
  function ArtistBody(data: Json): (r: Json)
    requires data.Obj?
    ensures r.Obj?
    ensures Get(r, "metadataProfileId") == Num(MetadataProfileId)
    ensures Get(r, "qualityProfileId") == Num(QualityProfileId)
    ensures Get(r, "rootFolderPath") == Str(RootFolderPath)
    ensures forall k :: k != "metadataProfileId" && k != "qualityProfileId" && k != "rootFolderPath" ==>
              Get(r, k) == Get(data, k)
  {
    var a := Put(data, "metadataProfileId", Num(MetadataProfileId));
    var b := Put(a, "qualityProfileId", Num(QualityProfileId));
    var c := Put(b, "rootFolderPath", Str(RootFolderPath));
    PutGet(data, "metadataProfileId", Num(MetadataProfileId), "qualityProfileId");
    PutGet(a, "qualityProfileId", Num(QualityProfileId), "metadataProfileId");
    PutGet(b, "rootFolderPath", Str(RootFolderPath), "metadataProfileId");
    PutGet(b, "rootFolderPath", Str(RootFolderPath), "qualityProfileId");
    c
  }

  /** The artist record Lidarr's lookup returns for an artist id. */
  function FoundArtist(l: Lidarr, artistId: Json): Json {
    SafeGetFirst(LookupArtist(l, artistId))
  }

  /** Lidarr already has the artist: the lookup's record carries an id. */
  predicate KnownArtist(l: Lidarr, artistId: Json) {
    Truthy(FoundArtist(l, artistId)) && Truthy(Get(FoundArtist(l, artistId), "id"))
  }

  /** What add_artist returns, and the record it posted to /artist, if any. */
  datatype ArtistOutcome = ArtistOutcome(id: Json, posted: Option<Json>)

  /**
   * add_artist: the id of an artist Lidarr already has; otherwise the artist
   * record is looked up once more, given the profile settings and posted,
   * and the id in the answer is returned. Every failure gives None.
   */
  function AddArtist(l: Lidarr, artistId: Json): (r: ArtistOutcome)
    ensures KnownArtist(l, artistId) ==> r == ArtistOutcome(Get(FoundArtist(l, artistId), "id"), None)
    ensures r.posted.Some? <==>
              && !KnownArtist(l, artistId)
              && Truthy(FoundArtist(l, artistId))
              && FoundArtist(l, artistId).Obj?
    ensures r.posted.Some? ==>
              && r.posted.value == ArtistBody(FoundArtist(l, artistId))
              && r.id == match l.addArtist(r.posted.value) case None => Null case Some(answer) => Get(answer, "id")
    ensures r.posted.None? && !KnownArtist(l, artistId) ==> r.id == Null
  {
    var resp := LookupArtist(l, artistId);
    if !Truthy(resp) then ArtistOutcome(Null, None)
    else
      var artistData := SafeGetFirst(resp);
      if Truthy(artistData) && Truthy(Get(artistData, "id")) then
        ArtistOutcome(Get(artistData, "id"), None)
      else
        // the second, raw lookup; the oracle gives the same answer as before
        match l.artistLookup(artistId)
        case None => ArtistOutcome(Null, None)
        case Some(lookup) =>
          var again := SafeGetFirst(lookup);
          if !Truthy(again) || !again.Obj? then
            // no record, or one the item assignments raise on
            ArtistOutcome(Null, None)
          else
            var body := ArtistBody(again);
            match l.addArtist(body)
            case None => ArtistOutcome(Null, Some(body))
            case Some(answer) => ArtistOutcome(Get(answer, "id"), Some(body))
  }

  /** What monitor_album_if_needed returns, the album dict afterwards and the PUT it sent. */
  datatype MonitorResult = MonitorResult(monitored: bool, album: Json, update: Option<Json>)

  /**
   * monitor_album_if_needed: False for an album without an id, True without
   * a request for one already monitored; otherwise the album is marked
   * monitored first and then PUT, and the answer decides the result.
   */
  function MonitorAlbumIfNeeded(l: Lidarr, album: Json): (r: MonitorResult)
    ensures Get(album, "id") == Null ==> r == MonitorResult(false, album, None)
    ensures Get(album, "id") != Null && Truthy(Get(album, "monitored")) ==> r == MonitorResult(true, album, None)
    ensures Get(album, "id") != Null && !Truthy(Get(album, "monitored")) ==>
              && r.album == Put(album, "monitored", Bool(true))
              && Get(r.album, "monitored") == Bool(true)
              && r.update == Some(r.album)
              && r.monitored == l.updateAlbum(r.album)
    ensures Get(r.album, "id") == Get(album, "id")
  {
    if Get(album, "id") == Null then MonitorResult(false, album, None)
    else if Truthy(Get(album, "monitored")) then MonitorResult(true, album, None)
    else
      var marked := Put(album, "monitored", Bool(true));
      PutGet(album, "monitored", Bool(true), "id");
      MonitorResult(l.updateAlbum(marked), marked, Some(marked))
  }

  /** Monitoring is settled after one call: a second call sends no update. */
  lemma MonitorSettles(l: Lidarr, album: Json)
    ensures MonitorAlbumIfNeeded(l, MonitorAlbumIfNeeded(l, album).album).update == None
  {
    var r := MonitorAlbumIfNeeded(l, album);
    if Get(album, "id") != Null && !Truthy(Get(album, "monitored")) {
      assert Get(r.album, "monitored") == Bool(true);
    }
  }

  /** trigger_album_search: the AlbumSearch command for an id, nothing for None. */
  function AlbumSearchCommand(albumId: Json): (r: Option<Json>)
    ensures r.None? <==> albumId == Null
    ensures r.Some? ==> Get(r.value, "name") == Str("AlbumSearch") && Get(r.value, "albumIds") == Arr([albumId])
  {
    if albumId == Null then None
    else Some(Obj(map["name" := Str("AlbumSearch"), "albumIds" := Arr([albumId])]))
  }

  /** An `artistId` the script accepts as an artist MusicBrainz id: a non-empty string other than "0". */
  predicate UsableArtistId(v: Json) {
    Truthy(v) && v.Str? && v != Str("0")
  }

  /**
   * extract_artist_mb_id: the artist's foreignArtistId, else its
   * musicBrainzId, else the album's artistId when it is usable; otherwise
   * a false value.
   */
  function ExtractArtistMbId(info: Json): (r: Json)
    ensures Truthy(Get(info, "artist")) && Truthy(Get(Get(info, "artist"), "foreignArtistId")) ==>
              r == Get(Get(info, "artist"), "foreignArtistId")
    ensures Truthy(Get(info, "artist")) && !Truthy(Get(Get(info, "artist"), "foreignArtistId"))
            && Truthy(Get(Get(info, "artist"), "musicBrainzId")) ==>
              r == Get(Get(info, "artist"), "musicBrainzId")
    ensures !(Truthy(Get(info, "artist")) && Truthy(Or(Get(Get(info, "artist"), "foreignArtistId"), Get(Get(info, "artist"), "musicBrainzId"))))
            && UsableArtistId(Get(info, "artistId")) ==>
              r == Get(info, "artistId")
    ensures Truthy(r) ==> info.Obj?
  {
    var artist := Get(info, "artist");
    var fromArtist := if Truthy(artist) then Or(Get(artist, "foreignArtistId"), Get(artist, "musicBrainzId")) else Null;
    if !Truthy(fromArtist) && UsableArtistId(Get(info, "artistId")) then Get(info, "artistId")
    else fromArtist
  }

  /** An artist id is found exactly when one of the three sources supplies one. */
  lemma ExtractFindsIff(info: Json)
    ensures Truthy(ExtractArtistMbId(info)) <==>
              || (Truthy(Get(info, "artist")) && Truthy(Get(Get(info, "artist"), "foreignArtistId")))
              || (Truthy(Get(info, "artist")) && Truthy(Get(Get(info, "artist"), "musicBrainzId")))
              || UsableArtistId(Get(info, "artistId"))
  {
  }

  /** entry.get("MusicBrainzId") */
  function EntryId(entry: Json): Json {
    Get(entry, "MusicBrainzId")
  }

  /** The album record Lidarr's lookup returns for an entry's release group. */
  function AlbumOf(l: Lidarr, entry: Json): Json {
    SafeGetFirst(LookupAlbum(l, EntryId(entry)))
  }

  /**
   * The artist id pass one takes from an entry, or a false value when the
   * entry has no release-group id, the lookup fails or no artist id is found.
   */
  function ArtistCandidate(l: Lidarr, entry: Json): (r: Json)
    ensures Truthy(r) ==> Truthy(EntryId(entry)) && Truthy(AlbumOf(l, entry))
    ensures Truthy(r) ==> r == ExtractArtistMbId(AlbumOf(l, entry))
  {
    if !Truthy(EntryId(entry)) then Null
    else if !Truthy(AlbumOf(l, entry)) then Null
    else ExtractArtistMbId(AlbumOf(l, entry))
  }

  /** The artist ids found in the entries, in entry order, repeats included. */
  function Candidates(l: Lidarr, entries: seq<Json>): (r: seq<Json>)
    ensures forall j :: 0 <= j < |r| ==> Truthy(r[j])
  {
    if entries == [] then []
    else
      var c := ArtistCandidate(l, entries[|entries| - 1]);
      Candidates(l, entries[..|entries| - 1]) + if Truthy(c) then [c] else []
  }

  predicate NoDuplicates(s: seq<Json>) {
    forall i, j :: 0 <= i < j < |s| ==> s[i] != s[j]
  }

  /** The first occurrence of every element, in order. */
  function Dedup(s: seq<Json>): (r: seq<Json>)
    ensures NoDuplicates(r)
    ensures forall x :: x in r <==> x in s
  {
    if s == [] then []
    else
      var init := s[..|s| - 1];
      var last := s[|s| - 1];
      assert forall x :: x in s <==> x in init || x == last;
      Dedup(init) + if last in init then [] else [last]
  }

  /** The artist map pass one builds: the artists whose add_artist gave a true id. */
  function ArtistMapOf(l: Lidarr, calls: seq<Json>): map<Json, Json> {
    map a | a in calls && Truthy(AddArtist(l, a).id) :: AddArtist(l, a).id
  }

  /** One more add_artist call grows the map by that artist alone, and only when its id is true. */
  lemma ArtistMapGrow(l: Lidarr, calls: seq<Json>, a: Json)
    ensures ArtistMapOf(l, calls + [a]) ==
              if Truthy(AddArtist(l, a).id) then ArtistMapOf(l, calls)[a := AddArtist(l, a).id] else ArtistMapOf(l, calls)
  {
    assert forall x :: x in calls + [a] <==> x in calls || x == a;
  }

  /** Candidates grow by the candidate of the new entry, when it is true. */
  lemma CandidatesStep(l: Lidarr, es: seq<Json>, e: Json)
    ensures Truthy(ArtistCandidate(l, e)) ==> Candidates(l, es + [e]) == Candidates(l, es) + [ArtistCandidate(l, e)]
    ensures !Truthy(ArtistCandidate(l, e)) ==> Candidates(l, es + [e]) == Candidates(l, es)
  {
    assert (es + [e])[..|es|] == es;
    assert Candidates(l, es) + [] == Candidates(l, es);
  }

  /** The set of a sequence's elements. */
  function Elements(s: seq<Json>): (r: set<Json>)
    ensures forall x :: x in r <==> x in s
  {
    set x | x in s
  }

  lemma ElementsStep(s: seq<Json>, x: Json)
    ensures Elements(s + [x]) == Elements(s) + {x}
  {
    assert forall y :: y in s + [x] <==> y in s || y == x;
  }

  /** Dedup keeps a new element exactly when it has not been seen. */
  lemma DedupStep(s: seq<Json>, x: Json)
    ensures x in s ==> Dedup(s + [x]) == Dedup(s)
    ensures x !in s ==> Dedup(s + [x]) == Dedup(s) + [x]
  {
    assert (s + [x])[..|s|] == s;
    assert Dedup(s) + [] == Dedup(s);
  }

  /**
   * first_pass_add_artists: add_artist once for every artist id the
   * entries yield, in first-seen order.
   */
  method FirstPass(l: Lidarr, groups: seq<Json>)
    returns (artistMap: map<Json, Json>, processed: set<Json>, addCalls: seq<Json>)
    ensures addCalls == Dedup(Candidates(l, groups))
    ensures processed == Elements(Candidates(l, groups))
    ensures artistMap == ArtistMapOf(l, addCalls)
  {
    artistMap, processed, addCalls := map[], {}, [];
    var i := 0;
    while i < |groups|
      invariant 0 <= i <= |groups|
      invariant addCalls == Dedup(Candidates(l, groups[..i]))
      invariant processed == Elements(Candidates(l, groups[..i]))
      invariant artistMap == ArtistMapOf(l, addCalls)
    {
      var entry := groups[i];
      assert groups[..i + 1] == groups[..i] + [entry];
      FirstPassStep(l, groups[..i], entry);
      // the entry's release-group id, its album lookup and the artist id in it
      var artistMbId := ArtistCandidate(l, entry);
      if Truthy(artistMbId) && artistMbId !in processed {
        var artistId := AddArtist(l, artistMbId).id;
        ArtistMapGrow(l, addCalls, artistMbId);
        addCalls := addCalls + [artistMbId];
        if Truthy(artistId) {
          artistMap := artistMap[artistMbId := artistId];
        }
        processed := processed + {artistMbId};
      }
      i := i + 1;
    }
    assert groups[..i] == groups;
  }

  /**
   * One more entry: an artist id not seen before is added once to the calls
   * and to the processed set; any other entry changes neither.
   */
  lemma FirstPassStep(l: Lidarr, gs: seq<Json>, e: Json)
    ensures var c := ArtistCandidate(l, e);
            if Truthy(c) && c !in Elements(Candidates(l, gs)) then
              && Dedup(Candidates(l, gs + [e])) == Dedup(Candidates(l, gs)) + [c]
              && Elements(Candidates(l, gs + [e])) == Elements(Candidates(l, gs)) + {c}
            else
              && Dedup(Candidates(l, gs + [e])) == Dedup(Candidates(l, gs))
              && Elements(Candidates(l, gs + [e])) == Elements(Candidates(l, gs))
  {
    var c := ArtistCandidate(l, e);
    CandidatesStep(l, gs, e);
    if Truthy(c) {
      DedupStep(Candidates(l, gs), c);
      ElementsStep(Candidates(l, gs), c);
    }
  }

  /**
   * What pass one promises: add_artist is called at most once per artist,
   * for exactly the artists found; the map's keys are among them and only
   * true ids are stored.
   */
  lemma FirstPassFacts(l: Lidarr, groups: seq<Json>)
    ensures NoDuplicates(Dedup(Candidates(l, groups)))
    ensures forall a :: a in Dedup(Candidates(l, groups)) <==> a in Candidates(l, groups)
    ensures forall a :: a in ArtistMapOf(l, Dedup(Candidates(l, groups))) ==>
              a in Candidates(l, groups) && Truthy(ArtistMapOf(l, Dedup(Candidates(l, groups)))[a])
    ensures forall a :: a in Candidates(l, groups) ==>
              (a in ArtistMapOf(l, Dedup(Candidates(l, groups))) <==> Truthy(AddArtist(l, a).id))
  {
  }

  /** An entry without a release-group id adds no artist. */
  lemma EntryWithoutIdIgnored(l: Lidarr, groups: seq<Json>, entry: Json)
    requires !Truthy(EntryId(entry))
    ensures Candidates(l, groups + [entry]) == Candidates(l, groups)
  {
    assert (groups + [entry])[..|groups|] == groups;
  }

  /** The requests of pass two besides the lookups. */
  datatype Request = UpdateAlbum(album: Json) | AddAlbum(body: Json) | SearchAlbum(command: Json)

  datatype Verdict = NoReleaseGroup | Added | Existing | Failed

  /** What one entry does in pass two: the counter it bumps and the requests it sends. */
  datatype Step = Step(verdict: Verdict, requests: seq<Request>)

  /** The album record prepared for POST /album. */
  function AlbumBody(info: Json, artistId: Json): (r: Json)
    requires info.Obj?
    ensures r.Obj?
    ensures Get(r, "artistId") == artistId
    ensures Get(r, "metadataProfileId") == Num(MetadataProfileId)
    ensures Get(r, "qualityProfileId") == Num(QualityProfileId)
    ensures Get(r, "monitored") == Bool(true)
    ensures Get(r, "addOptions") == Obj(map["searchForMissingAlbums" := Bool(true)])
    ensures forall k ::
              (k != "artistId" && k != "metadataProfileId" && k != "qualityProfileId" && k != "monitored" && k != "addOptions")
              ==> Get(r, k) == Get(info, k)
  {
    var a := Put(info, "artistId", artistId);
    var b := Put(a, "metadataProfileId", Num(MetadataProfileId));
    var c := Put(b, "qualityProfileId", Num(QualityProfileId));
    var d := Put(c, "monitored", Bool(true));
    var e := Put(d, "addOptions", Obj(map["searchForMissingAlbums" := Bool(true)]));
    PutGet(a, "metadataProfileId", Num(MetadataProfileId), "artistId");
    PutGet(b, "qualityProfileId", Num(QualityProfileId), "artistId");
    PutGet(b, "qualityProfileId", Num(QualityProfileId), "metadataProfileId");
    PutGet(c, "monitored", Bool(true), "artistId");
    PutGet(c, "monitored", Bool(true), "metadataProfileId");
    PutGet(c, "monitored", Bool(true), "qualityProfileId");
    PutGet(d, "addOptions", Obj(map["searchForMissingAlbums" := Bool(true)]), "artistId");
    PutGet(d, "addOptions", Obj(map["searchForMissingAlbums" := Bool(true)]), "metadataProfileId");
    PutGet(d, "addOptions", Obj(map["searchForMissingAlbums" := Bool(true)]), "qualityProfileId");
    PutGet(d, "addOptions", Obj(map["searchForMissingAlbums" := Bool(true)]), "monitored");
    e
  }

  /** The search request trigger_album_search posts, if any. */
  function SearchRequests(albumId: Json): seq<Request> {
    match AlbumSearchCommand(albumId)
    case None => []
    case Some(command) => [SearchAlbum(command)]
  }

  /** An album Lidarr already has: make sure it is monitored, then search for it. */
  function ExistingStep(l: Lidarr, info: Json): (r: Step)
    ensures r.verdict == Existing
    ensures forall j :: 0 <= j < |r.requests| ==> !r.requests[j].AddAlbum?
  {
    var m := MonitorAlbumIfNeeded(l, info);
    var updates := if m.update.Some? then [UpdateAlbum(m.update.value)] else [];
    Step(Existing, updates + if m.monitored then SearchRequests(Get(m.album, "id")) else [])
  }

  /** POST /album with the prepared body; a success triggers the search for the new id. */
  function AddStep(l: Lidarr, body: Json): (r: Step)
    ensures r.verdict == Added || r.verdict == Failed
    ensures |r.requests| >= 1 && r.requests[0] == AddAlbum(body)
    ensures forall j :: 1 <= j < |r.requests| ==> r.requests[j].SearchAlbum?
    ensures r.verdict == Added <==> l.addAlbum(body).Some? && l.addAlbum(body).value.Obj?
  {
    match l.addAlbum(body)
    case Some(answer) =>
      if answer.Obj? then Step(Added, [AddAlbum(body)] + SearchRequests(Get(answer, "id")))
      else Step(Failed, [AddAlbum(body)]) // .get on the answer raises
    case None => Step(Failed, [AddAlbum(body)])
  }

  /**
   * One iteration of second_pass_add_albums. The first failure ends the
   * entry as Failed; an album Lidarr already has is re-monitored (and
   * searched for when it is monitored) instead of being added.
   */
  function EntryStep(l: Lidarr, artistMap: map<Json, Json>, entry: Json): (r: Step)
    ensures r.verdict == NoReleaseGroup <==> !Truthy(EntryId(entry))
    ensures r.verdict == NoReleaseGroup ==> r.requests == []
    ensures r.verdict == Existing ==> Truthy(Get(AlbumOf(l, entry), "id"))
    ensures r.verdict == Existing ==> forall j :: 0 <= j < |r.requests| ==> !r.requests[j].AddAlbum?
    ensures r.verdict == Added ==> |r.requests| >= 1 && r.requests[0].AddAlbum?
    ensures forall j :: 1 <= j < |r.requests| ==> !r.requests[j].AddAlbum?
    ensures |r.requests| >= 1 && r.requests[0].AddAlbum? ==>
              && Get(r.requests[0].body, "monitored") == Bool(true)
              && Get(r.requests[0].body, "artistId") in artistMap.Values
    ensures |r.requests| >= 1 && r.requests[0].AddAlbum? ==>
              && AlbumOf(l, entry).Obj?
              && ExtractArtistMbId(AlbumOf(l, entry)) in artistMap
              && r.requests[0].body == AlbumBody(AlbumOf(l, entry), artistMap[ExtractArtistMbId(AlbumOf(l, entry))])
  {
    var mbId := EntryId(entry);
    if !Truthy(mbId) then Step(NoReleaseGroup, [])
    else
      var info := AlbumOf(l, entry);
      if !Truthy(info) then Step(Failed, [])
      else
        var artistMbId := ExtractArtistMbId(info);
        if !Truthy(artistMbId) || artistMbId !in artistMap then Step(Failed, [])
        else if Truthy(Get(info, "id")) then ExistingStep(l, info)
        else AddStep(l, AlbumBody(info, artistMap[artistMbId]))
  }

  /** The three counters of pass two. */
  datatype Tally = Tally(success: nat, existing: nat, fail: nat)

  function Count(t: Tally, v: Verdict): Tally {
    match v
    case NoReleaseGroup => t
    case Added => t.(success := t.success + 1)
    case Existing => t.(existing := t.existing + 1)
    case Failed => t.(fail := t.fail + 1)
  }

  function TallyOf(l: Lidarr, artistMap: map<Json, Json>, entries: seq<Json>): Tally {
    if entries == [] then Tally(0, 0, 0)
    else Count(TallyOf(l, artistMap, entries[..|entries| - 1]), EntryStep(l, artistMap, entries[|entries| - 1]).verdict)
  }

  function RequestsOf(l: Lidarr, artistMap: map<Json, Json>, entries: seq<Json>): seq<Request> {
    if entries == [] then []
    else RequestsOf(l, artistMap, entries[..|entries| - 1]) + EntryStep(l, artistMap, entries[|entries| - 1]).requests
  }

  /** The number of entries carrying a release-group id. */
  function WithId(entries: seq<Json>): nat {
    if entries == [] then 0
    else WithId(entries[..|entries| - 1]) + if Truthy(EntryId(entries[|entries| - 1])) then 1 else 0
  }

  /** Every entry with a release-group id bumps exactly one of the three counters. */
  lemma {:induction false} TallyPartition(l: Lidarr, artistMap: map<Json, Json>, entries: seq<Json>)
    ensures TallyOf(l, artistMap, entries).success + TallyOf(l, artistMap, entries).existing
            + TallyOf(l, artistMap, entries).fail == WithId(entries)
  {
    if entries != [] {
      TallyPartition(l, artistMap, entries[..|entries| - 1]);
    }
  }

  /** Pass two over one more entry. */
  lemma PassTwoStep(l: Lidarr, artistMap: map<Json, Json>, es: seq<Json>, e: Json)
    ensures TallyOf(l, artistMap, es + [e]) == Count(TallyOf(l, artistMap, es), EntryStep(l, artistMap, e).verdict)
    ensures RequestsOf(l, artistMap, es + [e]) == RequestsOf(l, artistMap, es) + EntryStep(l, artistMap, e).requests
  {
    assert (es + [e])[..|es|] == es;
  }

  /** second_pass_add_albums: the counters and the requests, entry by entry. */
  method SecondPass(l: Lidarr, groups: seq<Json>, artistMap: map<Json, Json>)
    returns (successCount: nat, existingCount: nat, failCount: nat, requests: seq<Request>)
    ensures Tally(successCount, existingCount, failCount) == TallyOf(l, artistMap, groups)
    ensures requests == RequestsOf(l, artistMap, groups)
  {
    successCount, existingCount, failCount, requests := 0, 0, 0, [];
    var i := 0;
    while i < |groups|
      invariant 0 <= i <= |groups|
      invariant Tally(successCount, existingCount, failCount) == TallyOf(l, artistMap, groups[..i])
      invariant requests == RequestsOf(l, artistMap, groups[..i])
    {
      var entry := groups[i];
      assert groups[..i + 1] == groups[..i] + [entry];
      PassTwoStep(l, artistMap, groups[..i], entry);
      var mbId := EntryId(entry);
      if !Truthy(mbId) {
        i := i + 1;
        continue;
      }
      // the lookups, the artist check and the add or re-monitor requests
      var step := EntryStep(l, artistMap, entry);
      requests := requests + step.requests;
      match step.verdict {
        case Added => successCount := successCount + 1;
        case Existing => existingCount := existingCount + 1;
        case Failed => failCount := failCount + 1;
      }
      i := i + 1;
    }
    assert groups[..i] == groups;
  }

  /** The whole sync: pass two runs with the map pass one built. */
  method Sync(l: Lidarr, groups: seq<Json>)
    returns (artistMap: map<Json, Json>, addCalls: seq<Json>, tally: Tally, requests: seq<Request>)
    ensures NoDuplicates(addCalls)
    ensures artistMap == ArtistMapOf(l, Dedup(Candidates(l, groups)))
    ensures tally == TallyOf(l, artistMap, groups)
    ensures tally.success + tally.existing + tally.fail == WithId(groups)
    ensures requests == RequestsOf(l, artistMap, groups)
  {
    var processed;
    artistMap, processed, addCalls := FirstPass(l, groups);
    var s, e, f;
    s, e, f, requests := SecondPass(l, groups, artistMap);
    tally := Tally(s, e, f);
    TallyPartition(l, artistMap, groups);
  }
}
