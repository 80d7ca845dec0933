/**
 * spotify_liked_chopper.py: read every liked track id page by page, then
 * spread them over playlists of at most 500 tracks, named "All My Liked
 * Songs 1", "All My Liked Songs 2", ..., each filled by add calls of at
 * most 100 tracks. The Spotify answers are a recorded sequence of pages.
 */
module LikedChopper {
  import opened Text

  const BatchSize: nat := 500
  const AddLimit: nat := 100
  const NamePrefix: string := "All My Liked Songs "

  function Min(a: nat, b: nat): nat {
    if a <= b then a else b
  }

  /** The sequences one after the other. */
  function Flatten<T>(ss: seq<seq<T>>): seq<T> {
    if ss == [] then [] else ss[0] + Flatten(ss[1..])
  }

  lemma {:induction false} FlattenAppend<T>(ss: seq<seq<T>>, x: seq<T>)
    ensures Flatten(ss + [x]) == Flatten(ss) + x
  {
    if ss != [] {
      assert (ss + [x])[1..] == ss[1..] + [x];
      FlattenAppend(ss[1..], x);
    }
  }

  /** The number of pages read before the first empty one (a missing page counts as empty). */
  function FirstEmpty(pages: seq<seq<string>>): (r: nat)
    ensures r <= |pages|
    ensures forall j :: 0 <= j < r ==> pages[j] != []
    ensures r < |pages| ==> pages[r] == []
  {
    if pages == [] || pages[0] == [] then 0 else 1 + FirstEmpty(pages[1..])
  }

  /**
   * The fetch loop: page after page is appended until the first empty one;
   * every request asks for the page at the number of ids read so far.
   */
  method FetchLiked(pages: seq<seq<string>>) returns (likedTracks: seq<string>, offsets: seq<nat>)
    ensures likedTracks == Flatten(pages[..FirstEmpty(pages)])
    ensures |offsets| == FirstEmpty(pages) + 1
    ensures forall j :: 0 <= j < |offsets| ==> offsets[j] == |Flatten(pages[..j])|
  {
    likedTracks := [];
    offsets := [];
    var offset := 0;
    var k := 0;
    while true
      invariant k <= FirstEmpty(pages)
      invariant likedTracks == Flatten(pages[..k])
      invariant offset == |likedTracks|
      invariant |offsets| == k
      invariant forall j :: 0 <= j < k ==> offsets[j] == |Flatten(pages[..j])|
      decreases |pages| - k
    {
      offsets := offsets + [offset];
      var items := if k < |pages| then pages[k] else [];
      if items == [] {
        break;
      }
      assert pages[..k + 1] == pages[..k] + [items];
      FlattenAppend(pages[..k], items);
      likedTracks := likedTracks + items;
      offset := offset + |items|;
      k := k + 1;
    }
  }

  /** "All My Liked Songs <k>" */
  function PlaylistName(k: nat): string {
    NamePrefix + NatToDecimal(k)
  }

  /** Different batch numbers give different playlist names. */
  lemma PlaylistNamesDistinct(j: nat, k: nat)
    requires j != k
    ensures PlaylistName(j) != PlaylistName(k)
  {
    if PlaylistName(j) == PlaylistName(k) {
      assert NatToDecimal(j) == PlaylistName(j)[|NamePrefix|..];
      assert NatToDecimal(k) == PlaylistName(k)[|NamePrefix|..];
      DecimalInjective(j, k);
    }
  }

  /** One playlist_add_items call and the 1-based range of liked tracks it reports. */
  datatype AddCall = AddCall(tracks: seq<string>, first: nat, last: nat)

  /** One created playlist, its tracks and the add calls that fill it. */
  datatype Batch = Batch(name: string, tracks: seq<string>, adds: seq<AddCall>)

  function CallTracks(calls: seq<AddCall>): seq<string> {
    if calls == [] then [] else calls[0].tracks + CallTracks(calls[1..])
  }

  /**
   * The add calls for the tracks `rest`, the first of which is liked track
   * number pos + 1: slices of 100, each reported with its 1-based range.
   */
  function AddsFrom(rest: seq<string>, pos: nat): seq<AddCall>
    decreases |rest|
  {
    if rest == [] then []
    else
      var n := Min(AddLimit, |rest|);
      [AddCall(rest[..n], pos + 1, pos + n)] + AddsFrom(rest[n..], pos + n)
  }

  /** The add calls carry the tracks in order; there are ceil(|rest| / 100) of them. */
  lemma {:induction false} AddsTracks(rest: seq<string>, pos: nat)
    ensures AddsFrom(rest, pos) == [] <==> rest == []
    ensures CallTracks(AddsFrom(rest, pos)) == rest
    ensures |AddsFrom(rest, pos)| == (|rest| + AddLimit - 1) / AddLimit
    decreases |rest|
  {
    if rest != [] {
      var n := Min(AddLimit, |rest|);
      assert rest == rest[..n] + rest[n..];
      AddsTracks(rest[n..], pos + n);
      CountStep(|rest|, n);
    }
  }

  /**
   * Non-empty add calls of 1 to 100 tracks each, whose reported ranges start
   * at first, follow each other without a gap and end at last.
   */
  predicate WellRanged(calls: seq<AddCall>, first: nat, last: nat) {
    && calls != []
    && calls[0].first == first
    && calls[|calls| - 1].last == last
    && (forall j :: 0 <= j < |calls| ==>
          1 <= |calls[j].tracks| <= AddLimit && calls[j].last + 1 == calls[j].first + |calls[j].tracks|)
    && (forall j :: 0 <= j < |calls| - 1 ==> calls[j + 1].first == calls[j].last + 1)
  }

  /** The add calls of a non-empty batch are well ranged over pos + 1 .. pos + |rest|. */
  lemma {:induction false} AddsRanges(rest: seq<string>, pos: nat)
    ensures rest != [] ==> WellRanged(AddsFrom(rest, pos), pos + 1, pos + |rest|)
    decreases |rest|
  {
    if rest != [] {
      var n := Min(AddLimit, |rest|);
      var head := AddCall(rest[..n], pos + 1, pos + n);
      var tail := AddsFrom(rest[n..], pos + n);
      assert AddsFrom(rest, pos) == [head] + tail;
      if n == |rest| {
        assert rest[n..] == [];
        assert [head] + tail == [head];
      } else {
        AddsRanges(rest[n..], pos + n);
        CallsCons(head, tail, pos + |rest|);
      }
    }
  }

  /**
   * The add calls carry the tracks in order, at most 100 at a time and at
   * least one, with ranges that start at pos + 1, follow each other without
   * a gap and end at pos + |rest|; there are ceil(|rest| / 100) of them.
   */
  lemma AddsShape(rest: seq<string>, pos: nat)
    ensures AddsFrom(rest, pos) == [] <==> rest == []
    ensures CallTracks(AddsFrom(rest, pos)) == rest
    ensures rest != [] ==> WellRanged(AddsFrom(rest, pos), pos + 1, pos + |rest|)
    ensures |AddsFrom(rest, pos)| == (|rest| + AddLimit - 1) / AddLimit
  {
    AddsTracks(rest, pos);
    AddsRanges(rest, pos);
  }

  /** Putting a call of 1 to 100 tracks in front of well-ranged calls that continue its range. */
  lemma CallsCons(head: AddCall, tail: seq<AddCall>, last: nat)
    requires 1 <= |head.tracks| <= AddLimit && head.last + 1 == head.first + |head.tracks|
    requires WellRanged(tail, head.last + 1, last)
    ensures WellRanged([head] + tail, head.first, last)
  {
    assert forall j :: 1 <= j < |[head] + tail| ==> ([head] + tail)[j] == tail[j - 1];
  }

  /** Taking n = min(100, len) tracks off leaves one call fewer. */
  lemma CountStep(len: nat, n: nat)
    requires len > 0 && n == Min(AddLimit, len)
    ensures (len + AddLimit - 1) / AddLimit == 1 + (len - n + AddLimit - 1) / AddLimit
  {
  }

  /**
   * The playlists for the tracks `rest`, the first of which is liked track
   * number pos + 1, numbered from k: slices of 500.
   */
  function PlanFrom(rest: seq<string>, pos: nat, k: nat): seq<Batch>
    decreases |rest|
  {
    if rest == [] then []
    else
      var n := Min(BatchSize, |rest|);
      var batch := rest[..n];
      [Batch(PlaylistName(k), batch, AddsFrom(batch, pos))] + PlanFrom(rest[n..], pos + n, k + 1)
  }

  /** There are ceil(|rest| / 500) playlists, none for no tracks. */
  lemma {:induction false} PlanCount(rest: seq<string>, pos: nat, k: nat)
    ensures PlanFrom(rest, pos, k) == [] <==> rest == []
    ensures |PlanFrom(rest, pos, k)| == (|rest| + BatchSize - 1) / BatchSize
    decreases |rest|
  {
    if rest != [] {
      var n := Min(BatchSize, |rest|);
      PlanCount(rest[n..], pos + n, k + 1);
    }
  }

  /**
   * Playlist j is named after batch number k + j and holds between 1 and
   * 500 tracks, all but the last exactly 500.
   */
  lemma {:induction false} PlanBatches(rest: seq<string>, pos: nat, k: nat)
    ensures forall j :: 0 <= j < |PlanFrom(rest, pos, k)| ==>
              && PlanFrom(rest, pos, k)[j].name == PlaylistName(k + j)
              && 1 <= |PlanFrom(rest, pos, k)[j].tracks| <= BatchSize
    ensures forall j :: 0 <= j < |PlanFrom(rest, pos, k)| - 1 ==> |PlanFrom(rest, pos, k)[j].tracks| == BatchSize
    decreases |rest|
  {
    if rest != [] {
      var n := Min(BatchSize, |rest|);
      var head := Batch(PlaylistName(k), rest[..n], AddsFrom(rest[..n], pos));
      var tail := PlanFrom(rest[n..], pos + n, k + 1);
      assert PlanFrom(rest, pos, k) == [head] + tail;
      PlanBatches(rest[n..], pos + n, k + 1);
      assert tail != [] ==> n == BatchSize;
      assert forall j :: 1 <= j < |[head] + tail| ==> ([head] + tail)[j] == tail[j - 1];
    }
  }

  /** Playlist j is filled by the add calls of its slice, which starts after liked track pos + 500 * j. */
  lemma {:induction false} PlanAdds(rest: seq<string>, pos: nat, k: nat)
    ensures forall j :: 0 <= j < |PlanFrom(rest, pos, k)| ==>
              PlanFrom(rest, pos, k)[j].adds == AddsFrom(PlanFrom(rest, pos, k)[j].tracks, pos + j * BatchSize)
    decreases |rest|
  {
    if rest != [] {
      var n := Min(BatchSize, |rest|);
      var head := Batch(PlaylistName(k), rest[..n], AddsFrom(rest[..n], pos));
      var tail := PlanFrom(rest[n..], pos + n, k + 1);
      assert PlanFrom(rest, pos, k) == [head] + tail;
      PlanAdds(rest[n..], pos + n, k + 1);
      if tail != [] {
        assert n == BatchSize;
        forall j | 1 <= j < |[head] + tail|
          ensures ([head] + tail)[j].adds == AddsFrom(([head] + tail)[j].tracks, pos + j * BatchSize)
        {
          assert ([head] + tail)[j] == tail[j - 1];
          assert pos + n + (j - 1) * BatchSize == pos + j * BatchSize;
        }
      }
    }
  }

  /** The playlists from index i of s: the next slice of 500 as playlist k, then the rest. */
  lemma PlanStep(s: seq<string>, i: nat, k: nat)
    requires i < |s|
    ensures PlanFrom(s[i..], i, k)
              == [Batch(PlaylistName(k), s[i..Min(i + BatchSize, |s|)], AddsFrom(s[i..Min(i + BatchSize, |s|)], i))]
                 + PlanFrom(s[Min(i + BatchSize, |s|)..], Min(i + BatchSize, |s|), k + 1)
  {
    var end := Min(i + BatchSize, |s|);
    assert s[i..][..Min(BatchSize, |s| - i)] == s[i..end];
    assert s[i..][Min(BatchSize, |s| - i)..] == s[end..];
  }

  /** The whole plan: playlists numbered from 1 over all liked tracks. */
  function Plan(likedTracks: seq<string>): seq<Batch> {
    PlanFrom(likedTracks, 0, 1)
  }

  function BatchTracks(plan: seq<Batch>): seq<string> {
    if plan == [] then [] else plan[0].tracks + BatchTracks(plan[1..])
  }

  function AllAdds(plan: seq<Batch>): seq<AddCall> {
    if plan == [] then [] else plan[0].adds + AllAdds(plan[1..])
  }

  /** The playlists hold the liked tracks in order, each exactly once. */
  lemma {:induction false} PlanKeepsOrder(rest: seq<string>, pos: nat, k: nat)
    ensures BatchTracks(PlanFrom(rest, pos, k)) == rest
    decreases |rest|
  {
    if rest != [] {
      var n := Min(BatchSize, |rest|);
      assert rest == rest[..n] + rest[n..];
      PlanKeepsOrder(rest[n..], pos + n, k + 1);
    }
  }

  /** The add calls of the tracks from index i of s: the next slice of 100, then the rest. */
  lemma AddsStep(s: seq<string>, i: nat, pos: nat)
    requires i < |s|
    ensures AddsFrom(s[i..], pos + i)
              == [AddCall(s[i..Min(i + AddLimit, |s|)], pos + i + 1, pos + Min(i + AddLimit, |s|))]
                 + AddsFrom(s[Min(i + AddLimit, |s|)..], pos + Min(i + AddLimit, |s|))
  {
    var end := Min(i + AddLimit, |s|);
    assert s[i..][..Min(AddLimit, |s| - i)] == s[i..end];
    assert s[i..][Min(AddLimit, |s| - i)..] == s[end..];
  }

  /** A whole number of hundreds, less one hundred, is still a whole number of hundreds. */
  lemma HundredsLess(x: nat)
    requires x % AddLimit == 0 && x != 0
    ensures x >= AddLimit && (x - AddLimit) % AddLimit == 0
  {
  }

  /** With at least 100 tracks the first add call takes exactly 100. */
  lemma AddsHead(rest: seq<string>, pos: nat)
    requires |rest| >= AddLimit
    ensures AddsFrom(rest, pos) == [AddCall(rest[..AddLimit], pos + 1, pos + AddLimit)] + AddsFrom(rest[AddLimit..], pos + AddLimit)
  {
  }

  /** Add calls over a whole number of hundreds followed by more tracks. */
  lemma {:induction false} AddsAppend(a: seq<string>, b: seq<string>, pos: nat)
    requires |a| % AddLimit == 0
    ensures AddsFrom(a + b, pos) == AddsFrom(a, pos) + AddsFrom(b, pos + |a|)
    decreases |a|
  {
    if a == [] {
      assert a + b == b;
    } else {
      HundredsLess(|a|);
      var head := AddCall(a[..AddLimit], pos + 1, pos + AddLimit);
      AddsHead(a + b, pos);
      AddsHead(a, pos);
      assert (a + b)[..AddLimit] == a[..AddLimit];
      assert (a + b)[AddLimit..] == a[AddLimit..] + b;
      AddsAppend(a[AddLimit..], b, pos + AddLimit);
      assert AddsFrom(a + b, pos) == [head] + (AddsFrom(a[AddLimit..], pos + AddLimit) + AddsFrom(b, pos + |a|));
    }
  }

  /**
   * Across all playlists the add calls are the slices of 100 of the whole
   * liked list, so their reported ranges run from 1 to the number of liked
   * tracks without a gap or an overlap.
   */
  lemma {:induction false} PlanAddsAreHundreds(rest: seq<string>, pos: nat, k: nat)
    ensures AllAdds(PlanFrom(rest, pos, k)) == AddsFrom(rest, pos)
    decreases |rest|
  {
    if rest != [] {
      var n := Min(BatchSize, |rest|);
      assert rest == rest[..n] + rest[n..];
      PlanAddsAreHundreds(rest[n..], pos + n, k + 1);
      if n == BatchSize {
        AddsAppend(rest[..n], rest[n..], pos);
      } else {
        assert rest[n..] == [];
        assert rest[..n] == rest;
      }
    }
  }

  /** The reported ranges of the whole plan cover 1 .. |likedTracks| contiguously. */
  lemma PlanRanges(likedTracks: seq<string>)
    requires likedTracks != []
    ensures WellRanged(AllAdds(Plan(likedTracks)), 1, |likedTracks|)
    ensures CallTracks(AllAdds(Plan(likedTracks))) == likedTracks
  {
    PlanAddsAreHundreds(likedTracks, 0, 1);
    AddsShape(likedTracks, 0);
  }

  /**
   * The batch loop with its inner add loop: batch k starts at liked track
   * 500 * (k - 1), and its adds start every 100 tracks.
   */
  method PlanPlaylists(likedTracks: seq<string>) returns (plan: seq<Batch>)
    ensures plan == Plan(likedTracks)
  {
    plan := [];
    var batchNum := 1;
    var startIdx := 0;
    while startIdx < |likedTracks|
      invariant startIdx <= |likedTracks|
      invariant plan + PlanFrom(likedTracks[startIdx..], startIdx, batchNum) == Plan(likedTracks)
      decreases |likedTracks| - startIdx
    {
      var playlistName := PlaylistName(batchNum);
      var end := Min(startIdx + BatchSize, |likedTracks|);
      var batchTracks := likedTracks[startIdx..end];
      var adds := AddCalls(batchTracks, startIdx);
      var batch := Batch(playlistName, batchTracks, adds);
      PlanStep(likedTracks, startIdx, batchNum);
      assert (plan + [batch]) + PlanFrom(likedTracks[end..], end, batchNum + 1)
          == plan + PlanFrom(likedTracks[startIdx..], startIdx, batchNum);
      plan := plan + [batch];
      startIdx := end;
      batchNum := batchNum + 1;
    }
    assert likedTracks[startIdx..] == [];
  }

  /** The inner loop: one add call per 100 tracks of the batch. */
  method AddCalls(batchTracks: seq<string>, startIdx: nat) returns (adds: seq<AddCall>)
    ensures adds == AddsFrom(batchTracks, startIdx)
  {
    adds := [];
    var i := 0;
    while i < |batchTracks|
      invariant i <= |batchTracks|
      invariant adds + AddsFrom(batchTracks[i..], startIdx + i) == AddsFrom(batchTracks, startIdx)
      decreases |batchTracks| - i
    {
      var end := Min(i + AddLimit, |batchTracks|);
      var call := AddCall(batchTracks[i..end], startIdx + i + 1, startIdx + end);
      AddsStep(batchTracks, i, startIdx);
      assert (adds + [call]) + AddsFrom(batchTracks[end..], startIdx + end) == adds + AddsFrom(batchTracks[i..], startIdx + i);
      adds := adds + [call];
      i := end;
    }
    assert batchTracks[i..] == [];
  }
}
