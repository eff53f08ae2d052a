/**
  `main`: the retention sweep, then the sync and deduplication loop over the
  channel catalogue. The in-memory history (`past_videos`) starts as the
  stored file, gains one URL per completed transfer, and is written back
  once at the end. Every external call is an input: the Drive listing and
  delete outcomes, the list stored in each `channels.json`, the API replies,
  and per video the outcome of each transfer step.
*/
module SyncDriver {
  import opened Wrappers
  import opened Streams
  import opened Resolver
  import Retention
  import Catalogue

  /** `LAST_VIDEO_N`: how many of each channel's latest videos are fetched. */
  const LastVideoN: nat := 3

  /** The retention window `main` passes to `delete_old_videos`. */
  const DaysToKeep: int := 14

  /**
    What the outside world does when one video is transferred: the resolution
    labels of its progressive mp4 streams in resolution order, and whether
    fetching the chosen stream, the upload and the local removal succeed.
  */
  datatype Steps = Steps(streams: seq<string>, fetched: bool, uploaded: bool, removed: bool)

  /** The replies of the YouTube API and the transfer outcomes, per request. */
  datatype Services = Services(
    channels: string -> Reply<ChannelItem>,
    playlist: (string, nat) -> Reply<PlaylistItem>,
    transfer: Video -> Steps)

  /**
    `download_video` succeeds: a stream was chosen and fetched. `ChooseStream`
    chooses one exactly when the list is not empty; with none, the download raises.
  */
  predicate Downloaded(st: Steps)
    ensures Downloaded(st) <==> ChooseStream(st.streams).Some? && st.fetched
  {
    st.streams != [] && st.fetched
  }

  /** Download, upload and local removal all succeed. */
  predicate Completed(st: Steps)
  {
    Downloaded(st) && st.uploaded && st.removed
  }

  /** `get_latest_video_url(channel_id, LAST_VIDEO_N)` as `main` calls it. */
  function Resolve(svc: Services, channelId: string): Latest
  {
    LatestVideos(channelId, LastVideoN, svc.channels(channelId), svc.playlist)
  }

  /** Python truthiness of the resolver's result: an error tuple is a non-empty tuple. */
  predicate Truthy(r: Latest)
    ensures r.Failed? ==> Truthy(r)
    ensures r.Videos? ==> (Truthy(r) <==> r.videos != [])
  {
    r.Failed? || r.videos != []
  }

  /** The run's state: the in-memory history and the videos whose transfer was attempted. */
  datatype State = State(history: seq<string>, attempted: seq<Video>)

  /** One video of the inner loop: skip a known URL, else try the transfer. */
  function VideoStep(svc: Services, v: Video, s: State): State
  {
    if v.url in s.history then s
    else
      var tried := s.(attempted := s.attempted + [v]);
      if Completed(svc.transfer(v)) then tried.(history := s.history + [v.url]) else tried
  }

  function VideosStep(svc: Services, vs: seq<Video>, s: State): State
    decreases |vs|
  {
    if vs == [] then s else VideosStep(svc, vs[1..], VideoStep(svc, vs[0], s))
  }

  /**
    One channel of the outer loop. An empty list is caught by `if not videos`;
    an error tuple `(None, msg)` is truthy, gets past that test, and fails to
    unpack into `video_url, video_title`, which the per-channel handler catches.
    Either way nothing is transferred for the channel.
  */
  function ChannelStep(svc: Services, channelId: string, s: State): State
    ensures ChannelStep(svc, channelId, s) == VideosStep(svc, ChannelVideos(svc, channelId), s)
  {
    var r := Resolve(svc, channelId);
    if !Truthy(r) then s
    else match r
      case Failed(_) => s
      case Videos(vs) => VideosStep(svc, vs, s)
  }

  function Sync(svc: Services, channels: seq<string>, s: State): State
    decreases |channels|
  {
    if channels == [] then s else Sync(svc, channels[1..], ChannelStep(svc, channels[0], s))
  }

  /** The URL a video's attempt adds to the history: its own if the transfer completes. */
  function RecordedBy(svc: Services, v: Video): seq<string>
  {
    if Completed(svc.transfer(v)) then [v.url] else []
  }

  /** The URLs of the videos whose transfer completes, in order. */
  function Recorded(svc: Services, vs: seq<Video>): seq<string>
  {
    if vs == [] then [] else RecordedBy(svc, vs[0]) + Recorded(svc, vs[1..])
  }

  lemma {:induction false} RecordedAppend(svc: Services, a: seq<Video>, b: seq<Video>)
    ensures Recorded(svc, a + b) == Recorded(svc, a) + Recorded(svc, b)
  {
    if a == [] {
      assert a + b == b;
    } else {
      assert (a + b)[1..] == a[1..] + b;
      RecordedAppend(svc, a[1..], b);
    }
  }

  /** No URL is recorded for a video whose transfer did not complete. */
  lemma {:induction false} RecordedOnlyCompleted(svc: Services, vs: seq<Video>, u: string)
    ensures u in Recorded(svc, vs) <==> exists v :: v in vs && v.url == u && Completed(svc.transfer(v))
  {
    if vs != [] {
      RecordedOnlyCompleted(svc, vs[1..], u);
      assert vs == [vs[0]] + vs[1..];
    }
  }

  lemma ConcatAssoc(h: seq<string>, p: seq<string>, q: seq<string>, r: seq<string>)
    requires r == p + q
    ensures h + p + q == h + r
  {
  }

  /**
    Each video of `vs` was attempted while its URL was absent from the history,
    that is from `h` followed by the URLs recorded by the attempts before it.
  */
  ghost predicate AttemptedFresh(svc: Services, h: seq<string>, vs: seq<Video>)
    decreases |vs|
  {
    vs == [] || (vs[0].url !in h && AttemptedFresh(svc, h + RecordedBy(svc, vs[0]), vs[1..]))
  }

  /** The same, position by position. */
  lemma {:induction false} AttemptedFreshAt(svc: Services, h: seq<string>, vs: seq<Video>, k: nat)
    requires AttemptedFresh(svc, h, vs) && k < |vs|
    ensures vs[k].url !in h + Recorded(svc, vs[..k])
    decreases k
  {
    if k == 0 {
      assert vs[..0] == [];
    } else {
      var rest := vs[1..];
      AttemptedFreshAt(svc, h + RecordedBy(svc, vs[0]), rest, k - 1);
      assert vs[..k][0] == vs[0] && vs[..k][1..] == rest[..k - 1];
      assert rest[k - 1] == vs[k];
      ConcatAssoc(h, RecordedBy(svc, vs[0]), Recorded(svc, rest[..k - 1]), Recorded(svc, vs[..k]));
    }
  }

  lemma {:induction false} AttemptedFreshConcat(svc: Services, h: seq<string>, x: seq<Video>, y: seq<Video>)
    requires AttemptedFresh(svc, h, x) && AttemptedFresh(svc, h + Recorded(svc, x), y)
    ensures AttemptedFresh(svc, h, x + y)
    decreases |x|
  {
    if x == [] {
      assert x + y == y;
      assert h + Recorded(svc, x) == h;
    } else {
      assert (x + y)[0] == x[0] && (x + y)[1..] == x[1..] + y;
      var h' := h + RecordedBy(svc, x[0]);
      ConcatAssoc(h, RecordedBy(svc, x[0]), Recorded(svc, x[1..]), Recorded(svc, x));
      AttemptedFreshConcat(svc, h', x[1..], y);
    }
  }

  /**
    `s` is a later state of the same run as `s0`: the attempts of `s0` are a
    prefix of those of `s`; the history of `s` is that of `s0` followed by the
    URLs of the new attempts that completed, in order; and every new attempt
    was made for a URL that was in the history neither at `s0` nor because of
    an earlier attempt since.
  */
  ghost predicate Advances(svc: Services, s0: State, s: State)
  {
    var n := |s0.attempted|;
    && n <= |s.attempted|
    && s.attempted[..n] == s0.attempted
    && s.history == s0.history + Recorded(svc, s.attempted[n..])
    && AttemptedFresh(svc, s0.history, s.attempted[n..])
  }

  lemma AdvancesReflexive(svc: Services, s: State)
    ensures Advances(svc, s, s)
  {
    assert s.attempted[|s.attempted|..] == [];
  }

  lemma AdvancesTransitive(svc: Services, a: State, b: State, c: State)
    requires Advances(svc, a, b) && Advances(svc, b, c)
    ensures Advances(svc, a, c)
  {
    var na, nb := |a.attempted|, |b.attempted|;
    var att := c.attempted;
    var x, y := b.attempted[na..], att[nb..];
    assert att[..nb] == b.attempted;
    assert att[..na] == a.attempted by {
      assert att[..na] == att[..nb][..na];
    }
    assert att[na..] == x + y;
    assert b.history == a.history + Recorded(svc, x);
    assert c.history == b.history + Recorded(svc, y);
    RecordedAppend(svc, x, y);
    ConcatAssoc(a.history, Recorded(svc, x), Recorded(svc, y), Recorded(svc, x + y));
    AttemptedFreshConcat(svc, a.history, x, y);
  }

  /**
    One video: a known URL is skipped and nothing changes; a new one is
    attempted, and the run advances by that attempt alone.
  */
  lemma VideoStepAdvances(svc: Services, v: Video, s: State)
    ensures v.url in s.history ==> VideoStep(svc, v, s) == s
    ensures v.url !in s.history ==> VideoStep(svc, v, s).attempted == s.attempted + [v]
    ensures Advances(svc, s, VideoStep(svc, v, s))
  {
    var t := VideoStep(svc, v, s);
    var n := |s.attempted|;
    if v.url in s.history {
      AdvancesReflexive(svc, s);
    } else {
      assert t.attempted[n..] == [v];
      assert t.attempted[n..n] == [];
      assert Recorded(svc, [v]) == (if Completed(svc.transfer(v)) then [v.url] else []) + Recorded(svc, []);
    }
  }

  lemma {:induction false} VideosStepAdvances(svc: Services, vs: seq<Video>, s: State)
    ensures Advances(svc, s, VideosStep(svc, vs, s))
    decreases |vs|
  {
    if vs == [] {
      AdvancesReflexive(svc, s);
    } else {
      var s1 := VideoStep(svc, vs[0], s);
      VideoStepAdvances(svc, vs[0], s);
      VideosStepAdvances(svc, vs[1..], s1);
      AdvancesTransitive(svc, s, s1, VideosStep(svc, vs[1..], s1));
    }
  }

  lemma ChannelStepAdvances(svc: Services, channelId: string, s: State)
    ensures Advances(svc, s, ChannelStep(svc, channelId, s))
  {
    var r := Resolve(svc, channelId);
    if Truthy(r) && r.Videos? {
      VideosStepAdvances(svc, r.videos, s);
    } else {
      AdvancesReflexive(svc, s);
    }
  }

  /**
    Over a whole run, the history only grows at its end, exactly by the URLs
    of the completed transfers, and no transfer is tried for a URL already
    recorded (before the run or earlier in it).
  */
  lemma {:induction false} SyncAdvances(svc: Services, channels: seq<string>, s: State)
    ensures Advances(svc, s, Sync(svc, channels, s))
    decreases |channels|
  {
    if channels == [] {
      AdvancesReflexive(svc, s);
    } else {
      var s1 := ChannelStep(svc, channels[0], s);
      ChannelStepAdvances(svc, channels[0], s);
      SyncAdvances(svc, channels[1..], s1);
      AdvancesTransitive(svc, s, s1, Sync(svc, channels[1..], s1));
    }
  }

  /** Every video of `vs` is recorded in `f`, or was attempted after the first `n` attempts of `f`. */
  ghost predicate Tried(vs: seq<Video>, f: State, n: nat)
  {
    n <= |f.attempted| && forall v :: v in vs ==> v.url in f.history || v in f.attempted[n..]
  }

  /** The inner loop leaves out no video: each is already recorded or gets an attempt. */
  lemma {:induction false} VideosStepTriesNew(svc: Services, vs: seq<Video>, s: State)
    ensures Tried(vs, VideosStep(svc, vs, s), |s.attempted|)
    decreases |vs|
  {
    var f := VideosStep(svc, vs, s);
    VideosStepAdvances(svc, vs, s);
    if vs != [] {
      var s1 := VideoStep(svc, vs[0], s);
      var n, n1 := |s.attempted|, |s1.attempted|;
      VideoStepAdvances(svc, vs[0], s);
      VideosStepTriesNew(svc, vs[1..], s1);
      VideosStepAdvances(svc, vs[1..], s1);
      assert f.attempted[..n1] == s1.attempted;
      assert f.attempted[n..] == f.attempted[n..n1] + f.attempted[n1..];
      if vs[0].url !in s.history {
        assert f.attempted[n] == vs[0];
      }
      assert vs == [vs[0]] + vs[1..];
    }
  }

  /** Every video of every catalogue channel is recorded by the end of the run or was attempted in it. */
  lemma {:induction false} SyncTriesNew(svc: Services, channels: seq<string>, s: State)
    ensures forall c :: c in channels ==> Tried(ChannelVideos(svc, c), Sync(svc, channels, s), |s.attempted|)
    decreases |channels|
  {
    if channels != [] {
      var c := channels[0];
      var s1 := ChannelStep(svc, c, s);
      var f := Sync(svc, channels[1..], s1);
      var n, n1 := |s.attempted|, |s1.attempted|;
      VideosStepTriesNew(svc, ChannelVideos(svc, c), s);
      SyncTriesNew(svc, channels[1..], s1);
      SyncAdvances(svc, channels[1..], s1);
      ChannelStepAdvances(svc, c, s);
      assert f.attempted[..n1] == s1.attempted;
      assert f.attempted[n..] == f.attempted[n..n1] + f.attempted[n1..];
      assert forall v :: v in s1.attempted[n..] ==> v in f.attempted[n..];
      assert forall v :: v in f.attempted[n1..] ==> v in f.attempted[n..];
      assert channels == [c] + channels[1..];
    }
  }

  /** The history a run ends with, from the stored history and the catalogue. */
  function Run(svc: Services, channels: seq<string>, stored: seq<string>): State
  {
    Sync(svc, channels, State(stored, []))
  }

  /**
    The stored history is an unchanged prefix of the final one; what follows
    it is exactly the URLs of completed transfers, in order; no URL of the
    stored history is ever attempted; and a URL recorded once is never
    attempted again in the same run.
  */
  lemma RunAppendsOnly(svc: Services, channels: seq<string>, stored: seq<string>)
    ensures var f := Run(svc, channels, stored);
            && |stored| <= |f.history|
            && f.history[..|stored|] == stored
            && f.history == stored + Recorded(svc, f.attempted)
            && (forall u :: u in f.history[|stored|..] ==>
                  exists v :: v in f.attempted && v.url == u && Completed(svc.transfer(v)))
            && (forall v :: v in f.attempted ==> v.url !in stored)
            && (forall k :: 0 <= k < |f.attempted| ==> f.attempted[k].url !in Recorded(svc, f.attempted[..k]))
  {
    var f := Run(svc, channels, stored);
    SyncAdvances(svc, channels, State(stored, []));
    assert f.attempted[0..] == f.attempted;
    assert f.history[|stored|..] == Recorded(svc, f.attempted);
    forall u | u in f.history[|stored|..]
      ensures exists v :: v in f.attempted && v.url == u && Completed(svc.transfer(v))
    {
      RecordedOnlyCompleted(svc, f.attempted, u);
    }
    forall k | 0 <= k < |f.attempted|
      ensures f.attempted[k].url !in stored && f.attempted[k].url !in Recorded(svc, f.attempted[..k])
    {
      AttemptedFreshAt(svc, stored, f.attempted, k);
    }
  }

  ghost predicate NoDuplicates(s: seq<string>)
  {
    forall i, j :: 0 <= i < j < |s| ==> s[i] != s[j]
  }

  lemma AppendFreshKeepsNoDuplicates(s: seq<string>, x: string)
    requires NoDuplicates(s) && x !in s
    ensures NoDuplicates(s + [x])
  {
  }

  lemma {:induction false} VideosStepKeepsNoDuplicates(svc: Services, vs: seq<Video>, s: State)
    requires NoDuplicates(s.history)
    ensures NoDuplicates(VideosStep(svc, vs, s).history)
    decreases |vs|
  {
    if vs != [] {
      var v := vs[0];
      if v.url !in s.history && Completed(svc.transfer(v)) {
        AppendFreshKeepsNoDuplicates(s.history, v.url);
      }
      VideosStepKeepsNoDuplicates(svc, vs[1..], VideoStep(svc, v, s));
    }
  }

  /** A run started from a history without duplicates ends with none. */
  lemma {:induction false} SyncKeepsNoDuplicates(svc: Services, channels: seq<string>, s: State)
    requires NoDuplicates(s.history)
    ensures NoDuplicates(Sync(svc, channels, s).history)
    decreases |channels|
  {
    if channels != [] {
      var r := Resolve(svc, channels[0]);
      if Truthy(r) && r.Videos? {
        VideosStepKeepsNoDuplicates(svc, r.videos, s);
      }
      SyncKeepsNoDuplicates(svc, channels[1..], ChannelStep(svc, channels[0], s));
    }
  }

  lemma {:induction false} SyncConcat(svc: Services, a: seq<string>, b: seq<string>, s: State)
    ensures Sync(svc, a + b, s) == Sync(svc, b, Sync(svc, a, s))
    decreases |a|
  {
    if a == [] {
      assert a + b == b;
    } else {
      assert (a + b)[1..] == a[1..] + b;
      SyncConcat(svc, a[1..], b, ChannelStep(svc, a[0], s));
    }
  }

  /**
    Channel isolation: a channel whose resolution fails or yields no videos
    changes nothing, wherever it stands in the catalogue; the channels before
    and after it are processed as if it were absent.
  */
  lemma FailingChannelIsSkipped(svc: Services, before: seq<string>, channelId: string, after: seq<string>, s: State)
    requires Resolve(svc, channelId).Failed? || Resolve(svc, channelId).videos == []
    ensures Sync(svc, before + [channelId] + after, s) == Sync(svc, before + after, s)
  {
    var mid := Sync(svc, before, s);
    SyncConcat(svc, before, [channelId] + after, s);
    assert before + [channelId] + after == before + ([channelId] + after);
    assert ([channelId] + after)[1..] == after;
    assert ChannelStep(svc, channelId, mid) == mid;
    SyncConcat(svc, before, after, s);
  }

  /**
    The truthy error tuple: `if not videos` lets an error result through, yet
    the channel still changes nothing, because unpacking its `None` raises and
    the per-channel handler catches it.
  */
  lemma ErrorTupleIsSkipped(svc: Services, channelId: string, s: State)
    requires Resolve(svc, channelId).Failed?
    ensures Truthy(Resolve(svc, channelId))
    ensures ChannelStep(svc, channelId, s) == s
  {
  }

  /** The videos a channel's resolution yields; none when it fails. */
  function ChannelVideos(svc: Services, channelId: string): seq<Video>
  {
    match Resolve(svc, channelId)
    case Videos(vs) => vs
    case Failed(_) => []
  }

  /** Every video in `vs` is either recorded in `h` or fails to transfer. */
  ghost predicate Settled(svc: Services, vs: seq<Video>, h: seq<string>)
  {
    forall v :: v in vs ==> v.url in h || !Completed(svc.transfer(v))
  }

  ghost predicate ChannelsSettled(svc: Services, channels: seq<string>, h: seq<string>)
  {
    forall c :: c in channels ==> Settled(svc, ChannelVideos(svc, c), h)
  }

  lemma SettledGrows(svc: Services, vs: seq<Video>, h: seq<string>, more: seq<string>)
    requires Settled(svc, vs, h)
    ensures Settled(svc, vs, h + more)
  {
  }

  lemma {:induction false} VideosStepSettles(svc: Services, vs: seq<Video>, s: State)
    ensures Settled(svc, vs, VideosStep(svc, vs, s).history)
    decreases |vs|
  {
    if vs != [] {
      var s1 := VideoStep(svc, vs[0], s);
      var f := VideosStep(svc, vs[1..], s1);
      VideosStepSettles(svc, vs[1..], s1);
      VideosStepAdvances(svc, vs[1..], s1);
      assert vs[0].url in s1.history || !Completed(svc.transfer(vs[0]));
      assert f.history == s1.history + Recorded(svc, f.attempted[|s1.attempted|..]);
      assert vs == [vs[0]] + vs[1..];
    }
  }

  lemma {:induction false} VideosStepStable(svc: Services, vs: seq<Video>, s: State)
    requires Settled(svc, vs, s.history)
    ensures VideosStep(svc, vs, s).history == s.history
    decreases |vs|
  {
    if vs != [] {
      assert vs[0] in vs;
      assert forall v :: v in vs[1..] ==> v in vs;
      VideosStepStable(svc, vs[1..], VideoStep(svc, vs[0], s));
    }
  }

  /** After a run, every video of every channel is recorded or fails to transfer. */
  lemma {:induction false} SyncSettles(svc: Services, channels: seq<string>, s: State)
    ensures ChannelsSettled(svc, channels, Sync(svc, channels, s).history)
    decreases |channels|
  {
    if channels != [] {
      var c := channels[0];
      var s1 := ChannelStep(svc, c, s);
      var f := Sync(svc, channels[1..], s1);
      VideosStepSettles(svc, ChannelVideos(svc, c), s);
      SyncSettles(svc, channels[1..], s1);
      SyncAdvances(svc, channels[1..], s1);
      SettledGrows(svc, ChannelVideos(svc, c), s1.history, Recorded(svc, f.attempted[|s1.attempted|..]));
      assert channels == [c] + channels[1..];
    }
  }

  /** A run over settled channels leaves the history as it is. */
  lemma {:induction false} SyncStable(svc: Services, channels: seq<string>, s: State)
    requires ChannelsSettled(svc, channels, s.history)
    ensures Sync(svc, channels, s).history == s.history
    decreases |channels|
  {
    if channels != [] {
      var c := channels[0];
      assert c in channels;
      assert forall d :: d in channels[1..] ==> d in channels;
      VideosStepStable(svc, ChannelVideos(svc, c), s);
      SyncStable(svc, channels[1..], ChannelStep(svc, c, s));
    }
  }

  lemma {:induction false} RecordedEmpty(svc: Services, vs: seq<Video>)
    requires Recorded(svc, vs) == []
    ensures forall v :: v in vs ==> !Completed(svc.transfer(v))
  {
    if vs != [] {
      RecordedEmpty(svc, vs[1..]);
    }
  }

  /**
    Idempotence: running again on the persisted history, with the same
    channels and the same outcomes, records nothing new; it retries only
    videos that fail again and never one already recorded.
  */
  lemma Idempotent(svc: Services, channels: seq<string>, stored: seq<string>)
    ensures var h := Run(svc, channels, stored).history;
            var again := Run(svc, channels, h);
            && again.history == h
            && (forall v :: v in again.attempted ==> v.url !in h && !Completed(svc.transfer(v)))
            && forall c :: c in channels ==>
                 forall v :: v in ChannelVideos(svc, c) && v.url !in h ==> v in again.attempted
  {
    var h := Run(svc, channels, stored).history;
    var again := Run(svc, channels, h);
    SyncSettles(svc, channels, State(stored, []));
    SyncStable(svc, channels, State(h, []));
    RunAppendsOnly(svc, channels, h);
    assert h + Recorded(svc, again.attempted) == h + [];
    RecordedEmpty(svc, again.attempted);
    SyncTriesNew(svc, channels, State(h, []));
    assert again.attempted[0..] == again.attempted;
  }

  /**
    A stored history holding video A and a channel whose latest videos are
    A, B and C: A is skipped, B and C are tried, B completes and C does not,
    so the history becomes [A, B].
  */
  lemma SkipKnownTransferNew(svc: Services, channelId: string, a: Video, b: Video, c: Video)
    requires Resolve(svc, channelId) == Videos([a, b, c])
    requires a.url != b.url && c.url != a.url && c.url != b.url
    requires Completed(svc.transfer(b)) && !Completed(svc.transfer(c))
    ensures Run(svc, [channelId], [a.url]) == State([a.url, b.url], [b, c])
  {
    var s0 := State([a.url], []);
    var s1 := State([a.url, b.url], [b]);
    assert VideoStep(svc, a, s0) == s0;
    assert VideoStep(svc, b, s0) == s1;
    assert VideoStep(svc, c, s1) == State([a.url, b.url], [b, c]);
    var s2 := State([a.url, b.url], [b, c]);
    assert [a, b, c][1..] == [b, c] && [b, c][1..] == [c] && [c][1..] == [];
    assert VideosStep(svc, [c], s1) == s2;
    assert VideosStep(svc, [b, c], s0) == s2;
    assert VideosStep(svc, [a, b, c], s0) == s2;
    assert ChannelStep(svc, channelId, s0) == s2;
    assert [channelId][1..] == [];
    assert Sync(svc, [channelId], s0) == Sync(svc, [], s2);
  }

  /**
    `main`, one invocation of the job. Sweeps the Drive folder, then looks for
    `channels.json` among the files that survived; stops if there is none
    (without reading or writing the history), otherwise runs the channel loop
    over the stored history and writes the result back once.
  */
  method RunJob(folder: seq<Retention.DriveFile>, now: int, deleteOk: string -> bool,
                catalogueContents: string -> seq<string>, stored: seq<string>, svc: Services)
    returns (remaining: seq<Retention.DriveFile>, persisted: Option<seq<string>>, attempted: seq<Video>)
    ensures remaining == Retention.Survivors(folder, now, DaysToKeep, deleteOk)
    ensures var catalogue := Catalogue.DownloadChannelsList(remaining, catalogueContents);
            && (catalogue.None? ==> persisted == None && attempted == [])
            && (catalogue.Some? ==>
                  var f := Run(svc, catalogue.value, stored);
                  persisted == Some(f.history) && attempted == f.attempted)
            && (catalogue.Some? ==>
                  |stored| <= |persisted.value| && persisted.value[..|stored|] == stored
                  && forall v :: v in attempted ==> v.url !in stored)
    ensures (forall f :: f in folder && f.name == Catalogue.CatalogueName ==>
               Retention.IsOlderThanDays(f.createdTime, now, DaysToKeep) && deleteOk(f.id)) ==>
            persisted == None && attempted == []
  {
    var requested;
    requested, remaining := Retention.DeleteOldVideos(folder, now, DaysToKeep, deleteOk);
    var catalogue := Catalogue.DownloadChannelsList(remaining, catalogueContents);
    ghost var stale := forall f :: f in folder && f.name == Catalogue.CatalogueName ==>
                         Retention.IsOlderThanDays(f.createdTime, now, DaysToKeep) && deleteOk(f.id);
    if stale {
      Catalogue.StaleCatalogueIsSwept(folder, now, DaysToKeep, deleteOk, catalogueContents);
    }
    if catalogue == None {
      return remaining, None, [];
    }
    var channels := catalogue.value;
    var pastVideos := stored;
    attempted := [];
    for i := 0 to |channels|
      invariant Sync(svc, channels[i..], State(pastVideos, attempted)) == Run(svc, channels, stored)
    {
      assert channels[i..][1..] == channels[i + 1..];
      var channelId := channels[i];
      var videos := GetLatestVideoUrl(channelId, LastVideoN, svc.channels(channelId), svc.playlist);
      if !Truthy(videos) {
        continue;
      }
      if videos.Failed? {
        // unpacking the error tuple's `None` raises; the channel is abandoned
        continue;
      }
      var vs := videos.videos;
      ghost var start := State(pastVideos, attempted);
      for j := 0 to |vs|
        invariant VideosStep(svc, vs[j..], State(pastVideos, attempted)) == VideosStep(svc, vs, start)
      {
        assert vs[j..][1..] == vs[j + 1..];
        var video := vs[j];
        if video.url in pastVideos {
          continue;
        }
        attempted := attempted + [video];
        var steps := svc.transfer(video);
        var stream := ChooseStream(steps.streams);
        if stream.None? || !steps.fetched {
          continue;    // download_video raised
        }
        if !steps.uploaded {
          continue;    // upload_file raised
        }
        if !steps.removed {
          continue;    // os.remove raised
        }
        pastVideos := pastVideos + [video.url];
      }
    }
    persisted := Some(pastVideos);
    RunAppendsOnly(svc, channels, stored);
  }
}
