# YouTube-to-Drive mirror: sync and deduplication model

This project models the batch job in `main.py`. The job mirrors each
channel's latest YouTube uploads into a shared Google Drive folder. Before
that, it prunes the files older than 14 days from the first page of the
folder's listing. It keeps a
history of mirrored watch URLs so that a recorded video is not transferred
again.

The model has six modules:

- `Retention` covers `is_older_than_days` and the sweep loop of
  `delete_old_videos`. The sweep goes over the files of the first page of
  the folder's listing. A listed file is deleted exactly when it was created
  strictly before `now - days`. A failed delete is caught and the sweep goes
  on.
- `Catalogue` covers `download_channels_list_from_drive`. The catalogue is
  the first `channels.json` in the folder after the sweep, or `None` when
  there is no such file. `channels.json` sits in the swept folder, so once a
  listed `channels.json` is older than 14 days the sweep issues a delete for
  it; if that delete succeeds and no younger `channels.json` is listed,
  `main` stops syncing.
- `Streams` covers the stream choice in `download_video`. Among the
  progressive mp4 streams ordered by resolution, it takes the first `480p`
  one if any, and otherwise the first (lowest) one. With no stream there is
  no choice.
- `Resolver` covers `get_latest_video_url`. `LatestVideos` is the
  specification. `GetLatestVideoUrl` is the index loop, proved equal to it.
  A call returns exactly `last_n` `(url, title)` pairs in playlist order, or
  an error result. The error cases are: an empty channel id, no channel, no
  items, an HTTP error, any other failed request, or too few items (Python's
  index error).
- `SyncDriver` covers `main`. `RunJob` is `main`, the imperative loop over
  the in-memory history. It is proved equal to the functional specification
  `Run` (`Sync`, `ChannelStep`, `VideosStep`, `VideoStep`). Lemmas about
  that specification prove the guarantees:
  - The history is append-only.
  - It grows by exactly the URLs of completed transfers.
  - Every video not yet recorded is attempted.
  - A URL already recorded is never tried again.
  - No duplicates are introduced.
  - A failing channel is isolated from the others.
  - A re-run with the same outcomes records nothing new and retries every
    video still missing.
- `Wrappers` holds `Option`.

The external world is an input:
- the Drive listing and the outcome of each delete request;
- the channel list stored in each `channels.json` file, by file id;
- the stored history;
- the YouTube API replies (`Services.channels`, `Services.playlist`);
- the outcome of each transfer step for each video (`Services.transfer`): the
  stream labels, and whether the fetch, the upload and the local removal
  succeed.

Times are integer seconds.

Behaviours of `main.py` worth noting, all kept in the model:

- **Too few playlist items.** The index loop raises, and the caller gets the
  "unexpected error" result rather than a shorter list.
- **Error results.** An error result is the tuple `(None, message)`. It is
  truthy, so `if not videos` does not skip it. The channel is skipped only
  because unpacking `None` into `video_url, video_title` raises, and the
  per-channel handler catches that. `ChannelStep` and `RunJob` keep both tests.
- **Failed local removal.** The video was already uploaded, but it stays out
  of the history. The next run uploads it again.
- **Stale catalogue.** The sweep issues a delete for a listed
  `channels.json` older than 14 days like for any other file. If that delete
  succeeds and no younger `channels.json` is listed, this run and every later
  one stop before syncing, until the file is re-created. A failed delete is
  caught, and the old copy is still read.

## Model

| member | source | states |
|---|---|---|
| Retention.IsOlderThanDays | main.py:22-24 | a file is old iff its age, `now` minus its creation time, exceeds the window of `days` days |
| Retention.RetentionBoundary | main.py:22-24 | a file created exactly `days` before now is kept; one second earlier, it is old (strict inequality) |
| Retention.OlderIsMonotone | main.py:22-24 | an older creation time or a later clock keeps a file old |
| Retention.ExpiredExactly | main.py:45-49 | a delete is issued for a listed file if and only if its creation time is strictly before `now - days` |
| Retention.SurvivorsExactly | main.py:27-49 | a listed file is still in the folder after the sweep iff it is not old or its delete failed (the failure is caught) |
| Retention.DeleteOldVideos | main.py:36-49 | the sweep loop issues deletes for exactly the old files in listing order and leaves exactly the survivors |
| Catalogue.FindCatalogue | main.py:133-144 | the first file of the listing named `channels.json` (`items[0]`): a file of that name with none of that name before it; none iff no file has that name |
| Catalogue.DownloadChannelsList | main.py:130-156 | `None` iff the listing holds no `channels.json`; otherwise the channel list stored in the first `channels.json` of the listing |
| Catalogue.StaleCatalogueIsSwept | main.py:36-49 | if every `channels.json` in the folder is older than the window and its delete succeeds, no catalogue is found after the sweep |
| Catalogue.FreshCatalogueIsRead | main.py:36-49 | a `channels.json` younger than the window survives the sweep, so a catalogue is found |
| Streams.FirstIndexOf | main.py:122 | `filter(res=...).first()`: the first position holding the label, none iff the label is absent |
| Streams.ChooseStream | main.py:120-124 | no choice iff there are no streams; the first 480p stream when one exists; otherwise the first (lowest-resolution) stream |
| Streams.ChooseStreamExamples | main.py:120-124 | {360p, 480p, 720p} gives 480p; {360p, 720p} gives 360p; no streams gives none |
| Resolver.WatchUrlRoundTrip | main.py:105-107 | the video id can be read back from the watch URL built from it |
| Resolver.WatchUrlInjective | main.py:107 | two watch URLs are equal iff their video ids are |
| Resolver.LatestVideos | main.py:58-115 | the result of `get_latest_video_url`: an empty id, no channel, no items and too few items (an index error) each give their error result; an HTTP error on either request gives an API error, and any other failed request an unexpected error; it succeeds iff none of these happens, and then holds exactly `last_n` pairs in playlist order, each URL the watch prefix plus the item's video id and each title the item's title |
| Resolver.GetLatestVideoUrl | main.py:103-115 | the index loop returns exactly what `LatestVideos` specifies, and raises into an unexpected error when the playlist runs out first |
| Resolver.LatestVideosNameTheirIds | main.py:103-110 | every returned URL names the video id of the playlist item at the same position |
| Resolver.LatestVideosDistinct | main.py:103-110 | playlist items with distinct video ids give distinct URLs, so the URL-keyed history tells them apart |
| SyncDriver.Truthy | main.py:187 | Python truthiness of the resolver's result, the test of `if not videos` (what the truthy error tuple leads to is proved in `ErrorTupleIsSkipped` and `FailingChannelIsSkipped`) |
| SyncDriver.ErrorTupleIsSkipped | main.py:185-207 | an error result passes `if not videos` because the tuple is truthy, yet the channel changes neither the history nor the attempts, since unpacking `None` raises and the per-channel handler catches it |
| SyncDriver.Downloaded | main.py:120-127 | `download_video` succeeds exactly when `ChooseStream` picks a stream (with none, `stream.download` raises) and that stream is fetched |
| SyncDriver.Completed | main.py:193-201 | the whole try block succeeds: the download, the upload and the local removal (its use is stated in `RecordedOnlyCompleted` and `VideoStepAdvances`) |
| SyncDriver.VideoStep | main.py:189-204 | one video of the inner loop: skip a URL already in the history; otherwise attempt the transfer and append the URL only if download, upload and removal all succeed (its properties are in `VideoStepAdvances`) |
| SyncDriver.VideosStep | main.py:189-204 | the inner loop over a channel's videos, one `VideoStep` per video in order (its properties are in `VideosStepTriesNew` and the `Advances` lemmas; `RunJob`'s inner loop is proved against it) |
| SyncDriver.ChannelStep | main.py:184-207 | one channel: exactly the inner loop over the videos the channel resolves to, and nothing for an empty list or an error tuple |
| SyncDriver.Sync | main.py:184-207 | the outer loop over the catalogue, one channel after the other (its properties are in the lemmas below) |
| SyncDriver.Run | main.py:181-210 | a whole sync: the outer loop started from the stored history with nothing attempted |
| SyncDriver.RecordedOnlyCompleted | main.py:193-201 | a URL is among those recorded for a list of attempts iff one of those videos has that URL and its download, upload and removal all succeed |
| SyncDriver.VideoStepAdvances | main.py:189-204 | one video: a known URL is skipped and nothing changes; a new one is attempted (added to the attempts), and the history gains its URL exactly when every step succeeded |
| SyncDriver.SyncAdvances | main.py:184-207 | over any run segment, the attempts only grow; the history grows at its end by exactly the URLs of completed attempts, in order; each attempt is for a URL not yet in the history at that moment |
| SyncDriver.RunAppendsOnly | main.py:181-210 | the stored history is an unchanged prefix of the final history; the rest holds only completed transfers; no stored URL is ever attempted; and a URL recorded in the run is not attempted again |
| SyncDriver.VideosStepTriesNew | main.py:189-204 | the inner loop leaves out no video: each is already in the history at the end or was attempted in the loop |
| SyncDriver.SyncTriesNew | main.py:184-207 | every video of every catalogue channel is in the history at the end or was attempted in the run |
| SyncDriver.SyncKeepsNoDuplicates | main.py:189-201 | if the history starts without duplicates, it ends without them |
| SyncDriver.FailingChannelIsSkipped | main.py:184-207 | a channel whose resolution fails (including the truthy error tuple) or is empty changes nothing; the run equals the run without that channel, so earlier and later channels are unaffected |
| SyncDriver.SyncConcat | main.py:184-207 | processing two catalogue parts in turn is processing their concatenation |
| SyncDriver.SyncSettles | main.py:184-207 | after a run, every video of every channel is recorded or fails to transfer |
| SyncDriver.SyncStable | main.py:184-207 | a run over channels whose videos are all recorded or failing leaves the history unchanged |
| SyncDriver.Idempotent | main.py:181-210 | a second run on the persisted history, with the same replies and outcomes, persists the same history; it tries only videos that are not recorded and fail again, and it tries every catalogue video that is not recorded |
| SyncDriver.SkipKnownTransferNew | main.py:189-201 | with history [A] and latest videos A, B, C, where B completes and C fails: A is skipped, B and C are tried, and the history becomes [A, B] |
| SyncDriver.RunJob | main.py:172-210 | sweeps the folder and reads the catalogue from what survives; with no catalogue, persists nothing and transfers nothing (in particular when every listed `channels.json` was old and deleted); otherwise persists the history of `Run` and attempts what `Run` attempts, with the stored history as prefix and no stored URL attempted |

## Left out

- Google Drive, the YouTube Data API client and pytubefix are not called. Their replies and outcomes are inputs: the listing, delete outcomes, catalogue, channel and playlist replies, and stream labels with fetch, upload and removal flags.
- Reading and writing `past_videos.json` is not modelled. The history is given and the persisted value is returned. The fatal error when the file is missing is not modelled.
- Downloading `channels.json` is not modelled: its chunk loop, progress percentage and JSON parsing. The list each file holds is an input. The catalogue lookup (the name query) is taken to see the survivors of the sweep's page, in the same order.
- The order and filter of pytubefix (`progressive`, `mp4`, `order_by('resolution')`) are not modelled. The stream labels arrive already filtered and ordered.
- Which stream is chosen does not affect the outcome. `Downloaded` needs a non-empty stream list (exactly when `ChooseStream` chooses) and a successful fetch.
- Timestamps are not parsed. `fromisoformat(date_str[:-1])` and `datetime.now()` become integer seconds on one clock. So the model does not capture that the Drive time is UTC with its `Z` stripped while `now()` is local time.
- Exceptions that the code does not catch where the model assumes it does are not modelled. Examples: a non-`HttpError` failure while deleting an old file, or a failure to build the Drive or YouTube client. Each aborts or skips more than the model shows. Malformed API items (a missing key) are assumed not to occur.
- `last_n` is a `nat`. `main` always passes `LAST_VIDEO_N = 3`, and negative counts are not modelled.
- Local file names (`{title}.mp4` under `videos/`) are not modelled. So a title shared by two videos, which makes them overwrite each other, is not captured.
- The environment is deterministic. A channel listed twice gets the same replies, and a video retried in the same run has the same outcome. This is what the idempotence lemma relies on.
- Retention.DeleteOldVideos: `folder` is the one page that `files().list` returns (no `pageSize`, no `nextPageToken` followed), so files past the first page are not swept; the model does not capture a larger folder, where an old file, or an old `channels.json`, can survive off that page and the catalogue lookup, a separate query, can still find it.
- Retention.DeleteOldVideos: uses one `now` for the whole sweep, while `is_older_than_days` reads the clock again for each file. So a file that becomes old while the sweep runs is not captured.
- Failures of a YouTube request other than an HTTP error (timeouts, broken connections) are one `TransportError` case. The model does not tell them apart; each becomes an unexpected-error result.
- Logging (`print`) is left out.
