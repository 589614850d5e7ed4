# vod-copy: chunked upload and job sequencing

vod-copy copies YouTube videos to Twitch. For each video it reads the metadata from the
YouTube Data API, downloads the file with `youtube-dl`, creates a video on Twitch, and
uploads the file to Twitch in 10 MiB parts. The `--video-id` flag copies one video. The
`--playlist-id` flag copies every video on the first page of a playlist. Nearly all of the
program calls other services. This model covers the logic between those calls:

- **Chunking** (`chunking.dfy`): repeated `file.read(CHUNKSIZE)` from a cursor, stopping at
  the first empty read. `Chunks` gives the pieces and `Flatten` joins them again.
  `CeilDiv` is ceil(S / C).
- **Upload** (`upload.dfy`): `upload_to_twitch` is a method with the source's loop. The file
  is given as its bytes, and the method keeps a read cursor and a part counter. Each HTTP
  request becomes an event appended to a trace: `Put(url, part, token, Content-Length, body)`
  or `Complete(url + "/complete", token)`. The method is proved to produce `UploadTrace`.
  Lemmas about `UploadTrace` prove the following:
  - the PUT bodies reassemble the file;
  - there are ceil(S / 10 MiB) PUTs and exactly one completion, which comes last;
  - parts are numbered 1..n, and all of them carry the same address and token;
  - every body is at most 10 MiB, only the last one can be shorter, and each Content-Length
    reads back as its body's length.
- **Decimal** (`decimal.dfy`): `str(n)`, which the upload uses for the Content-Length header.
  It is proved to read back as `n`.
- **Youtube** (`youtube.dfy`): the API becomes a `Service` value that says which items each
  list request returns. It has `get_youtube_video_info`, `get_youtube_video_ids` (a method
  with the source's `for`/`append` loop), the 50-item first page, and the
  `<videoId>.mp4` filename rule.
- **Driver** (`driver.dfy`): the `__main__` block. The argument guard treats `None` and `""`
  as "not given", as Python's truthiness does. A video id wins over a playlist id. The
  playlist path runs one job per entry, in order, and the first failure ends the run with
  status 1. The services are stand-ins in a `World` value:
  - the YouTube `Service`;
  - the ids `youtube-dl` can download;
  - the files in the working directory;
  - the session that the n-th `create_twitch_video` call returns.
- **Errors** (`errors.dfy`): the ways of ending early that this model covers, each with exit status 1.
  Some are `sys.exit(1)`. The others are uncaught exceptions: the `KeyError` when a video
  has no tags, `CalledProcessError` from `youtube-dl`, and `IOError` from `open`.

## Model

| member | source | states |
|---|---|---|
| Chunking.Read | python/vod-copy.py:99 | `file.read(size)` at the cursor returns a prefix of what remains, of length min(size, bytes remaining). It is empty exactly at end of file |
| Chunking.Chunks | python/vod-copy.py:98-100 | The pieces that successive reads return, up to the first empty read. There are none exactly for an empty file, and each piece is 1..size bytes |
| Chunking.FlattenChunks | python/vod-copy.py:98-100 | The pieces that successive reads return, up to the first empty read, join back into the whole file |
| Chunking.ChunksWellSized | python/vod-copy.py:98-100 | Every piece is non-empty and at most the chunk size. Every piece except the last is exactly the chunk size |
| Chunking.ChunksCount | python/vod-copy.py:98-101 | A file of S bytes gives ceil(S / size) pieces, which is zero for an empty file |
| Chunking.ChunksUnique | python/vod-copy.py:98-100 | Any well-sized cutting of the file whose pieces join back into it is the one the read loop produces |
| Decimal.Show | python/vod-copy.py:104 | `str(n)` for a length: at least one digit, only digits, and a leading zero only for 0 |
| Decimal.ValueShow | python/vod-copy.py:104 | The `str(len(chunk))` numeral reads back as the number it was made from |
| Decimal.ShowInjective | python/vod-copy.py:104 | Different lengths give different Content-Length values |
| Upload.UploadToTwitch | python/vod-copy.py:93-115 | The loop sends exactly the requests of `UploadTrace`: one PUT per non-empty 10 MiB read, numbered from 1, then the completion POST |
| Upload.UploadTrace | python/vod-copy.py:97-114 | The requests of one upload: the PUTs for the pieces, then, as the last request, the completion POST to `<upload_url>/complete` with the session's token |
| Upload.ReadStep | python/vod-copy.py:98-107 | One turn of the loop keeps the loop invariant. At end of file every PUT of the upload has been sent. Otherwise the read at the cursor is the next piece, and it is sent as part `index + 1` with a Content-Length of its length |
| Upload.UploadReassemblesFile | python/vod-copy.py:96-107 | Joining the bodies of the PUT requests in trace order gives exactly the file's contents |
| Upload.UploadRequestCounts | python/vod-copy.py:97-114 | The upload sends ceil(S / CHUNKSIZE) PUTs, none for an empty file, and exactly one completion POST |
| Upload.UploadTraceShape | python/vod-copy.py:97-114 | Requests 1..n are PUTs with part = position, the session's address and token, a body of 1..CHUNKSIZE bytes (exactly CHUNKSIZE except the last) and a Content-Length equal to the body length. The last request, and only that one, is the POST to `<upload_url>/complete` with the same token |
| Youtube.ListVideos | python/vod-copy.py:54 | The video request returns the items the service holds for the id, and none for an unknown id |
| Youtube.ListPlaylistItems | python/vod-copy.py:119 | The playlist request returns the first min(50, length) entries of the playlist, in order, and nothing for an unknown id |
| Youtube.GetVideoInfo | python/vod-copy.py:52-62 | With no item the result is VideoNotFound. With no tags on the first item it is MissingTags. Otherwise it succeeds with the first item's title, description and tags |
| Youtube.GetYoutubeVideoIds | python/vod-copy.py:117-129 | An empty first page gives PlaylistNotFound. Otherwise there is one id per item, in item order |
| Youtube.DownloadedFileName | python/vod-copy.py:67 | The file name is the video id followed by ".mp4" |
| Youtube.DownloadedFileNameInverse | python/vod-copy.py:67 | Different videos get different file names |
| Youtube.DownloadFromYoutube | python/vod-copy.py:64-67 | The download succeeds exactly when `youtube-dl` does, and it then names `<videoId>.mp4`. Otherwise the result is DownloadFailed |
| Driver.TransferError | python/vod-copy.py:148-151 | A failed transfer reports the first stage that failed, for this video: the metadata error itself, else DownloadFailed, else FileNotFound for `<videoId>.mp4` |
| Driver.CompletedJobUploadsItsFile | python/vod-copy.py:149-151 | A finished job uploaded exactly the bytes of `<videoId>.mp4` in ceil(S / CHUNKSIZE) parts, then completed its own session once |
| Driver.TransferVideo | python/vod-copy.py:148-151 | One job succeeds exactly when every stage succeeds. A successful job downloads `<videoId>.mp4`, uploads its bytes through the n-th session and carries the video's metadata. A failed job reports the first failing stage |
| Driver.Run | python/vod-copy.py:142-158 | With neither id (or only empty ones) the run exits 1 before authenticating. A video id gives one job for that video and ignores any playlist id. Otherwise there is one job per entry of the playlist's first page, in order. Every finished job passed every stage, and the run stops with status 1 at the first entry that cannot be transferred. Exit status 0 means no error |

## Left out

- OAuth (`get_authenticated_service`, lines 38-50): the credential file and the interactive
  flow are external. `Outcome.authenticated` only records whether the step was reached.
- YouTube API transport (lines 54, 119): the responses are given by the `Service` value, and
  no request is made. A response without the expected keys (other than "tags") is assumed
  not to happen.
- `youtube-dl` (line 66): its exit status is the `World.downloadable` set. The files it
  leaves are `World.files`, fixed for the whole run. The model does not write new files.
- `get_channel_name` and `create_twitch_video` (lines 69-91): the HTTP calls and JSON parsing
  are replaced by `World.twitch`, which gives the session for the n-th call of the run. In
  the source the Twitch video is created before the file is opened, so a missing file
  leaves a created but empty video on Twitch. The model does not record that call.
- HTTP responses of the upload: the PUT and completion requests are events with no
  response. The source ignores their status codes, so the status is not modelled. The constant `Accept` and
  `Client-ID` headers are left out, and `part` is kept as a number rather than as its
  query-string text.
- Failures of the Twitch calls are not modelled. These are a `KeyError` in `get_channel_name`
  (line 76) or `create_twitch_video` (line 91) when Twitch answers with an error body, and
  exceptions raised by `requests.put`/`requests.post` (lines 107, 114). Each of them would end
  the run with status 1. In the model, `World.twitch` always yields a session and every
  upload request is sent.
- Opening and closing the file (lines 96, 109): the file is given as its bytes, and the
  read position is a local cursor.
- Timing with `time.clock()` and every `print` (lines 94, 108, 132, 160-162): console
  output and wall-clock time change no behaviour.
- argparse (lines 134-140): the model starts from the parsed `Args`. The required
  `--twitch-token` is always present.
