/** The `__main__` block of vod-copy: the argument guard, and one transfer job (metadata,
    download, Twitch video creation, chunked upload) per video, strictly in order. */
module Driver {
  import opened Wrappers
  import opened Errors
  import opened Chunking
  import opened Upload
  import opened Youtube

  /** The parsed command line; argparse leaves a flag that was not given as None. */
  datatype Args = Args(videoId: Option<string>, playlistId: Option<string>, twitchToken: string)

  /** Python truthiness of an optional string argument: neither None nor the empty string. */
  predicate Given(arg: Option<string>) {
    arg.Some? && arg.value != ""
  }

  /** Everything outside the program that a run depends on. */
  datatype World = World(
    /** What the YouTube Data API returns. */
    youtube: Service,
    /** The video ids for which the `youtube-dl` subprocess exits with status 0. */
    downloadable: set<string>,
    /** The files in the working directory once the downloads have run. */
    files: map<string, seq<Byte>>,
    /** The upload session `create_twitch_video` obtains on its n-th call of the run (from 0). */
    twitch: nat -> UploadSession)

  /** A finished transfer: the video, its metadata, the local file, the Twitch OAuth token the
      video was created with, the upload session, and the requests the upload sent. */
  datatype Job = Job(videoId: string, info: VideoInfo, filename: string, twitchToken: string,
                     session: UploadSession, uploads: seq<Event>)

  /** How a run ends: the exit status, whether the YouTube client was authenticated,
      the transfers that finished, in order, and the error that stopped the run, if any. */
  datatype Outcome = Outcome(exitCode: int, authenticated: bool, jobs: seq<Job>, error: Option<Error>)

  /** Every stage of a transfer of `videoId` succeeds. */
  predicate Transferable(world: World, videoId: string) {
    && GetVideoInfo(world.youtube, videoId).Success?
    && videoId in world.downloadable
    && DownloadedFileName(videoId) in world.files
  }

  /** The error that stops a transfer of `videoId`: the first stage that fails. */
  function TransferError(world: World, videoId: string): (e: Error)
    requires !Transferable(world, videoId)
    ensures GetVideoInfo(world.youtube, videoId).Failure? ==> e == GetVideoInfo(world.youtube, videoId).error
    ensures e.VideoNotFound? || e.MissingTags? || e.DownloadFailed? ==> e.videoId == videoId
    ensures !e.PlaylistNotFound? && !e.MissingArgument?
    ensures e.DownloadFailed? <==> GetVideoInfo(world.youtube, videoId).Success? && videoId !in world.downloadable
    ensures e.FileNotFound? <==> GetVideoInfo(world.youtube, videoId).Success? && videoId in world.downloadable
    ensures e.FileNotFound? ==> e.filename == DownloadedFileName(videoId)
  {
    var info := GetVideoInfo(world.youtube, videoId);
    if info.Failure? then info.error
    else if videoId !in world.downloadable then DownloadFailed(videoId)
    else FileNotFound(DownloadedFileName(videoId))
  }

  /** `job` is what the n-th transfer of a run with Twitch token `twitchToken` does for `videoId`:
      it downloads `<videoId>.mp4`, uploads exactly that file's bytes through the n-th session,
      and carries the video's YouTube metadata. */
  predicate Completed(world: World, twitchToken: string, n: nat, videoId: string, job: Job) {
    && job.videoId == videoId
    && GetVideoInfo(world.youtube, videoId) == Success(job.info)
    && videoId in world.downloadable
    && job.filename == DownloadedFileName(videoId)
    && job.filename in world.files
    && job.twitchToken == twitchToken
    && job.session == world.twitch(n)
    && job.uploads == UploadTrace(world.files[job.filename], job.session.url, job.session.token)
  }

  /** A finished job uploaded exactly the bytes of `<videoId>.mp4`, in ceil(S / CHUNKSIZE) parts,
      and then completed its session once. */
  lemma CompletedJobUploadsItsFile(world: World, twitchToken: string, n: nat, videoId: string, job: Job)
    requires Completed(world, twitchToken, n, videoId, job)
    ensures DownloadedFileName(videoId) in world.files
    ensures UploadedBytes(job.uploads) == world.files[DownloadedFileName(videoId)]
    ensures PutCount(job.uploads) == CeilDiv(|world.files[DownloadedFileName(videoId)]|, CHUNKSIZE)
    ensures CompleteCount(job.uploads) == 1
    ensures job.uploads[|job.uploads| - 1] == Complete(CompleteUrl(world.twitch(n).url), world.twitch(n).token)
  {
    var file := world.files[job.filename];
    UploadReassemblesFile(file, job.session.url, job.session.token);
    UploadRequestCounts(file, job.session.url, job.session.token);
    UploadTraceShape(file, job.session.url, job.session.token);
  }

  /** One iteration of the pipeline: `get_youtube_video_info`, `download_from_youtube`,
      `create_twitch_video` and `upload_to_twitch` for one video id. */
  method TransferVideo(world: World, videoId: string, twitchToken: string, n: nat) returns (r: Result<Job, Error>)
    ensures r.Success? <==> Transferable(world, videoId)
    ensures r.Success? ==> Completed(world, twitchToken, n, videoId, r.value)
    ensures r.Failure? ==> r.error == TransferError(world, videoId)
  {
    var info := GetVideoInfo(world.youtube, videoId);
    if info.Failure? {
      return Failure(info.error);
    }
    var download := DownloadFromYoutube(world.downloadable, videoId);
    if download.Failure? {
      return Failure(download.error);
    }
    var filename := download.value;
    var session := world.twitch(n);
    if filename !in world.files {
      return Failure(FileNotFound(filename));
    }
    var uploads := UploadToTwitch(world.files[filename], session.url, session.token);
    return Success(Job(videoId, info.value, filename, twitchToken, session, uploads));
  }

  /** The whole program on the parsed arguments. */
  method Run(args: Args, world: World) returns (outcome: Outcome)
    // With neither id it stops with status 1 before authenticating.
    ensures !Given(args.videoId) && !Given(args.playlistId)
            ==> outcome == Outcome(FAILURE_STATUS, false, [], Some(MissingArgument))
    ensures Given(args.videoId) || Given(args.playlistId) ==> outcome.authenticated
    ensures outcome.exitCode == 0 <==> outcome.error.None?
    ensures outcome.error.Some? ==> outcome.exitCode == FAILURE_STATUS
    // The n-th finished job is the n-th transfer of the run.
    ensures forall n :: 0 <= n < |outcome.jobs| ==>
      Completed(world, args.twitchToken, n, outcome.jobs[n].videoId, outcome.jobs[n])
    ensures forall n :: 0 <= n < |outcome.jobs| ==> Transferable(world, outcome.jobs[n].videoId)
    // A video id wins over a playlist id: one job, for that video.
    ensures Given(args.videoId) ==>
      if Transferable(world, args.videoId.value)
      then outcome.error.None? && |outcome.jobs| == 1 && outcome.jobs[0].videoId == args.videoId.value
      else outcome.error == Some(TransferError(world, args.videoId.value)) && outcome.jobs == []
    // Otherwise one job per playlist entry, in playlist order, up to the first that fails.
    ensures !Given(args.videoId) && Given(args.playlistId) ==>
      var items := ListPlaylistItems(world.youtube, args.playlistId.value, MAX_RESULTS);
      && |outcome.jobs| <= |items|
      && (forall n :: 0 <= n < |outcome.jobs| ==> outcome.jobs[n].videoId == items[n].videoId)
      && (items == [] ==> outcome.error == Some(PlaylistNotFound(args.playlistId.value)))
      && (items != [] && |outcome.jobs| == |items| ==> outcome.error.None?)
      && (|outcome.jobs| < |items| ==>
            var failed := items[|outcome.jobs|].videoId;
            !Transferable(world, failed) && outcome.error == Some(TransferError(world, failed)))
  {
    if !Given(args.videoId) && !Given(args.playlistId) {
      return Outcome(FAILURE_STATUS, false, [], Some(MissingArgument));
    }
    // get_authenticated_service(args)
    if Given(args.videoId) {
      var r := TransferVideo(world, args.videoId.value, args.twitchToken, 0);
      if r.Failure? {
        return Outcome(FAILURE_STATUS, true, [], Some(r.error));
      }
      return Outcome(0, true, [r.value], None);
    }
    var ids := GetYoutubeVideoIds(world.youtube, args.playlistId.value);
    if ids.Failure? {
      return Outcome(FAILURE_STATUS, true, [], Some(ids.error));
    }
    var videoIds := ids.value;
    var jobs: seq<Job> := [];
    for i := 0 to |videoIds|
      invariant |jobs| == i
      invariant forall n :: 0 <= n < i ==>
        Completed(world, args.twitchToken, n, videoIds[n], jobs[n])
    {
      var r := TransferVideo(world, videoIds[i], args.twitchToken, i);
      if r.Failure? {
        return Outcome(FAILURE_STATUS, true, jobs, Some(r.error));
      }
      jobs := jobs + [r.value];
    }
    return Outcome(0, true, jobs, None);
  }
}
