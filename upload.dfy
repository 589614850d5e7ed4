/** The chunked upload of one local video file to a Twitch upload session, with
    the HTTP requests it sends recorded as an append-only trace of events. */
module Upload {
  import opened Chunking
  import Decimal

  /** What `create_twitch_video` hands back: where to send the parts, and the token that authorises them. */
  datatype UploadSession = UploadSession(url: string, token: string)

  /** One HTTP request sent to Twitch during an upload. */
  datatype Event =
    /** `PUT url?part=<part>&upload_token=<uploadToken>` with header `Content-Length: <contentLength>` and `body` as data. */
    | Put(url: string, part: nat, uploadToken: string, contentLength: string, body: seq<Byte>)
    /** `POST url?upload_token=<uploadToken>` that asks Twitch to assemble the parts. */
    | Complete(url: string, uploadToken: string)

  /** The address of the completion request for an upload address. */
  function CompleteUrl(uploadUrl: string): string {
    uploadUrl + "/complete"
  }

  /** One PUT per piece, numbered from `first` on. */
  function Puts(uploadUrl: string, uploadToken: string, first: nat, pieces: seq<seq<Byte>>): seq<Event>
    decreases |pieces|
  {
    if pieces == [] then []
    else [Put(uploadUrl, first, uploadToken, Decimal.Show(|pieces[0]|), pieces[0])]
         + Puts(uploadUrl, uploadToken, first + 1, pieces[1..])
  }

  /** Every request that uploading `file` sends: a PUT per 10 MiB piece, then the completion POST. */
  function UploadTrace(file: seq<Byte>, uploadUrl: string, uploadToken: string): seq<Event> {
    Puts(uploadUrl, uploadToken, 1, Chunks(file, CHUNKSIZE)) + [Complete(CompleteUrl(uploadUrl), uploadToken)]
  }

  /** The bytes the PUT requests of a trace carry, in trace order. */
  function UploadedBytes(trace: seq<Event>): seq<Byte> {
    if trace == [] then []
    else (if trace[0].Put? then trace[0].body else []) + UploadedBytes(trace[1..])
  }

  /** The number of PUT requests in a trace. */
  function PutCount(trace: seq<Event>): nat {
    if trace == [] then 0 else (if trace[0].Put? then 1 else 0) + PutCount(trace[1..])
  }

  /** The number of completion requests in a trace. */
  function CompleteCount(trace: seq<Event>): nat {
    if trace == [] then 0 else (if trace[0].Complete? then 1 else 0) + CompleteCount(trace[1..])
  }

  /** `upload_to_twitch(filename, upload_url, upload_token)` on a file whose contents are `file`.
      The cursor `pos` is the file object's read position, `index` the part counter. */
  method UploadToTwitch(file: seq<Byte>, uploadUrl: string, uploadToken: string) returns (trace: seq<Event>)
    ensures trace == UploadTrace(file, uploadUrl, uploadToken)
  {
    var pos: nat := 0;
    var index: nat := 0;
    trace := [];
    while true
      invariant pos <= |file|
      invariant SentUpTo(file, pos, uploadUrl, uploadToken, index, trace)
      decreases |file| - pos
    {
      var chunk := Read(file, pos, CHUNKSIZE);
      ReadStep(file, pos, uploadUrl, uploadToken, index, trace);
      if chunk == [] {
        break;
      }
      pos := pos + |chunk|;
      index := index + 1;
      trace := trace + [Put(uploadUrl, index, uploadToken, Decimal.Show(|chunk|), chunk)];
    }
    trace := trace + [Complete(CompleteUrl(uploadUrl), uploadToken)];
  }

  /** The loop invariant: `sent` holds the PUTs for the first `parts` pieces, the ones that end at `pos`,
      so the pieces still to be read complete them to all the file's PUTs. */
  predicate SentUpTo(file: seq<Byte>, pos: nat, uploadUrl: string, uploadToken: string, parts: nat, sent: seq<Event>)
    requires pos <= |file|
  {
    sent + Puts(uploadUrl, uploadToken, parts + 1, Chunks(file[pos..], CHUNKSIZE))
      == Puts(uploadUrl, uploadToken, 1, Chunks(file, CHUNKSIZE))
  }

  /** One turn of the upload loop: at end of file every PUT has been sent; otherwise the read at
      `pos` is the next piece, and sending it as part `parts + 1` keeps the invariant. */
  lemma ReadStep(file: seq<Byte>, pos: nat, uploadUrl: string, uploadToken: string, parts: nat, sent: seq<Event>)
    requires pos <= |file|
    requires SentUpTo(file, pos, uploadUrl, uploadToken, parts, sent)
    ensures var chunk := Read(file, pos, CHUNKSIZE);
      if chunk == [] then
        sent == Puts(uploadUrl, uploadToken, 1, Chunks(file, CHUNKSIZE))
      else
        SentUpTo(file, pos + |chunk|, uploadUrl, uploadToken, parts + 1,
                 sent + [Put(uploadUrl, parts + 1, uploadToken, Decimal.Show(|chunk|), chunk)])
  {
    var chunk := Read(file, pos, CHUNKSIZE);
    var rest := file[pos..];
    if chunk == [] {
      assert rest == [];
      assert sent + [] == sent;
    } else {
      var next := file[pos + |chunk|..];
      assert Read(rest, 0, CHUNKSIZE) == chunk;
      assert rest[|chunk|..] == next;
      var pieces := Chunks(rest, CHUNKSIZE);
      assert pieces == [chunk] + Chunks(next, CHUNKSIZE);
      assert pieces[1..] == Chunks(next, CHUNKSIZE);
      var put := Put(uploadUrl, parts + 1, uploadToken, Decimal.Show(|chunk|), chunk);
      var later := Puts(uploadUrl, uploadToken, parts + 2, Chunks(next, CHUNKSIZE));
      assert Puts(uploadUrl, uploadToken, parts + 1, pieces) == [put] + later;
      assert sent + ([put] + later) == (sent + [put]) + later;
    }
  }

  lemma {:induction false} UploadedBytesAppend(a: seq<Event>, b: seq<Event>)
    ensures UploadedBytes(a + b) == UploadedBytes(a) + UploadedBytes(b)
    ensures PutCount(a + b) == PutCount(a) + PutCount(b)
    ensures CompleteCount(a + b) == CompleteCount(a) + CompleteCount(b)
  {
    if a != [] {
      UploadedBytesAppend(a[1..], b);
      assert (a + b)[1..] == a[1..] + b;
    } else {
      assert a + b == b;
    }
  }

  /** The k-th PUT of a run of PUTs carries part number `first + k`, the shared token and the k-th piece. */
  lemma {:induction false} PutsAt(uploadUrl: string, uploadToken: string, first: nat, pieces: seq<seq<Byte>>)
    decreases |pieces|
    ensures |Puts(uploadUrl, uploadToken, first, pieces)| == |pieces|
    ensures forall k :: 0 <= k < |pieces| ==>
      Puts(uploadUrl, uploadToken, first, pieces)[k]
        == Put(uploadUrl, first + k, uploadToken, Decimal.Show(|pieces[k]|), pieces[k])
  {
    if pieces != [] {
      PutsAt(uploadUrl, uploadToken, first + 1, pieces[1..]);
    }
  }

  lemma {:induction false} PutsCarry(uploadUrl: string, uploadToken: string, first: nat, pieces: seq<seq<Byte>>)
    ensures UploadedBytes(Puts(uploadUrl, uploadToken, first, pieces)) == Flatten(pieces)
    ensures PutCount(Puts(uploadUrl, uploadToken, first, pieces)) == |pieces|
    ensures CompleteCount(Puts(uploadUrl, uploadToken, first, pieces)) == 0
    decreases |pieces|
  {
    if pieces != [] {
      var head := [Put(uploadUrl, first, uploadToken, Decimal.Show(|pieces[0]|), pieces[0])];
      var tail := Puts(uploadUrl, uploadToken, first + 1, pieces[1..]);
      PutsCarry(uploadUrl, uploadToken, first + 1, pieces[1..]);
      UploadedBytesAppend(head, tail);
    }
  }

  /** Concatenating the bodies of the PUT requests in order gives back the file. */
  lemma UploadReassemblesFile(file: seq<Byte>, uploadUrl: string, uploadToken: string)
    ensures UploadedBytes(UploadTrace(file, uploadUrl, uploadToken)) == file
  {
    var pieces := Chunks(file, CHUNKSIZE);
    var puts := Puts(uploadUrl, uploadToken, 1, pieces);
    PutsCarry(uploadUrl, uploadToken, 1, pieces);
    UploadedBytesAppend(puts, [Complete(CompleteUrl(uploadUrl), uploadToken)]);
    FlattenChunks(file, CHUNKSIZE);
  }

  /** A file of S bytes is sent in ceil(S / CHUNKSIZE) PUT requests (none for an empty file),
      followed by exactly one completion request. */
  lemma UploadRequestCounts(file: seq<Byte>, uploadUrl: string, uploadToken: string)
    ensures PutCount(UploadTrace(file, uploadUrl, uploadToken)) == CeilDiv(|file|, CHUNKSIZE)
    ensures CompleteCount(UploadTrace(file, uploadUrl, uploadToken)) == 1
    ensures |UploadTrace(file, uploadUrl, uploadToken)| == CeilDiv(|file|, CHUNKSIZE) + 1
  {
    var pieces := Chunks(file, CHUNKSIZE);
    var puts := Puts(uploadUrl, uploadToken, 1, pieces);
    PutsCarry(uploadUrl, uploadToken, 1, pieces);
    PutsAt(uploadUrl, uploadToken, 1, pieces);
    UploadedBytesAppend(puts, [Complete(CompleteUrl(uploadUrl), uploadToken)]);
    ChunksCount(file, CHUNKSIZE);
  }

  /** The shape of every upload: the first n requests are PUTs numbered 1, 2, ..., n, each with the
      session's address and token, a non-empty body of at most CHUNKSIZE bytes (exactly CHUNKSIZE
      except for the last) and a Content-Length header that reads as the body's length; the last
      request, and only it, is the completion POST to `<upload_url>/complete` with the same token. */
  lemma UploadTraceShape(file: seq<Byte>, uploadUrl: string, uploadToken: string)
    ensures var trace := UploadTrace(file, uploadUrl, uploadToken);
      && |trace| >= 1
      && trace[|trace| - 1] == Complete(CompleteUrl(uploadUrl), uploadToken)
      && forall i :: 0 <= i < |trace| - 1 ==>
           && trace[i].Put?
           && trace[i].part == i + 1
           && trace[i].url == uploadUrl
           && trace[i].uploadToken == uploadToken
           && 0 < |trace[i].body| <= CHUNKSIZE
           && (i < |trace| - 2 ==> |trace[i].body| == CHUNKSIZE)
           && Decimal.AllDigits(trace[i].contentLength)
           && Decimal.Value(trace[i].contentLength) == |trace[i].body|
  {
    var pieces := Chunks(file, CHUNKSIZE);
    var trace := UploadTrace(file, uploadUrl, uploadToken);
    PutsAt(uploadUrl, uploadToken, 1, pieces);
    ChunksWellSized(file, CHUNKSIZE);
    forall i | 0 <= i < |trace| - 1
      ensures Decimal.Value(trace[i].contentLength) == |trace[i].body|
    {
      assert trace[i] == Put(uploadUrl, 1 + i, uploadToken, Decimal.Show(|pieces[i]|), pieces[i]);
      Decimal.ValueShow(|pieces[i]|);
    }
  }
}
