/** The reconstruction workflow client: create a photoscene, upload the photos
    in fixed-size batches, start processing, then poll the progress until the
    service reports "DONE" and fetch the FBX result link. Each launched
    coroutine is one sequential method; the five-second delay between polls
    is not modelled. */
module RecapViewModel {
  import opened Wrappers
  import opened Decimal
  import opened RecapApi
  import ProgressDeserializer
  import Sequences

  // ---------------------------------------------------------------- batching

  /** `files.chunked(size)`. */
  function Chunked(files: seq<File>, size: nat): (batches: seq<seq<File>>)
    requires size > 0
    ensures forall k :: 0 <= k < |batches| ==> 0 < |batches[k]| <= size
    ensures forall k :: 0 <= k < |batches| - 1 ==> |batches[k]| == size
    decreases |files|
  {
    if files == [] then []
    else if |files| <= size then [files]
    else [files[..size]] + Chunked(files[size..], size)
  }

  function Flatten(batches: seq<seq<File>>): (files: seq<File>)
  {
    if batches == [] then [] else batches[0] + Flatten(batches[1..])
  }

  /** The batches put back together are the original list. */
  lemma {:induction false} ChunkedFlattens(files: seq<File>, size: nat)
    requires size > 0
    ensures Flatten(Chunked(files, size)) == files
    decreases |files|
  {
    if |files| > size {
      ChunkedFlattens(files[size..], size);
      assert files == files[..size] + files[size..];
    }
  }

  /** There are ceil(N / B) batches: none for no files, otherwise just
      enough to hold them all with the last one not empty. */
  lemma {:induction false} ChunkedCount(files: seq<File>, size: nat)
    requires size > 0
    ensures var count := |Chunked(files, size)|;
      && (count == 0 <==> files == [])
      && (count > 0 ==> (count - 1) * size < |files| <= count * size)
    decreases |files|
  {
    if |files| > size {
      ChunkedCount(files[size..], size);
      var count := |Chunked(files[size..], size)|;
      assert |Chunked(files, size)| == count + 1;
      assert (count + 1) * size == count * size + size;
      assert count * size == (count - 1) * size + size;
    }
  }

  /** Twenty-three photos in batches of ten go out as 10, 10 and 3. */
  lemma TwentyThreePhotosInThreeBatches(files: seq<File>)
    requires |files| == 23
    ensures var batches := Chunked(files, 10);
      |batches| == 3 && |batches[0]| == 10 && |batches[1]| == 10 && |batches[2]| == 3
  {
    var rest := files[10..];
    assert Chunked(files, 10) == [files[..10]] + Chunked(rest, 10);
    assert Chunked(rest, 10) == [rest[..10]] + Chunked(rest[10..], 10);
    assert Chunked(rest[10..], 10) == [rest[10..]];
  }

  /** The multipart field name of the `i`-th file of a batch: "file[i]". */
  function PartName(i: nat): (name: string)
    ensures |name| >= 7 && name[..5] == "file[" && name[|name| - 1] == ']'
  {
    "file[" + NatToString(i) + "]"
  }

  /** The parts of one batch, `chunk.mapIndexed { i, file -> ... }`. */
  function Parts(chunk: seq<File>): (parts: seq<Part>)
    ensures |parts| == |chunk|
  {
    seq(|chunk|, i requires 0 <= i < |chunk| => Part(PartName(i), chunk[i].name, chunk[i]))
  }

  /** Within a batch the parts carry the files in order, named file[0], file[1],
      ... from 0 for every batch, and no two parts share a field name. */
  lemma PartsNamedByPosition(chunk: seq<File>)
    ensures forall i :: 0 <= i < |chunk| ==>
              Parts(chunk)[i].file == chunk[i] && Parts(chunk)[i].fieldName == PartName(i)
    ensures forall i, j :: 0 <= i < j < |chunk| ==> Parts(chunk)[i].fieldName != Parts(chunk)[j].fieldName
  {
    forall i, j | 0 <= i < j < |chunk|
      ensures Parts(chunk)[i].fieldName != Parts(chunk)[j].fieldName
    {
      if PartName(i) == PartName(j) {
        var a, b := NatToString(i), NatToString(j);
        assert PartName(i)[5..|PartName(i)| - 1] == a;
        assert PartName(j)[5..|PartName(j)| - 1] == b;
        NatToStringInjective(i, j);
      }
    }
  }

  const UploadFailed := "Failed batch upload: "
  const ProcessFailed := "Process failed: "

  /** The message a call fails with: a thrown call keeps its own message, a
      refused one throws `prefix` followed by the error body. */
  function CallFailure(prefix: string, reply: Reply): (message: string)
    ensures reply.Thrown? ==> message == reply.message
    ensures !reply.Thrown? ==> |prefix| <= |message| && message[..|prefix|] == prefix
  {
    if reply.Thrown? then reply.message else prefix + ErrorText(reply)
  }

  /** The requests an upload sends and how it ends. */
  datatype Run = Run(sent: seq<Request>, outcome: Outcome<string>)

  /** The uploads of `batches` against a reply script. */
  function UploadRun(id: string, batches: seq<seq<File>>, replies: seq<Reply>): (run: Run)
    ensures 0 < |batches| ==> 0 < |run.sent|
    ensures |run.sent| <= |batches|
    decreases |batches|
  {
    if batches == [] then Run([], Pass)
    else
      var reply := Next(replies);
      var request := UploadPhotos(id, Parts(batches[0]));
      if !Successful(reply) then Run([request], Fail(CallFailure(UploadFailed, reply)))
      else
        var rest := UploadRun(id, batches[1..], Drop(replies, 1));
        Run([request] + rest.sent, rest.outcome)
  }

  /** Batches go out one per request, in list order, each tagged with the
      photoscene id; the upload completes exactly when every batch is
      accepted, and otherwise stops right after the first refused batch,
      failing with that batch's error. */
  lemma {:induction false} UploadRunSpec(id: string, batches: seq<seq<File>>, replies: seq<Reply>)
    ensures var run := UploadRun(id, batches, replies);
      && (forall k :: 0 <= k < |run.sent| ==> run.sent[k] == UploadPhotos(id, Parts(batches[k])))
      && (forall k :: 0 <= k < |run.sent| - 1 ==> Successful(ReplyAt(replies, k)))
      && (run.outcome.Pass? <==> |run.sent| == |batches| && forall k :: 0 <= k < |batches| ==> Successful(ReplyAt(replies, k)))
      && (run.outcome.Fail? ==>
            && !Successful(ReplyAt(replies, |run.sent| - 1))
            && run.outcome == Fail(CallFailure(UploadFailed, ReplyAt(replies, |run.sent| - 1))))
    decreases |batches|
  {
    if batches != [] && !Successful(Next(replies)) {
      assert ReplyAt(replies, 0) == Next(replies);
    } else if batches != [] {
      UploadRunSpec(id, batches[1..], Drop(replies, 1));
      var run := UploadRun(id, batches, replies);
      var rest := UploadRun(id, batches[1..], Drop(replies, 1));
      assert run.sent == [UploadPhotos(id, Parts(batches[0]))] + rest.sent;
      forall k | 0 <= k < |run.sent| ensures run.sent[k] == UploadPhotos(id, Parts(batches[k])) {
        if k > 0 { assert run.sent[k] == rest.sent[k - 1]; }
      }
      forall k | 0 <= k < |run.sent| - 1 ensures Successful(ReplyAt(replies, k)) {
        if k > 0 { assert ReplyAt(Drop(replies, 1), k - 1) == ReplyAt(replies, k); }
      }
      if rest.outcome.Pass? {
        forall k | 0 <= k < |batches| ensures Successful(ReplyAt(replies, k)) {
          if k > 0 { assert ReplyAt(Drop(replies, 1), k - 1) == ReplyAt(replies, k); }
        }
      } else {
        assert ReplyAt(Drop(replies, 1), |rest.sent| - 1) == ReplyAt(replies, |run.sent| - 1);
      }
    }
  }

  // ---------------------------------------------------------------- polling

  /** `pollProgress()`: the body of a successful reply, null for any other
      status; an exception from the call itself propagates. */
  function PollResult(reply: Reply): (r: Result<Option<SceneBody>, string>)
    ensures r.Err? <==> reply.Thrown?
    ensures r.Ok? && r.value.Some? ==> Successful(reply)
  {
    if reply.Thrown? then Err(reply.message)
    else if Successful(reply) then Ok(reply.body)
    else Ok(None)
  }

  /** `progressResponse?.Photoscene?.progress`, read through the progress adapter. */
  function ProgressOf(response: Option<SceneBody>): (value: Option<string>)
    ensures response.None? ==> value.None?
  {
    if response.Some? && response.value.photoscene.Some? then
      ProgressDeserializer.Deserialize(response.value.photoscene.value.progress)
    else None
  }

  /** `progressResponse?.Photoscene?.progressmsg`. */
  function MessageOf(response: Option<SceneBody>): (message: Option<string>)
    ensures response.None? ==> message.None?
  {
    if response.Some? && response.value.photoscene.Some? then response.value.photoscene.value.progressmsg
    else None
  }

  /** `resultResponse.body()?.Photoscene?.scenelink`. */
  function SceneLinkOf(reply: Reply): (link: Option<string>)
    ensures reply.Thrown? ==> link.None?
  {
    if reply.Http? && reply.body.Some? && reply.body.value.photoscene.Some? then
      reply.body.value.photoscene.value.scenelink
    else None
  }

  /** Whether the `k`-th poll from now is told the scene is done. */
  predicate DoneAt(replies: seq<Reply>, k: nat) {
    var polled := PollResult(ReplyAt(replies, k));
    polled.Ok? && MessageOf(polled.value) == Some("DONE")
  }

  function Repeat(request: Request, n: nat): (r: seq<Request>)
    ensures |r| == n && forall k :: 0 <= k < n ==> r[k] == request
  {
    if n == 0 then [] else [request] + Repeat(request, n - 1)
  }

  /** What a run of the progress loop does: the requests it sends, each
      progress value it publishes, the download link it sets (None: not set),
      and how it ends. */
  datatype PollRun = PollRun(sent: seq<Request>, published: seq<Option<string>>,
                             downloadUrl: Option<Option<string>>, outcome: Outcome<string>)

  /** The `while (true)` loop of `getProgress()` against a reply script. */
  function PollLoop(id: string, replies: seq<Reply>): (run: PollRun)
    decreases |replies|
  {
    var polled := PollResult(Next(replies));
    if polled.Err? then PollRun([CheckProgress(id)], [], None, Fail(polled.error))
    else
      var value := ProgressOf(polled.value);
      if MessageOf(polled.value) == Some("DONE") then
        var result := Next(Drop(replies, 1));
        var sent := [CheckProgress(id), GetPhotosceneResult(id, "fbx")];
        if result.Thrown? then PollRun(sent, [value], None, Fail(result.message))
        else PollRun(sent, [value], if Successful(result) then Some(SceneLinkOf(result)) else None, Pass)
      else
        var rest := PollLoop(id, Drop(replies, 1));
        PollRun([CheckProgress(id)] + rest.sent, [value] + rest.published, rest.downloadUrl, rest.outcome)
  }

  /** Every poll publishes its progress value, null included; polling goes on
      exactly until a poll reports "DONE"; then the FBX result is fetched once
      and the loop ends whether or not that fetch succeeds; the link is set
      only from a successful fetch. */
  lemma {:induction false} PollLoopSpec(id: string, replies: seq<Reply>)
    ensures var run := PollLoop(id, replies);
      var n := |run.published|;
      && (forall k :: 0 <= k < n ==> PollResult(ReplyAt(replies, k)).Ok?
                                      && run.published[k] == ProgressOf(PollResult(ReplyAt(replies, k)).value))
      && (forall k :: 0 <= k < n - 1 ==> !DoneAt(replies, k))
      && (run.outcome.Pass? ==> n > 0 && DoneAt(replies, n - 1) && !ReplyAt(replies, n).Thrown?
                                && run.sent == Repeat(CheckProgress(id), n) + [GetPhotosceneResult(id, "fbx")])
      && (run.downloadUrl.Some? <==> run.outcome.Pass? && Successful(ReplyAt(replies, n)))
      && (run.downloadUrl.Some? ==> run.downloadUrl.value == SceneLinkOf(ReplyAt(replies, n)))
      && (run.outcome.Fail? ==>
            || (PollResult(ReplyAt(replies, n)).Err? && (n > 0 ==> !DoneAt(replies, n - 1))
                && run.sent == Repeat(CheckProgress(id), n + 1))
            || (n > 0 && DoneAt(replies, n - 1) && ReplyAt(replies, n).Thrown?
                && run.sent == Repeat(CheckProgress(id), n) + [GetPhotosceneResult(id, "fbx")]))
  {
    PollLoopPublishes(id, replies);
    PollLoopEnds(id, replies);
  }

  /** The first half of `PollLoopSpec`: what is published, and that no poll
      before the last one was told "DONE". */
  lemma {:induction false} PollLoopPublishes(id: string, replies: seq<Reply>)
    ensures var run := PollLoop(id, replies);
      var n := |run.published|;
      && (forall k :: 0 <= k < n ==> PollResult(ReplyAt(replies, k)).Ok?
                                      && run.published[k] == ProgressOf(PollResult(ReplyAt(replies, k)).value))
      && (forall k :: 0 <= k < n - 1 ==> !DoneAt(replies, k))
    decreases |replies|
  {
    var polled := PollResult(Next(replies));
    if polled.Ok? && MessageOf(polled.value) != Some("DONE") {
      var rest := Drop(replies, 1);
      PollLoopPublishes(id, rest);
      var r := PollLoop(id, rest);
      var run := PollLoop(id, replies);
      assert run.published == [ProgressOf(polled.value)] + r.published;
      forall k | 0 < k < |run.published|
        ensures PollResult(ReplyAt(replies, k)).Ok?
        ensures run.published[k] == ProgressOf(PollResult(ReplyAt(replies, k)).value)
      {
        assert ReplyAt(rest, k - 1) == ReplyAt(replies, k);
        assert run.published[k] == r.published[k - 1];
      }
      forall k | 0 < k < |run.published| - 1 ensures !DoneAt(replies, k) {
        assert ReplyAt(rest, k - 1) == ReplyAt(replies, k);
        assert !DoneAt(rest, k - 1);
      }
    }
  }

  /** The second half of `PollLoopSpec`: how the loop ends, what it sent, and
      the link it sets. */
  lemma {:induction false} PollLoopEnds(id: string, replies: seq<Reply>)
    ensures var run := PollLoop(id, replies);
      var n := |run.published|;
      && (run.outcome.Pass? ==> n > 0 && DoneAt(replies, n - 1) && !ReplyAt(replies, n).Thrown?
                                && run.sent == Repeat(CheckProgress(id), n) + [GetPhotosceneResult(id, "fbx")])
      && (run.downloadUrl.Some? <==> run.outcome.Pass? && Successful(ReplyAt(replies, n)))
      && (run.downloadUrl.Some? ==> run.downloadUrl.value == SceneLinkOf(ReplyAt(replies, n)))
      && (run.outcome.Fail? ==>
            || (PollResult(ReplyAt(replies, n)).Err? && (n > 0 ==> !DoneAt(replies, n - 1))
                && run.sent == Repeat(CheckProgress(id), n + 1))
            || (n > 0 && DoneAt(replies, n - 1) && ReplyAt(replies, n).Thrown?
                && run.sent == Repeat(CheckProgress(id), n) + [GetPhotosceneResult(id, "fbx")]))
    decreases |replies|
  {
    var polled := PollResult(Next(replies));
    if polled.Ok? && MessageOf(polled.value) != Some("DONE") {
      var rest := Drop(replies, 1);
      PollLoopEnds(id, rest);
      var r := PollLoop(id, rest);
      var run := PollLoop(id, replies);
      var n := |run.published|;
      assert n == |r.published| + 1;
      assert run.sent == [CheckProgress(id)] + r.sent;
      assert run.outcome == r.outcome && run.downloadUrl == r.downloadUrl;
      assert ReplyAt(rest, n - 1) == ReplyAt(replies, n);
      if n - 1 > 0 {
        assert ReplyAt(rest, n - 2) == ReplyAt(replies, n - 1);
      }
      assert [CheckProgress(id)] + Repeat(CheckProgress(id), n) == Repeat(CheckProgress(id), n + 1);
      Sequences.AppendAssoc([CheckProgress(id)], Repeat(CheckProgress(id), n - 1), [GetPhotosceneResult(id, "fbx")]);
    } else if polled.Ok? {
      assert ReplyAt(Drop(replies, 1), 0) == ReplyAt(replies, 1);
      assert Repeat(CheckProgress(id), 1) == [CheckProgress(id)];
    } else {
      assert Repeat(CheckProgress(id), 1) == [CheckProgress(id)];
    }
  }

  // One turn of the poll loop, unfolded, one lemma per way the turn can go.

  lemma PollLoopFails(id: string, replies: seq<Reply>)
    requires PollResult(Next(replies)).Err?
    ensures PollLoop(id, replies) == PollRun([CheckProgress(id)], [], None, Fail(PollResult(Next(replies)).error))
  {
  }

  lemma PollLoopFinishes(id: string, replies: seq<Reply>)
    requires PollResult(Next(replies)).Ok? && MessageOf(PollResult(Next(replies)).value) == Some("DONE")
    ensures var run := PollLoop(id, replies);
      var result := Next(Drop(replies, 1));
      && run.sent == [CheckProgress(id), GetPhotosceneResult(id, "fbx")]
      && run.published == [ProgressOf(PollResult(Next(replies)).value)]
      && run.outcome == (if result.Thrown? then Fail(result.message) else Pass)
      && run.downloadUrl == (if !result.Thrown? && Successful(result) then Some(SceneLinkOf(result)) else None)
  {
  }

  lemma PollLoopContinues(id: string, replies: seq<Reply>)
    requires PollResult(Next(replies)).Ok? && MessageOf(PollResult(Next(replies)).value) != Some("DONE")
    ensures var run := PollLoop(id, replies);
      var rest := PollLoop(id, Drop(replies, 1));
      && run.sent == [CheckProgress(id)] + rest.sent
      && run.published == [ProgressOf(PollResult(Next(replies)).value)] + rest.published
      && run.downloadUrl == rest.downloadUrl && run.outcome == rest.outcome
  {
  }

  /** `getProgress()`: trigger processing, then the poll loop. */
  function GetProgressRun(id: string, replies: seq<Reply>): (run: PollRun)
  {
    var processed := Next(replies);
    if !Successful(processed) then PollRun([ProcessPhotoscene(id)], [], None, Fail(CallFailure(ProcessFailed, processed)))
    else
      var loop := PollLoop(id, Drop(replies, 1));
      PollRun([ProcessPhotoscene(id)] + loop.sent, loop.published, loop.downloadUrl, loop.outcome)
  }

  /** Processing is triggered once, before any poll, and a refused trigger
      ends the run with its error before anything is polled or published. */
  lemma ProcessingComesFirst(id: string, replies: seq<Reply>)
    ensures var run := GetProgressRun(id, replies);
      && run.sent[0] == ProcessPhotoscene(id)
      && (forall k :: 0 < k < |run.sent| ==> !run.sent[k].ProcessPhotoscene?)
      && (!Successful(Next(replies)) ==> run.sent == [ProcessPhotoscene(id)] && run.published == []
                                          && run.outcome == Fail(CallFailure(ProcessFailed, Next(replies))))
  {
    if Successful(Next(replies)) {
      var loop := PollLoop(id, Drop(replies, 1));
      PollLoopSpec(id, Drop(replies, 1));
      var n := |loop.published|;
      assert forall k :: 0 <= k < |loop.sent| ==>
        loop.sent[k] == CheckProgress(id) || loop.sent[k] == GetPhotosceneResult(id, "fbx");
    }
  }

  // ---------------------------------------------------------------- view model

  class RecapViewModel {
    const api: Api
    var photosceneId: string
    var downloadUrl: Option<string>
    var progress: Option<string>
    /** Every value published to the `progress` observers, oldest first. */
    ghost var progressHistory: seq<Option<string>>

    constructor (api: Api)
      ensures this.api == api
      ensures photosceneId == "" && downloadUrl.None? && progress.None? && progressHistory == []
    {
      this.api := api;
      photosceneId := "";
      downloadUrl := None;
      progress := None;
      progressHistory := [];
    }

    method SetProgress(newProgress: Option<string>)
      modifies this
      ensures progress == newProgress && progressHistory == old(progressHistory) + [newProgress]
      ensures photosceneId == old(photosceneId) && downloadUrl == old(downloadUrl)
    {
      progress := newProgress;
      progressHistory := progressHistory + [newProgress];
    }

    method SetDownloadUrl(url: Option<string>)
      modifies this
      ensures downloadUrl == url
      ensures photosceneId == old(photosceneId) && progress == old(progress)
      ensures progressHistory == old(progressHistory)
    {
      downloadUrl := url;
    }

    /** `createPhotoscene(sceneName, format, onResult)`; the value handed to
        `onResult` is returned. The Kotlin default for `format` is "obj". */
    method CreatePhotoscene(sceneName: string, format: Option<string>) returns (result: Option<string>)
      modifies this, api
      ensures api.requests == old(api.requests) + [RecapApi.CreatePhotoscene(sceneName, format)]
      ensures api.replies == Drop(old(api.replies), 1)
      ensures var reply := Next(old(api.replies));
        && (Successful(reply) ==>
              && photosceneId == (if reply.body.Some? && reply.body.value.photoscene.Some?
                                     && reply.body.value.photoscene.value.photosceneid.Some?
                                  then reply.body.value.photoscene.value.photosceneid.value else "")
              && result == Some(photosceneId))
        && (!Successful(reply) ==> result.None? && photosceneId == old(photosceneId))
      ensures downloadUrl == old(downloadUrl) && progress == old(progress)
      ensures progressHistory == old(progressHistory)
    {
      var response := api.Exchange(RecapApi.CreatePhotoscene(sceneName, format));
      if Successful(response) {
        var newId: Option<string> := None;
        if response.body.Some? && response.body.value.photoscene.Some? {
          newId := response.body.value.photoscene.value.photosceneid;
        }
        photosceneId := newId.GetOr("");
        result := Some(photosceneId);
      } else {
        result := None;
      }
    }

    /** `uploadPhotosInBatches(files, batchSize)`; Pass when it returns, Fail
        with the exception's message when it throws. */
    method UploadPhotosInBatches(files: seq<File>, batchSize: int) returns (outcome: Outcome<string>)
      modifies api
      ensures batchSize <= 0 ==>
        && outcome == Fail("size " + IntToString(batchSize) + " must be greater than zero.")
        && api.requests == old(api.requests) && api.replies == old(api.replies)
      ensures batchSize > 0 ==>
        var run := UploadRun(photosceneId, Chunked(files, batchSize), old(api.replies));
        && api.requests == old(api.requests) + run.sent
        && api.replies == Drop(old(api.replies), |run.sent|)
        && outcome == run.outcome
    {
      if batchSize <= 0 {
        return Fail("size " + IntToString(batchSize) + " must be greater than zero.");
      }
      var chunkedLists := Chunked(files, batchSize);
      ghost var run := UploadRun(photosceneId, chunkedLists, api.replies);
      for index := 0 to |chunkedLists|
        invariant api.requests + UploadRun(photosceneId, chunkedLists[index..], api.replies).sent
               == old(api.requests) + run.sent
        invariant UploadRun(photosceneId, chunkedLists[index..], api.replies).outcome == run.outcome
        invariant |api.requests| - |old(api.requests)| == index
        invariant api.replies == Drop(old(api.replies), index)
      {
        var chunk := chunkedLists[index];
        var parts := Parts(chunk);
        assert chunkedLists[index..][1..] == chunkedLists[index + 1..];
        ghost var requestsBefore := api.requests;
        var response := api.Exchange(UploadPhotos(photosceneId, parts));
        if !Successful(response) {
          return Fail(CallFailure(UploadFailed, response));
        }
        Sequences.AppendAssoc(requestsBefore, [UploadPhotos(photosceneId, parts)],
                              UploadRun(photosceneId, chunkedLists[index + 1..], api.replies).sent);
      }
      outcome := Pass;
    }

    /** `processPhotoscene()`. */
    method ProcessPhotoscene() returns (outcome: Outcome<string>)
      modifies api
      ensures api.requests == old(api.requests) + [RecapApi.ProcessPhotoscene(photosceneId)]
      ensures api.replies == Drop(old(api.replies), 1)
      ensures outcome == if Successful(Next(old(api.replies))) then Pass
                         else Fail(CallFailure(ProcessFailed, Next(old(api.replies))))
    {
      var response := api.Exchange(RecapApi.ProcessPhotoscene(photosceneId));
      if !Successful(response) {
        return Fail(CallFailure(ProcessFailed, response));
      }
      outcome := Pass;
    }

    /** `pollProgress()`. */
    method PollProgress() returns (polled: Result<Option<SceneBody>, string>)
      modifies api
      ensures api.requests == old(api.requests) + [CheckProgress(photosceneId)]
      ensures api.replies == Drop(old(api.replies), 1)
      ensures polled == PollResult(Next(old(api.replies)))
    {
      var response := api.Exchange(CheckProgress(photosceneId));
      if response.Thrown? {
        return Err(response.message);
      }
      polled := if Successful(response) then Ok(response.body) else Ok(None);
    }

    /** The body of the "DONE" branch of `getProgress()`: fetch the FBX
        result once and set the link from a successful reply. */
    method FetchResult() returns (outcome: Outcome<string>)
      modifies this, api
      ensures var result := Next(old(api.replies));
        && api.requests == old(api.requests) + [GetPhotosceneResult(photosceneId, "fbx")]
        && api.replies == Drop(old(api.replies), 1)
        && outcome == (if result.Thrown? then Fail(result.message) else Pass)
        && downloadUrl == (if !result.Thrown? && Successful(result) then SceneLinkOf(result)
                           else old(downloadUrl))
      ensures photosceneId == old(photosceneId) && progress == old(progress)
      ensures progressHistory == old(progressHistory)
    {
      var resultResponse := api.Exchange(GetPhotosceneResult(photosceneId, "fbx"));
      if resultResponse.Thrown? {
        return Fail(resultResponse.message);
      }
      if Successful(resultResponse) {
        SetDownloadUrl(SceneLinkOf(resultResponse));
      }
      outcome := Pass;
    }

    /** `getProgress()`: the outcome is Fail when the coroutine ends with an
        exception. An exhausted reply script ends the loop that way. */
    method GetProgress() returns (outcome: Outcome<string>)
      modifies this, api
      ensures var run := GetProgressRun(photosceneId, old(api.replies));
        && api.requests == old(api.requests) + run.sent
        && progressHistory == old(progressHistory) + run.published
        && progress == (if run.published == [] then old(progress) else run.published[|run.published| - 1])
        && downloadUrl == (if run.downloadUrl.Some? then run.downloadUrl.value else old(downloadUrl))
        && outcome == run.outcome
      ensures photosceneId == old(photosceneId)
    {
      var processed := ProcessPhotoscene();
      if processed.Fail? {
        return processed;
      }
      outcome := PollUntilDone();
    }

    /** The `while (true)` loop of `getProgress()`, run against the replies
        left after processing was triggered. */
    method PollUntilDone() returns (outcome: Outcome<string>)
      modifies this, api
      ensures var run := PollLoop(photosceneId, old(api.replies));
        && api.requests == old(api.requests) + run.sent
        && progressHistory == old(progressHistory) + run.published
        && progress == (if run.published == [] then old(progress) else run.published[|run.published| - 1])
        && downloadUrl == (if run.downloadUrl.Some? then run.downloadUrl.value else old(downloadUrl))
        && outcome == run.outcome
      ensures photosceneId == old(photosceneId)
    {
      ghost var loop := PollLoop(photosceneId, api.replies);
      ghost var sentBefore := api.requests;
      ghost var published: seq<Option<string>> := [];
      ghost var remaining := loop;
      while true
        invariant photosceneId == old(photosceneId)
        invariant remaining == PollLoop(photosceneId, api.replies)
        invariant api.requests + remaining.sent == sentBefore + loop.sent
        invariant published + remaining.published == loop.published
        invariant remaining.downloadUrl == loop.downloadUrl && remaining.outcome == loop.outcome
        invariant progressHistory == old(progressHistory) + published
        invariant progress == (if published == [] then old(progress) else published[|published| - 1])
        invariant downloadUrl == old(downloadUrl)
        decreases |api.replies|
      {
        ghost var requestsBefore := api.requests;
        var done, turn := PollTurn();
        if done {
          PublishedInOrder(old(progressHistory), old(progress), published, remaining.published, loop.published);
          return turn;
        }
        ghost var rest := PollLoop(photosceneId, api.replies);
        Sequences.AppendAssoc(requestsBefore, [CheckProgress(photosceneId)], rest.sent);
        Sequences.AppendAssoc(published, [progress], rest.published);
        Sequences.AppendAssoc(old(progressHistory), published, [progress]);
        Sequences.LastOfAppend(published, [progress]);
        published := published + [progress];
        remaining := rest;
      }
    }

    /** What the loop has published so far followed by what the rest of the
        run publishes is what the whole run publishes, and the last value
        published is the last of the whole run. */
    static lemma PublishedInOrder(history: seq<Option<string>>, initial: Option<string>,
                                  published: seq<Option<string>>, rest: seq<Option<string>>,
                                  all: seq<Option<string>>)
      requires published + rest == all
      ensures (history + published) + rest == history + all
      ensures (if rest == [] then (if published == [] then initial else published[|published| - 1])
               else rest[|rest| - 1])
           == (if all == [] then initial else all[|all| - 1])
    {
      Sequences.AppendAssoc(history, published, rest);
      if rest != [] {
        Sequences.LastOfAppend(published, rest);
      }
    }

    /** One pass of the body of that loop: poll, publish the progress, and on
        "DONE" fetch the result. `done` says the loop ends here, by `break` or
        by an exception; when it does not, the rest of the run is what the
        remaining replies make of it. */
    method PollTurn() returns (done: bool, outcome: Outcome<string>)
      modifies this, api
      ensures done ==>
        var run := PollLoop(photosceneId, old(api.replies));
        && api.requests == old(api.requests) + run.sent
        && progressHistory == old(progressHistory) + run.published
        && progress == (if run.published == [] then old(progress) else run.published[|run.published| - 1])
        && downloadUrl == (if run.downloadUrl.Some? then run.downloadUrl.value else old(downloadUrl))
        && outcome == run.outcome
      ensures !done ==> |api.replies| < |old(api.replies)|
      ensures !done ==> api.requests == old(api.requests) + [CheckProgress(photosceneId)]
      ensures !done ==> progressHistory == old(progressHistory) + [progress]
      ensures !done ==> downloadUrl == old(downloadUrl)
      ensures !done ==>
        var run := PollLoop(photosceneId, old(api.replies));
        var rest := PollLoop(photosceneId, api.replies);
        && run.sent == [CheckProgress(photosceneId)] + rest.sent
        && run.published == [progress] + rest.published
        && run.downloadUrl == rest.downloadUrl && run.outcome == rest.outcome
      ensures photosceneId == old(photosceneId)
    {
      ghost var before := api.replies;
      var progressResponse := PollProgress();
      if progressResponse.Err? {
        PollLoopFails(photosceneId, before);
        return true, Fail(progressResponse.error);
      }
      var progressVal := ProgressOf(progressResponse.value);
      SetProgress(progressVal);
      var progressMsg := MessageOf(progressResponse.value);
      if progressMsg == Some("DONE") {
        PollLoopFinishes(photosceneId, before);
        outcome := FetchResult();
        return true, outcome;
      }
      PollLoopContinues(photosceneId, before);
      done, outcome := false, Pass;
    }
  }
}
