/** The photogrammetry REST service as the reconstruction client sees it. The
    service is not modelled: it is a script of replies, consumed one per
    request, and a log of the requests sent. A script that has run out
    answers every further request as a dropped connection would, by throwing. */
module RecapApi {
  import opened ReplyScript
  import opened Wrappers
  import ProgressDeserializer

  datatype File = File(name: string)

  /** A multipart form-data part: field name, file name, the file's body. */
  datatype Part = Part(fieldName: string, fileName: string, file: File)

  /** `PhotosceneInfo`. `progress` is the raw JSON element, read through the
      progress adapter when used. */
  datatype PhotosceneInfo = PhotosceneInfo(
    photosceneid: Option<string>,
    progress: Option<ProgressDeserializer.JsonElement>,
    progressmsg: Option<string>,
    scenelink: Option<string>)

  /** The JSON reply bodies of create, process, progress and result all carry
      an optional `Photoscene`; the upload reply is only logged. */
  datatype SceneBody = SceneBody(photoscene: Option<PhotosceneInfo>)

  datatype Request =
    | CreatePhotoscene(scenename: string, format: Option<string>)
    | UploadPhotos(photosceneId: string, parts: seq<Part>)
    | ProcessPhotoscene(photosceneId: string)
    | CheckProgress(photosceneId: string)
    | GetPhotosceneResult(photosceneId: string, resultFormat: string)

  /** A Retrofit `Response` (status code, parsed body, raw error body), or the
      exception the call threw. */
  datatype Reply =
    | Http(code: int, body: Option<SceneBody>, errorBody: Option<string>)
    | Thrown(message: string)

  /** `response.isSuccessful`. */
  predicate Successful(reply: Reply) {
    reply.Http? && 200 <= reply.code < 300
  }

  /** `"${response.errorBody()?.string()}"`: a missing error body renders as "null". */
  function ErrorText(reply: Reply): (text: string)
    requires reply.Http?
  {
    reply.errorBody.GetOr("null")
  }

  /** What an exhausted script answers. */
  const NoReply: Reply := Thrown("no reply")

  /** The reply to the next request. */
  function Next(replies: seq<Reply>): (reply: Reply)
    ensures replies == [] ==> reply.Thrown?
  {
    NextReply(replies, NoReply)
  }

  /** The reply the `k`-th request from now will get. */
  function ReplyAt(replies: seq<Reply>, k: nat): (reply: Reply)
    ensures k == 0 ==> reply == Next(replies)
  {
    if k < |replies| then replies[k] else NoReply
  }

  /** The script after `n` more requests. */
  function Drop(replies: seq<Reply>, n: nat): (rest: seq<Reply>)
    ensures |rest| == if n <= |replies| then |replies| - n else 0
    ensures forall k :: ReplyAt(rest, k) == ReplyAt(replies, n + k)
  {
    if n <= |replies| then replies[n..] else []
  }

  class Api {
    var requests: seq<Request>
    var replies: seq<Reply>

    constructor (script: seq<Reply>)
      ensures requests == [] && replies == script
    {
      requests := [];
      replies := script;
    }

    /** Send one request and receive the scripted reply. */
    method Exchange(request: Request) returns (reply: Reply)
      modifies this
      ensures requests == old(requests) + [request]
      ensures reply == Next(old(replies))
      ensures replies == Drop(old(replies), 1)
    {
      requests := requests + [request];
      reply := Next(replies);
      replies := Drop(replies, 1);
    }
  }
}
