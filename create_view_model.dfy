/** Creating a listing: validate the form, insert the row without URLs, upload
    the image, upload the 3D model, then store the returned URLs on the row.
    The listing service is a script of replies with a log of the requests. */
module CreateViewModel {
  import opened ReplyScript
  import opened Wrappers
  import opened Market
  import opened ListingStore
  import opened RecapApi
  import Sequences

  /** `ImageUploadResponse` / `ModelUploadResponse`: the URL the service stored the file under. */
  datatype UploadBody = UploadBody(url: Option<string>)

  datatype UploadReply =
    | UploadHttp(code: int, body: Option<UploadBody>, errorBody: Option<string>)
    | UploadThrown(message: string)

  datatype UploadRequest =
    | UploadListingImage(listingId: int, imagePart: Part)
    | UploadListingModel(listingId: int, modelPart: Part)

  const NoUploadReply: UploadReply := UploadThrown("no reply")

  /** `uploadListingImage` / `uploadListingModel` after the call: a successful
      reply yields its URL, or "" when the body or the URL is missing; any
      other status throws with `failure` followed by the error body ("null"
      when there is none); a thrown call propagates. */
  function UploadResult(reply: UploadReply, failure: string): (r: Result<string, string>)
    ensures r.Ok? <==> reply.UploadHttp? && 200 <= reply.code < 300
    ensures r.Ok? && r.value != "" ==> reply.body.Some? && reply.body.value.url == Some(r.value)
    ensures r.Ok? && reply.body.Some? && reply.body.value.url.Some? ==> r.value == reply.body.value.url.value
    ensures r.Ok? && (reply.body.None? || reply.body.value.url.None?) ==> r.value == ""
    ensures r.Err? && reply.UploadHttp? ==> r.error == failure + reply.errorBody.GetOr("null")
    ensures reply.UploadThrown? ==> r == Err(reply.message)
  {
    if reply.UploadThrown? then Err(reply.message)
    else if 200 <= reply.code < 300 then
      Ok(if reply.body.Some? then reply.body.value.url.GetOr("") else "")
    else Err(failure + reply.errorBody.GetOr("null"))
  }

  const ImageFailure := "Failed to upload image: "
  const ModelFailure := "Failed to upload model: "

  function ImageRequest(id: int, imageFile: File): UploadRequest {
    UploadListingImage(id, Part("image-file", imageFile.name, imageFile))
  }

  function ModelRequest(id: int, modelFile: File): UploadRequest {
    UploadListingModel(id, Part("model-file", modelFile.name, modelFile))
  }

  /** The requests the two uploads send and the URLs they yield (image, model),
      or the message of the exception that ended them. */
  datatype UploadRun = UploadRun(sent: seq<UploadRequest>, urls: Result<(string, string), string>)

  function UploadSteps(id: int, imageFile: File, modelFile: File, replies: seq<UploadReply>): (run: UploadRun)
  {
    var image := UploadResult(NextReply(replies, NoUploadReply), ImageFailure);
    if image.Err? then UploadRun([ImageRequest(id, imageFile)], Err(image.error))
    else
      var model := UploadResult(NextReply(Consume(replies), NoUploadReply), ModelFailure);
      if model.Err? then UploadRun([ImageRequest(id, imageFile), ModelRequest(id, modelFile)], Err(model.error))
      else UploadRun([ImageRequest(id, imageFile), ModelRequest(id, modelFile)], Ok((image.value, model.value)))
  }

  /** The image is always uploaded first; the model is uploaded only after the
      image upload succeeded; the run yields URLs only when both succeed, and
      a refused upload ends it with the message naming that upload. */
  lemma UploadStepOrder(id: int, imageFile: File, modelFile: File, replies: seq<UploadReply>)
    ensures var run := UploadSteps(id, imageFile, modelFile, replies);
      var image := UploadResult(NextReply(replies, NoUploadReply), ImageFailure);
      var model := UploadResult(NextReply(Consume(replies), NoUploadReply), ModelFailure);
      && 1 <= |run.sent| <= 2
      && run.sent[0] == ImageRequest(id, imageFile)
      && (|run.sent| == 2 <==> image.Ok?)
      && (|run.sent| == 2 ==> run.sent[1] == ModelRequest(id, modelFile))
      && (image.Err? ==> run.urls == Err(image.error))
      && (run.urls.Ok? <==> image.Ok? && model.Ok?)
      && (run.urls.Ok? ==> run.urls.value == (image.value, model.value))
      && (image.Ok? && model.Err? ==> run.urls == Err(model.error))
  {
  }

  /** Why `createListing` stops before touching anything. */
  predicate FormIncomplete(productName: string, price: int, imageFile: Option<File>, modelFile: Option<File>) {
    productName == [] || price <= 0 || imageFile.None? || modelFile.None?
  }

  /** How `createListing` ends: stopped by validation (a toast, no callback),
      `onSuccess()`, or `onError(e)` with the exception's message. */
  datatype CreateOutcome = Rejected | Succeeded | Failed(message: string)

  /** The listing service: uploads are answered from a script and logged. */
  class ModelApi {
    var requests: seq<UploadRequest>
    var replies: seq<UploadReply>

    constructor (script: seq<UploadReply>)
      ensures requests == [] && replies == script
    {
      requests := [];
      replies := script;
    }

    method Exchange(request: UploadRequest) returns (reply: UploadReply)
      modifies this
      ensures requests == old(requests) + [request]
      ensures reply == NextReply(old(replies), NoUploadReply) && replies == Consume(old(replies))
    {
      requests := requests + [request];
      reply := NextReply(replies, NoUploadReply);
      replies := Consume(replies);
    }
  }

  class CreateViewModel {
    const listingRepository: Store
    const listingApiService: ModelApi

    constructor (listingRepository: Store, listingApiService: ModelApi)
      ensures this.listingRepository == listingRepository && this.listingApiService == listingApiService
    {
      this.listingRepository := listingRepository;
      this.listingApiService := listingApiService;
    }

    /** `uploadListingImage(listingId, imageFile)`. */
    method UploadListingImageFile(listingId: int, imageFile: File) returns (r: Result<string, string>)
      modifies listingApiService
      ensures listingApiService.requests == old(listingApiService.requests) + [ImageRequest(listingId, imageFile)]
      ensures listingApiService.replies == Consume(old(listingApiService.replies))
      ensures r == UploadResult(NextReply(old(listingApiService.replies), NoUploadReply), ImageFailure)
    {
      var response := listingApiService.Exchange(ImageRequest(listingId, imageFile));
      r := UploadResult(response, ImageFailure);
    }

    /** `uploadListingModel(listingId, modelFile)`. */
    method UploadListingModelFile(listingId: int, modelFile: File) returns (r: Result<string, string>)
      modifies listingApiService
      ensures listingApiService.requests == old(listingApiService.requests) + [ModelRequest(listingId, modelFile)]
      ensures listingApiService.replies == Consume(old(listingApiService.replies))
      ensures r == UploadResult(NextReply(old(listingApiService.replies), NoUploadReply), ModelFailure)
    {
      var response := listingApiService.Exchange(ModelRequest(listingId, modelFile));
      r := UploadResult(response, ModelFailure);
    }

    /** `createListing(...)`; `price` is in hundredths. */
    method CreateListing(productName: string, category: Category, price: int, condition: Condition,
                         imageFile: Option<File>, modelFile: Option<File>) returns (outcome: CreateOutcome)
      requires listingRepository.Valid()
      modifies listingRepository, listingApiService
      ensures listingRepository.Valid()
      ensures FormIncomplete(productName, price, imageFile, modelFile) ==>
        && outcome == Rejected
        && listingRepository.rows == old(listingRepository.rows)
        && listingApiService.requests == old(listingApiService.requests)
        && listingApiService.replies == old(listingApiService.replies)
      ensures !FormIncomplete(productName, price, imageFile, modelFile) ==>
        exists id: int ::
          var inserted := Listing(id, productName, category, price, condition, None, None);
          var run := UploadSteps(id, imageFile.value, modelFile.value, old(listingApiService.replies));
          && id > 0 && !HasId(old(listingRepository.rows), id)
          && listingApiService.requests == old(listingApiService.requests) + run.sent
          && (run.urls.Err? ==> outcome == Failed(run.urls.error)
                                && listingRepository.rows == old(listingRepository.rows) + [inserted])
          && (run.urls.Ok? ==> outcome == Succeeded
                               && listingRepository.rows == old(listingRepository.rows)
                                  + [inserted.(imageUrl := Some(run.urls.value.0), modelUrl := Some(run.urls.value.1))])
    {
      if productName == [] || price <= 0 || imageFile.None? || modelFile.None? {
        return Rejected;
      }
      ghost var rowsBefore := listingRepository.rows;
      ghost var replies := listingApiService.replies;
      ghost var requestsBefore := listingApiService.requests;
      var newListing := Listing(0, productName, category, price, condition, None, None);
      var listingId := listingRepository.AddListingReturnId(newListing);
      ghost var run := UploadSteps(listingId, imageFile.value, modelFile.value, replies);
      ghost var inserted := newListing.(id := listingId);

      var imageUrl := UploadListingImageFile(listingId, imageFile.value);
      if imageUrl.Err? {
        return Failed(imageUrl.error);
      }
      var modelUrl := UploadListingModelFile(listingId, modelFile.value);
      Sequences.AppendAssoc(requestsBefore, [ImageRequest(listingId, imageFile.value)],
                            [ModelRequest(listingId, modelFile.value)]);
      assert listingApiService.requests == requestsBefore + run.sent;
      if modelUrl.Err? {
        return Failed(modelUrl.error);
      }
      var updatedListing := newListing.(id := listingId, imageUrl := Some(imageUrl.value), modelUrl := Some(modelUrl.value));
      ReplaceLast(rowsBefore, inserted, updatedListing);
      listingRepository.UpdateListing(updatedListing);
      outcome := Succeeded;
    }
  }

  /** Updating the row just appended under a fresh id replaces that row only. */
  lemma ReplaceLast(rows: seq<Listing>, inserted: Listing, updated: Listing)
    requires !HasId(rows, inserted.id) && updated.id == inserted.id
    ensures ReplaceById(rows + [inserted], updated) == rows + [updated]
  {
    var r := ReplaceById(rows + [inserted], updated);
    forall i | 0 <= i < |rows| ensures r[i] == rows[i] {
      assert (rows + [inserted])[i] == rows[i];
      assert rows[i].id != inserted.id;
    }
  }

  // ---------------------------------------------------------------- copyStream

  /** A byte source read through `read(buffer)`: how many bytes one call
      delivers is up to the stream (at least one while any are left). */
  class InputStream {
    const content: seq<byte>
    var pos: nat

    ghost predicate Valid()
      reads this
    {
      pos <= |content|
    }

    constructor (content: seq<byte>)
      ensures this.content == content && pos == 0 && Valid()
    {
      this.content := content;
      pos := 0;
    }

    /** `read(b)`: 0 for an empty buffer, -1 at end of stream, otherwise the
        number of bytes placed at the start of `b`. */
    method Read(b: array<byte>) returns (len: int)
      requires Valid()
      modifies this, b
      ensures Valid()
      ensures b.Length == 0 ==> len == 0 && pos == old(pos)
      ensures b.Length > 0 && old(pos) == |content| ==> len == -1 && pos == old(pos)
      ensures b.Length > 0 && old(pos) < |content| ==>
        && 1 <= len <= b.Length
        && pos == old(pos) + len
        && b[..len] == content[old(pos)..pos]
    {
      if b.Length == 0 {
        return 0;
      }
      if pos == |content| {
        return -1;
      }
      var n :| 1 <= n <= b.Length && n <= |content| - pos;
      for i := 0 to n
        invariant pos == old(pos) && pos + n <= |content|
        invariant b[..i] == content[pos..pos + i]
      {
        b[i] := content[pos + i];
      }
      pos := pos + n;
      len := n;
    }
  }

  /** A byte sink; `chunks` records the size of every `write`. */
  class OutputStream {
    var written: seq<byte>
    ghost var chunks: seq<int>
    var flushed: bool

    constructor ()
      ensures written == [] && chunks == [] && flushed
    {
      written := [];
      chunks := [];
      flushed := true;
    }

    /** `write(b, off, len)`. */
    method Write(b: array<byte>, off: int, len: int)
      requires 0 <= off <= off + len <= b.Length
      modifies this
      ensures written == old(written) + b[off..off + len]
      ensures chunks == old(chunks) + [len] && !flushed
    {
      written := written + b[off..off + len];
      chunks := chunks + [len];
      flushed := false;
    }

    method Flush()
      modifies this
      ensures flushed && written == old(written) && chunks == old(chunks)
    {
      flushed := true;
    }
  }

  const BufferSize := 1024

  /** `copyStream(input, out)`: everything left in the input is written, in
      order, in writes of 1 to 1024 bytes, and the output is flushed. */
  method CopyStream(input: InputStream, out: OutputStream)
    requires input.Valid()
    modifies input, out
    ensures input.Valid() && input.pos == |input.content|
    ensures out.written == old(out.written) + input.content[old(input.pos)..]
    ensures |out.chunks| >= |old(out.chunks)|
    ensures forall k :: |old(out.chunks)| <= k < |out.chunks| ==> 1 <= out.chunks[k] <= BufferSize
    ensures out.flushed
  {
    var buffer := new byte[BufferSize](_ => 0);
    var len: int;
    while true
      invariant input.Valid()
      invariant out.written == old(out.written) + input.content[old(input.pos)..input.pos]
      invariant |out.chunks| >= |old(out.chunks)|
      invariant forall k :: |old(out.chunks)| <= k < |out.chunks| ==> 1 <= out.chunks[k] <= BufferSize
      decreases |input.content| - input.pos
    {
      ghost var before := input.pos;
      len := input.Read(buffer);
      if len == -1 {
        break;
      }
      out.Write(buffer, 0, len);
      assert input.content[old(input.pos)..input.pos]
          == input.content[old(input.pos)..before] + input.content[before..input.pos];
    }
    assert input.content[old(input.pos)..input.pos] == input.content[old(input.pos)..];
    out.Flush();
  }
}
