/** The photo album screen's state: an optional camera temp-file URI and the
    pictures picked so far. Every user event is reduced into a new state.
    Reading a URI's bytes goes through the content resolver, modelled as a map
    from the URIs that can be read to their bytes; decoding a picture is a
    total function of its bytes. */
module AlbumViewModel {
  import opened Wrappers
  import opened Market
  import opened Sequences

  type Uri = string

  /** A decoded picture, `bitmap.asImageBitmap()`. */
  datatype ImageBitmap = Decoded(bytes: seq<byte>)

  datatype SelectedPicture = SelectedPicture(uri: Uri, imageBitmap: ImageBitmap)

  datatype AlbumViewState = AlbumViewState(tempFileUrl: Option<Uri>, selectedPictures: seq<SelectedPicture>)

  /** The events the screen sends. `OnPermissionGrantedWith` carries the URI of
      the temp file created for the camera. */
  datatype Intent =
    | OnPermissionGrantedWith(tempUri: Uri)
    | OnPermissionDenied
    | OnFinishPickingImagesWith(imageUrls: seq<Uri>)
    | OnImageSavedWith
    | OnImageSavingCanceled

  /** The URIs whose bytes the resolver returns. */
  function Readable(contents: map<Uri, seq<byte>>): (keep: Uri -> bool)
    ensures forall u :: keep(u) <==> u in contents
  {
    (u: Uri) => u in contents
  }

  function Uris(pictures: seq<SelectedPicture>): (uris: seq<Uri>)
    ensures |uris| == |pictures|
    ensures forall k :: 0 <= k < |pictures| ==> uris[k] == pictures[k].uri
  {
    seq(|pictures|, k requires 0 <= k < |pictures| => pictures[k].uri)
  }

  /** The pictures the picking loop builds from `urls`, unreadable ones skipped. */
  function Picked(urls: seq<Uri>, contents: map<Uri, seq<byte>>): (pictures: seq<SelectedPicture>)
    ensures |pictures| <= |urls|
    ensures forall k :: 0 <= k < |pictures| ==>
              pictures[k].uri in contents && pictures[k].imageBitmap == Decoded(contents[pictures[k].uri])
  {
    if urls == [] then []
    else
      var last := urls[|urls| - 1];
      Picked(urls[..|urls| - 1], contents)
        + (if last in contents then [SelectedPicture(last, Decoded(contents[last]))] else [])
  }

  /** The picked pictures are exactly the readable URIs, in pick order. */
  lemma {:induction false} PickedFollowsPickOrder(urls: seq<Uri>, contents: map<Uri, seq<byte>>)
    ensures Uris(Picked(urls, contents)) == Filter(urls, Readable(contents))
    decreases |urls|
  {
    if urls != [] {
      var init, last := urls[..|urls| - 1], urls[|urls| - 1];
      var keep := Readable(contents);
      var tail := if last in contents then [SelectedPicture(last, Decoded(contents[last]))] else [];
      var kept := if keep(last) then [last] else [];
      PickedFollowsPickOrder(init, contents);
      FilterSnoc(urls, keep);
      assert Picked(urls, contents) == Picked(init, contents) + tail;
      assert Uris(tail) == kept;
      UrisConcat(Picked(init, contents), tail);
    }
  }

  lemma UrisConcat(a: seq<SelectedPicture>, b: seq<SelectedPicture>)
    ensures Uris(a + b) == Uris(a) + Uris(b)
  {
  }

  /** The new state after one event. */
  function Reduce(state: AlbumViewState, intent: Intent, contents: map<Uri, seq<byte>>): (next: AlbumViewState)
  {
    match intent
    case OnPermissionGrantedWith(uri) => state.(tempFileUrl := Some(uri))
    case OnPermissionDenied => state
    case OnFinishPickingImagesWith(urls) =>
      if urls == [] then state
      else AlbumViewState(None, state.selectedPictures + Picked(urls, contents))
    case OnImageSavedWith =>
      if state.tempFileUrl.Some? && state.tempFileUrl.value in contents then
        var uri := state.tempFileUrl.value;
        AlbumViewState(None, state.selectedPictures + [SelectedPicture(uri, Decoded(contents[uri]))])
      else state
    case OnImageSavingCanceled => state.(tempFileUrl := None)
  }

  /** No event removes or reorders a picture: the old pictures are a prefix of
      the new ones. Only picking and saving add pictures, and those events
      (when they change anything) and cancelling leave no temp file; only
      the permission grant sets one. */
  lemma EventsKeepPictures(state: AlbumViewState, intent: Intent, contents: map<Uri, seq<byte>>)
    ensures var next := Reduce(state, intent, contents);
      && |state.selectedPictures| <= |next.selectedPictures|
      && next.selectedPictures[..|state.selectedPictures|] == state.selectedPictures
      && (next.tempFileUrl.Some? && next.tempFileUrl != state.tempFileUrl ==> intent.OnPermissionGrantedWith?)
      && (!intent.OnFinishPickingImagesWith? && !intent.OnImageSavedWith? ==> next.selectedPictures == state.selectedPictures)
  {
  }

  /** Picking a non-empty set appends the readable pictures, in pick order,
      after the existing ones and drops the temp file; an empty pick changes
      nothing. */
  lemma PickingAppendsReadable(state: AlbumViewState, urls: seq<Uri>, contents: map<Uri, seq<byte>>)
    ensures var next := Reduce(state, OnFinishPickingImagesWith(urls), contents);
      && (urls == [] ==> next == state)
      && (urls != [] ==>
            && next.tempFileUrl.None?
            && Uris(next.selectedPictures) == Uris(state.selectedPictures) + Filter(urls, Readable(contents)))
  {
    if urls != [] {
      var next := Reduce(state, OnFinishPickingImagesWith(urls), contents);
      PickedFollowsPickOrder(urls, contents);
      assert Uris(next.selectedPictures) == Uris(state.selectedPictures) + Uris(Picked(urls, contents));
    }
  }

  /** Saving the camera picture appends exactly one picture, under the temp
      file's URI, and clears the temp file; without a temp file, or with one
      that cannot be read, nothing changes. */
  lemma SavingAppendsCapture(state: AlbumViewState, contents: map<Uri, seq<byte>>)
    ensures var next := Reduce(state, OnImageSavedWith, contents);
      && (state.tempFileUrl.None? ==> next == state)
      && (state.tempFileUrl.Some? && state.tempFileUrl.value !in contents ==> next == state)
      && (state.tempFileUrl.Some? && state.tempFileUrl.value in contents ==>
            && next.tempFileUrl.None?
            && |next.selectedPictures| == |state.selectedPictures| + 1
            && next.selectedPictures[|state.selectedPictures|].uri == state.tempFileUrl.value)
  {
  }

  /** A run of events, oldest first. */
  function ReduceAll(state: AlbumViewState, intents: seq<Intent>, contents: map<Uri, seq<byte>>): (last: AlbumViewState)
    decreases |intents|
  {
    if intents == [] then state
    else ReduceAll(Reduce(state, intents[0], contents), intents[1..], contents)
  }

  /** Over any run of events the pictures only ever grow at the end. */
  lemma {:induction false} PicturesOnlyGrow(state: AlbumViewState, intents: seq<Intent>, contents: map<Uri, seq<byte>>)
    ensures var last := ReduceAll(state, intents, contents);
      |state.selectedPictures| <= |last.selectedPictures|
      && last.selectedPictures[..|state.selectedPictures|] == state.selectedPictures
    decreases |intents|
  {
    if intents != [] {
      var next := Reduce(state, intents[0], contents);
      EventsKeepPictures(state, intents[0], contents);
      PicturesOnlyGrow(next, intents[1..], contents);
      var last := ReduceAll(state, intents, contents);
      assert last.selectedPictures[..|state.selectedPictures|]
          == last.selectedPictures[..|next.selectedPictures|][..|state.selectedPictures|];
    }
  }

  /** The bytes `toFileList` writes to its temp files, one per readable picture. */
  function FileContents(pictures: seq<SelectedPicture>, contents: map<Uri, seq<byte>>): (files: seq<seq<byte>>)
    ensures |files| <= |pictures|
  {
    if pictures == [] then []
    else
      var last := pictures[|pictures| - 1];
      FileContents(pictures[..|pictures| - 1], contents)
        + (if last.uri in contents then [contents[last.uri]] else [])
  }

  /** A picture is readable when the resolver returns bytes for its URI. */
  function PictureReadable(contents: map<Uri, seq<byte>>): (keep: SelectedPicture -> bool)
    ensures forall p :: keep(p) <==> p.uri in contents
  {
    (p: SelectedPicture) => p.uri in contents
  }

  /** There is one file per readable picture, in selection order, holding that
      picture's bytes. */
  lemma {:induction false} FilesFollowSelection(pictures: seq<SelectedPicture>, contents: map<Uri, seq<byte>>)
    ensures var readable := Filter(pictures, PictureReadable(contents));
      && |FileContents(pictures, contents)| == |readable|
      && forall k :: 0 <= k < |readable| ==> FileContents(pictures, contents)[k] == contents[readable[k].uri]
    decreases |pictures|
  {
    if pictures != [] {
      var init, last := pictures[..|pictures| - 1], pictures[|pictures| - 1];
      var keep := PictureReadable(contents);
      FilesFollowSelection(init, contents);
      FilterSnoc(pictures, keep);
      var readable := Filter(pictures, keep);
      var files := FileContents(pictures, contents);
      var initFiles := FileContents(init, contents);
      assert files == initFiles + (if last.uri in contents then [contents[last.uri]] else []);
      forall k | 0 <= k < |readable| ensures files[k] == contents[readable[k].uri] {
        if k < |initFiles| {
          assert files[k] == initFiles[k];
        }
      }
    }
  }

  class AlbumViewModel {
    var albumViewState: AlbumViewState

    constructor ()
      ensures albumViewState == AlbumViewState(None, [])
    {
      albumViewState := AlbumViewState(None, []);
    }

    /** `onReceive(intent)`, with the resolver's readable contents. */
    method OnReceive(intent: Intent, contents: map<Uri, seq<byte>>)
      modifies this
      ensures albumViewState == Reduce(old(albumViewState), intent, contents)
    {
      match intent {
        case OnPermissionGrantedWith(uri) =>
          albumViewState := albumViewState.(tempFileUrl := Some(uri));
        case OnPermissionDenied =>
        case OnFinishPickingImagesWith(imageUrls) =>
          if |imageUrls| > 0 {
            var newPictures: seq<SelectedPicture> := [];
            for i := 0 to |imageUrls|
              invariant newPictures == Picked(imageUrls[..i], contents)
            {
              var eachImageUrl := imageUrls[i];
              assert imageUrls[..i + 1][..i] == imageUrls[..i];
              if eachImageUrl in contents {
                var bytes := contents[eachImageUrl];
                newPictures := newPictures + [SelectedPicture(eachImageUrl, Decoded(bytes))];
              }
            }
            assert imageUrls[..|imageUrls|] == imageUrls;
            albumViewState := albumViewState.(selectedPictures := albumViewState.selectedPictures + newPictures,
                                              tempFileUrl := None);
          }
        case OnImageSavedWith =>
          var tempImageUrl := albumViewState.tempFileUrl;
          if tempImageUrl.Some? && tempImageUrl.value in contents {
            var decodedBitmap := Decoded(contents[tempImageUrl.value]);
            var currentPictures := albumViewState.selectedPictures;
            currentPictures := currentPictures + [SelectedPicture(tempImageUrl.value, decodedBitmap)];
            albumViewState := albumViewState.(tempFileUrl := None, selectedPictures := currentPictures);
          }
        case OnImageSavingCanceled =>
          albumViewState := albumViewState.(tempFileUrl := None);
      }
    }

    /** `toFileList(context)`: the bytes of each temp file created, in order. */
    method ToFileList(contents: map<Uri, seq<byte>>) returns (files: seq<seq<byte>>)
      ensures files == FileContents(albumViewState.selectedPictures, contents)
    {
      var pictures := albumViewState.selectedPictures;
      files := [];
      for i := 0 to |pictures|
        invariant files == FileContents(pictures[..i], contents)
      {
        var selectedPic := pictures[i];
        assert pictures[..i + 1][..i] == pictures[..i];
        if selectedPic.uri in contents {
          files := files + [contents[selectedPic.uri]];
        }
      }
      assert pictures[..|pictures|] == pictures;
    }
  }
}
